/** The scheduler of SchedulerModel on the processor of ContextSwitch: each
    change of `control` is a `coro_transfer`, each spawn a `coro_create`, and each
    coroutine freed a context that is gone. */
module WholeSystem {
  import opened Basics
  import S = SchedulerModel
  import C = ContextSwitch

  // The contexts besides the coroutines, which are known by address.
  const MAIN: int := -1   // main_coro
  const SCHED: int := -2  // sched_coro, which runs sched_run

  /** Whose stack is in use. */
  function Runner(control: S.Control): int {
    match control
    case InMain => MAIN
    case AtLoop => SCHED
    case Running(co) => co
    case Back => SCHED
    case Done => MAIN
  }

  /** What an event does to contexts. */
  datatype Effect = Nothing | To(id: int) | New(id: int) | Gone(id: int)

  function EffectOf(s: S.State, e: S.Event): Effect
    requires S.Enabled(s, e)
  {
    match e
    case Spawn(a) => New(a)                                                      // coro_alloc calls coro_create
    case Refuse => Nothing
    case Start => To(SCHED)                                                      // env_run
    case Dispatch => To(s.queue[0])
    case Yield => To(SCHED)
    case Leave => To(SCHED)
    case RunOnce => if s.stop || s.queue == [] then Nothing else To(s.queue[0])
    case Stop => Nothing
    case Reap => if s.coros[s.held].status == S.Exit then Gone(s.held) else Nothing
    case Finish => To(MAIN)
  }

  datatype World = World(s: S.State, y: C.System)

  /** Any work of the running code, or an event. A switch is to return to `ret`; a
      spawn creates the context `x` for `func` with `arg`, `nctx` being the local
      context of `coro_create`. */
  datatype Move =
    | Work(cpu: C.Cpu)
    | Event(e: S.Event, ret: int, x: C.Context, func: int, arg: int, nctx: int)

  /** The labels of a move: one at most. */
  function LabelsOf(s: S.State, m: Move): seq<C.Label>
    requires m.Event? ==> S.Enabled(s, m.e)
  {
    match m
    case Work(cpu) => [C.Work(cpu)]
    case Event(e, ret, x, func, arg, nctx) =>
      match EffectOf(s, e)
      case Nothing => []
      case To(i) => [C.Switch(i, ret)]
      case New(i) => [C.Create(i, x, func, arg, nctx)]
      case Gone(i) => [C.Drop(i)]
  }

  /** Each coroutine of the scheduler has a context of its own, and all contexts
      but that of the running code are suspended. */
  ghost predicate Joint(w: World) {
    && S.Inv(w.s) && C.Inv(w.y)
    && w.y.running == Runner(w.s.control)
    && w.y.ctxs.Keys == w.s.coros.Keys + {MAIN, SCHED}
    && w.y.frozen.Keys == w.y.ctxs.Keys - {w.y.running}
  }

  /** What is asked of memory, and nothing of who is suspended or freed: work
      leaves the memory of suspended contexts alone, a call of `coro_transfer` has
      room on the stack, and the allocator hands out memory that nobody owns. */
  ghost predicate Affordable(w: World, m: Move)
    requires m.Event? ==> S.Enabled(w.s, m.e)
    requires w.y.running in w.y.ctxs && w.y.frozen.Keys <= w.y.ctxs.Keys
  {
    var y, me := w.y, w.y.ctxs[w.y.running];
    match m
    case Work(cpu) => forall i, a :: i in y.frozen && C.Owns(y.ctxs[i], a) ==> cpu.mem(a) == y.cpu.mem(a)
    case Event(e, ret, x, func, arg, nctx) =>
      match EffectOf(w.s, e)
      case Nothing => true
      case To(_) => C.Room(me, y.cpu.rsp)
      case New(i) =>
        && C.Layout(y.ctxs[i := x]) && x.lo + C.INIT_WORDS <= x.hi && !(x.lo <= x.slot < x.hi) && func != 0
        && C.Room(me, y.cpu.rsp) && y.cpu.rsp <= nctx < me.hi && me.lo <= nctx && nctx != me.slot
      case Gone(_) => true
  }

  ghost predicate Possible(w: World, m: Move)
    requires Joint(w)
  {
    (m.Event? ==> S.Enabled(w.s, m.e)) && Affordable(w, m)
  }

  /** Whatever the scheduler does, the context that it needs is there: one that it
      switches to is suspended, one that it creates is new, one that it frees is
      suspended and not the running one. */
  lemma NeededIsThere(w: World, m: Move)
    requires Joint(w) && Possible(w, m)
    ensures forall l :: l in LabelsOf(w.s, m) ==> C.Enabled(w.y, l)
  {
    hide C.Layout, C.Suspended, S.Accounts, S.Fifo;
  }

  /** What an event does to control and to who is there. */
  lemma EffectHolds(s: S.State, e: S.Event)
    requires S.Inv(s) && S.Enabled(s, e)
    ensures var s' := S.Step(s, e);
            match EffectOf(s, e)
            case Nothing => Runner(s'.control) == Runner(s.control) && s'.coros.Keys == s.coros.Keys
            case To(i) => Runner(s'.control) == i && s'.coros.Keys == s.coros.Keys
            case New(i) => Runner(s'.control) == Runner(s.control) && s'.coros.Keys == s.coros.Keys + {i}
            case Gone(i) =>
              && Runner(s'.control) == Runner(s.control)
              && s'.coros.Keys == s.coros.Keys - {i} && i in s.coros
  {
    hide S.Accounts, S.Fifo;
    if e.RunOnce? {
      S.RunDirectNeverSkips(s);
      hide S.RunDirect;
    }
  }

  /** What a label does to who runs and who is there. */
  lemma ContextsThere(y: C.System, l: C.Label)
    requires C.Inv(y) && C.Enabled(y, l)
    ensures y.running in y.ctxs
    ensures var y' := C.Next(y, l);
            match l
            case Work(_) => y'.running == y.running && y'.ctxs.Keys == y.ctxs.Keys && y'.frozen.Keys == y.frozen.Keys
            case Switch(to, _) =>
              && y'.running == to && y'.ctxs == y.ctxs && to in y.frozen
              && y'.frozen.Keys == y.frozen.Keys - {to} + {y.running}
            case Create(id, _, _, _, _) =>
              && y'.running == y.running && y'.ctxs.Keys == y.ctxs.Keys + {id} && id !in y.ctxs
              && y'.frozen.Keys == y.frozen.Keys + {id}
            case Drop(id) =>
              && y'.running == y.running && y'.ctxs.Keys == y.ctxs.Keys - {id} && id in y.frozen
              && y'.frozen.Keys == y.frozen.Keys - {id}
  {
    hide C.Layout, C.Suspended, C.Transfer, C.InitOut, C.CreateOut;
  }

  /** The two levels stay together. */
  lemma JointKept(w: World, m: Move, w': World)
    requires Joint(w) && Possible(w, m)
    requires w'.s == if m.Event? then S.Step(w.s, m.e) else w.s
    requires var ls := LabelsOf(w.s, m);
             if ls == [] then w'.y == w.y else C.Enabled(w.y, ls[0]) && w'.y == C.Next(w.y, ls[0])
    ensures Joint(w')
  {
    hide C.Inv, C.Enabled, C.Next, S.Inv, S.Step, S.Enabled, Affordable, EffectOf;
    var ls := LabelsOf(w.s, m);
    if ls != [] {
      C.StepKeeps(w.y, ls[0]);
    }
    if m.Event? {
      S.StepKeeps(w.s, m.e);
      AloneKept(w, m, w');
    } else {
      ContextsThere(w.y, ls[0]);
    }
  }

  /** All but the running context stay suspended. */
  lemma AloneKept(w: World, m: Move, w': World)
    requires Joint(w) && m.Event? && S.Enabled(w.s, m.e) && w'.s == S.Step(w.s, m.e)
    requires var ls := LabelsOf(w.s, m);
             if ls == [] then w'.y == w.y else C.Enabled(w.y, ls[0]) && w'.y == C.Next(w.y, ls[0])
    ensures w'.y.running == Runner(w'.s.control)
    ensures w'.y.ctxs.Keys == w'.s.coros.Keys + {MAIN, SCHED}
    ensures w'.y.frozen.Keys == w'.y.ctxs.Keys - {w'.y.running}
  {
    hide C.Inv, C.Enabled, C.Next, S.Inv, S.Step, S.Enabled, EffectOf, Runner;
    EffectHolds(w.s, m.e);
    var ls := LabelsOf(w.s, m);
    if ls != [] {
      ContextsThere(w.y, ls[0]);
    }
  }

  ghost function After(w: World, m: Move): (r: World)
    requires Joint(w) && Possible(w, m)
    ensures Joint(r)
  {
    NeededIsThere(w, m);
    var ls := LabelsOf(w.s, m);
    var r := World(if m.Event? then S.Step(w.s, m.e) else w.s, if ls == [] then w.y else C.Next(w.y, ls[0]));
    JointKept(w, m, r);
    r
  }

  // ----------------------------------------------------------------- whole runs

  ghost predicate Goes(w: World, ms: seq<Move>)
    requires Joint(w)
    decreases |ms|
  {
    ms != [] ==> Possible(w, ms[0]) && Goes(After(w, ms[0]), ms[1..])
  }

  ghost function Finally(w: World, ms: seq<Move>): (r: World)
    requires Joint(w) && Goes(w, ms)
    ensures Joint(r)
    decreases |ms|
  {
    if ms == [] then w else Finally(After(w, ms[0]), ms[1..])
  }

  function Events(ms: seq<Move>): seq<S.Event> {
    if ms == [] then [] else (if ms[0].Event? then [ms[0].e] else []) + Events(ms[1..])
  }

  ghost function Labels(w: World, ms: seq<Move>): seq<C.Label>
    requires Joint(w) && Goes(w, ms)
    decreases |ms|
  {
    if ms == [] then [] else LabelsOf(w.s, ms[0]) + Labels(After(w, ms[0]), ms[1..])
  }

  lemma {:induction false} SchedulerRun(w: World, ms: seq<Move>)
    requires Joint(w) && Goes(w, ms)
    ensures S.Runs(w.s, Events(ms)) && S.Exec(w.s, Events(ms)) == Finally(w, ms).s
    decreases |ms|
  {
    hide Joint, Possible, LabelsOf, S.Step, S.Enabled, After;
    if ms != [] {
      var w1, rest := After(w, ms[0]), ms[1..];
      SchedulerRun(w1, rest);
      OneMove(w, ms[0]);
      if ms[0].Event? {
        assert ([ms[0].e] + Events(rest))[1..] == Events(rest);
      } else {
        assert [] + Events(rest) == Events(rest);
      }
    }
  }

  lemma {:induction false} ProcessorRun(w: World, ms: seq<Move>)
    requires Joint(w) && Goes(w, ms)
    ensures C.Runs(w.y, Labels(w, ms)) && C.Exec(w.y, Labels(w, ms)) == Finally(w, ms).y
    decreases |ms|
  {
    hide Joint, Possible, LabelsOf, C.Next, C.Enabled, After;
    if ms != [] {
      OneMove(w, ms[0]);
      var w1, rest, ls := After(w, ms[0]), ms[1..], LabelsOf(w.s, ms[0]);
      ProcessorRun(w1, rest);
      if ls == [] {
        assert ls + Labels(w1, rest) == Labels(w1, rest);
      } else {
        assert (ls + Labels(w1, rest))[1..] == Labels(w1, rest);
      }
    }
  }

  /** A run of the whole system is a run of the scheduler, and at the same time a
      run of the processor in which no transfer ever goes to a context that is
      running, freed or not suspended, and none of those is ever freed. */
  lemma RunsTogether(w: World, ms: seq<Move>)
    requires Joint(w) && Goes(w, ms)
    ensures S.Runs(w.s, Events(ms)) && S.Exec(w.s, Events(ms)) == Finally(w, ms).s
    ensures C.Runs(w.y, Labels(w, ms)) && C.Exec(w.y, Labels(w, ms)) == Finally(w, ms).y
    ensures Joint(Finally(w, ms))
  {
    SchedulerRun(w, ms);
    ProcessorRun(w, ms);
  }

  lemma OneMove(w: World, m: Move)
    requires Joint(w) && Possible(w, m)
    ensures var w', ls := After(w, m), LabelsOf(w.s, m);
            && (if m.Event? then S.Enabled(w.s, m.e) && w'.s == S.Step(w.s, m.e) else w'.s == w.s)
            && |ls| <= 1
            && (if ls == [] then w'.y == w.y else C.Enabled(w.y, ls[0]) && w'.y == C.Next(w.y, ls[0]))
  {
    hide Joint, C.Enabled, C.Next, S.Step, S.Enabled, Affordable, EffectOf;
    NeededIsThere(w, m);
    var ls := LabelsOf(w.s, m);
    assert ls != [] ==> ls[0] in ls;
  }

  // ------------------------------------------------------------- coming back

  /** The event gives control to `i`. */
  predicate Resumes(s: S.State, m: Move, i: int)
    requires m.Event? ==> S.Enabled(s, m.e)
  {
    m.Event? && EffectOf(s, m.e) == To(i)
  }

  /** Main, `sched_run`, or a coroutine in the queue. */
  predicate Waits(s: S.State, i: int) {
    i == MAIN || i == SCHED || i in s.queue
  }

  /** Whoever gives up control but by an exit waits from then on, and so does a
      coroutine just spawned. */
  lemma WaitsAfter(s: S.State, e: S.Event)
    requires S.Inv(s) && S.Enabled(s, e)
    ensures EffectOf(s, e).To? && !e.Leave? ==> Waits(S.Step(s, e), Runner(s.control))
    ensures e.Spawn? ==> Waits(S.Step(s, e), e.a)
  {
    hide S.Accounts, S.Fifo;
    if e.RunOnce? {
      S.RunDirectNeverSkips(s);
      hide S.RunDirect;
    }
  }

  /** Whoever waits goes on waiting until control is given to it, and is not freed
      before. */
  lemma WaitsOn(s: S.State, e: S.Event, i: int)
    requires S.Inv(s) && S.Enabled(s, e) && Waits(s, i) && EffectOf(s, e) != To(i)
    ensures Waits(S.Step(s, e), i) && EffectOf(s, e) != Gone(i)
  {
    hide S.Accounts, S.Fifo;
    if e.RunOnce? {
      S.RunDirectNeverSkips(s);
      hide S.RunDirect;
    }
  }

  /** Nothing in the run gives control to `i`. */
  ghost predicate Elsewhere(w: World, ms: seq<Move>, i: int)
    requires Joint(w) && Goes(w, ms)
    decreases |ms|
  {
    ms != [] ==> !Resumes(w.s, ms[0], i) && Elsewhere(After(w, ms[0]), ms[1..], i)
  }

  /** The context of one that waits stays as it is. */
  lemma ContextKept(w: World, m: Move, i: int)
    requires Joint(w) && Possible(w, m) && Waits(w.s, i) && i in w.y.frozen && !Resumes(w.s, m, i)
    ensures var w' := After(w, m);
            && Waits(w'.s, i) && i in w'.y.frozen && w'.y.frozen[i] == w.y.frozen[i]
            && i in w.y.ctxs && i in w'.y.ctxs && w'.y.ctxs[i] == w.y.ctxs[i]
  {
    hide C.Inv, C.Next, C.Enabled, S.Inv, S.Step, S.Enabled, Affordable, EffectOf;
    NeededIsThere(w, m);
    if m.Event? {
      WaitsOn(w.s, m.e, i);
    }
    var ls := LabelsOf(w.s, m);
    if ls != [] {
      assert ls[0] in ls;
      C.StepKeeps(w.y, ls[0]);
    }
  }

  lemma {:induction false} ContextKeptOver(w: World, ms: seq<Move>, i: int)
    requires Joint(w) && Goes(w, ms) && Elsewhere(w, ms, i) && Waits(w.s, i) && i in w.y.frozen
    ensures var w' := Finally(w, ms);
            && i in w'.y.frozen && w'.y.frozen[i] == w.y.frozen[i]
            && i in w.y.ctxs && i in w'.y.ctxs && w'.y.ctxs[i] == w.y.ctxs[i]
    decreases |ms|
  {
    hide After, Possible, Resumes, Waits, C.Inv, S.Inv;
    if ms != [] {
      ContextKept(w, ms[0], i);
      ContextKeptOver(After(w, ms[0]), ms[1..], i);
    }
  }

  /** Giving control to `i` lets it go on from what it was. */
  lemma Resumed(w: World, m: Move, i: int)
    requires Joint(w) && Possible(w, m) && Resumes(w.s, m, i)
    ensures i in w.y.frozen && i in w.y.ctxs
    ensures var f, y' := w.y.frozen[i], After(w, m).y;
            && y'.running == i && y'.ctxs == w.y.ctxs
            && y'.cpu.regs == f.regs && y'.cpu.rsp == f.rsp && y'.cpu.pc == f.ret
            && forall a :: C.Owns(w.y.ctxs[i], a) ==> y'.cpu.mem(a) == f.mem(a)
  {
    hide C.Inv, C.Next, C.Enabled, S.Inv, S.Step, S.Enabled, Affordable, EffectOf;
    NeededIsThere(w, m);
    assert C.Switch(i, m.ret) in LabelsOf(w.s, m);
    C.SwitchKeeps(w.y, i, m.ret);
    ContextsThere(w.y, C.Switch(i, m.ret));
  }

  /** Whoever gives up control other than by an exit, be it main, `sched_run` or a
      coroutine, in a yield or in a direct switch: when the scheduler next gives
      it control, it goes on at its own return address, with its own stack
      pointer, its own six registers and its own stack, whatever was spawned,
      switched, freed and computed meanwhile. */
  lemma GoesOnAsLeft(w: World, m: Move, ms: seq<Move>, m2: Move)
    requires Joint(w) && Possible(w, m) && m.Event? && EffectOf(w.s, m.e).To? && !m.e.Leave?
    requires Goes(After(w, m), ms)
    requires var i, w1 := Runner(w.s.control), After(w, m);
             && Elsewhere(w1, ms, i)
             && Possible(Finally(w1, ms), m2) && Resumes(Finally(w1, ms).s, m2, i)
    ensures var i, y, y2 := Runner(w.s.control), w.y, After(Finally(After(w, m), ms), m2).y;
            && i in y.ctxs && y2.running == i
            && y2.cpu.pc == m.ret && y2.cpu.rsp == y.cpu.rsp && y2.cpu.regs == y.cpu.regs
            && (forall a :: C.Owns(y.ctxs[i], a) && a != y.ctxs[i].slot ==>
                  y.cpu.rsp - 1 - C.NUM_SAVED <= a < y.cpu.rsp || y2.cpu.mem(a) == y.cpu.mem(a))
  {
    hide C.Inv, S.Inv, S.Step, S.Enabled, Goes, Elsewhere, Finally;
    var i, w1 := Runner(w.s.control), After(w, m);
    LeftBehind(w, m);
    ContextKeptOver(w1, ms, i);
    Resumed(Finally(w1, ms), m2, i);
  }

  lemma LeftBehind(w: World, m: Move)
    requires Joint(w) && Possible(w, m) && m.Event? && EffectOf(w.s, m.e).To? && !m.e.Leave?
    ensures var i, y, w1 := Runner(w.s.control), w.y, After(w, m);
            && i in y.ctxs && Waits(w1.s, i) && i in w1.y.frozen && i in w1.y.ctxs && w1.y.ctxs[i] == y.ctxs[i]
            && var f := w1.y.frozen[i];
               && f.ret == m.ret && f.rsp == y.cpu.rsp && f.regs == y.cpu.regs
               && forall a :: a != y.ctxs[i].slot && !(y.cpu.rsp - 1 - C.NUM_SAVED <= a < y.cpu.rsp) ==>
                    f.mem(a) == y.cpu.mem(a)
  {
    hide C.Inv, S.Inv, S.Step, S.Enabled, C.Transfer, C.FrameAt, C.Layout;
    WaitsAfter(w.s, m.e);
    NeededIsThere(w, m);
    var i, to := Runner(w.s.control), EffectOf(w.s, m.e).id;
    assert C.Switch(to, m.ret) in LabelsOf(w.s, m);
    ContextsThere(w.y, C.Switch(to, m.ret));
    C.TransferSaves(w.y.cpu, m.ret, w.y.ctxs[i].slot, w.y.ctxs[to].slot);
  }

  /** This does come about: a lone coroutine that yields, its stack having room
      for the switch, is dispatched again after one round of `sched_run`. */
  lemma YieldComesBack(w: World, m: Move, reap: Move, again: Move)
    requires Joint(w) && Possible(w, m) && m.Event? && m.e.Yield? && w.s.queue == [] && !w.s.stop
    requires reap.Event? && reap.e.Reap? && again.Event? && again.e.Dispatch?
    ensures var i, w1 := Runner(w.s.control), After(w, m);
            && Goes(w1, [reap]) && Elsewhere(w1, [reap], i)
            && Possible(Finally(w1, [reap]), again) && Resumes(Finally(w1, [reap]).s, again, i)
  {
    hide C.Inv, C.Next, C.Enabled, S.Inv, S.Step, S.Enabled, EffectOf;
    var w1 := After(w, m);
    YieldRound(w.s);
    Resumed(w, m, SCHED);
    RoomLeft(w, SCHED);
    var w2 := After(w1, reap);
    assert w2.s == S.Step(w1.s, S.Reap) && w2.y == w1.y;
    assert Goes(w2, []) && [reap][1..] == [];
  }

  lemma YieldRound(s: S.State)
    requires S.Inv(s) && S.Enabled(s, S.Yield) && s.queue == [] && !s.stop
    ensures EffectOf(s, S.Yield) == To(SCHED)
    ensures var s1 := S.Step(s, S.Yield);
            && S.Enabled(s1, S.Reap) && EffectOf(s1, S.Reap) == Nothing
            && var s2 := S.Step(s1, S.Reap);
               S.Enabled(s2, S.Dispatch) && EffectOf(s2, S.Dispatch) == To(Runner(s.control))
  {
    hide S.Accounts, S.Fifo;
  }

  lemma RoomLeft(w: World, i: int)
    requires Joint(w) && i in w.y.frozen
    ensures i in w.y.ctxs && C.Room(w.y.ctxs[i], w.y.frozen[i].rsp)
  {
    hide C.Layout, C.FrameAt, S.Inv;
  }

  /** A coroutine that is spawned: its spawner goes on at once; when the scheduler
      first gives it control, it calls its own function with its own argument,
      however many are spawned before. */
  lemma StartsItsBody(w: World, m: Move, ms: seq<Move>, m2: Move)
    requires Joint(w) && Possible(w, m) && m.Event? && m.e.Spawn?
    requires Goes(After(w, m), ms)
    requires var w1 := After(w, m);
             && Elsewhere(w1, ms, m.e.a)
             && Possible(Finally(w1, ms), m2) && Resumes(Finally(w1, ms).s, m2, m.e.a)
    ensures var y, y1 := w.y.cpu, After(w, m).y.cpu;
            y1.pc == C.CREATE_RETURN && y1.rsp == y.rsp && y1.regs == y.regs
    ensures var y2 := After(Finally(After(w, m), ms), m2).y;
            && y2.running == m.e.a && y2.cpu.pc == C.INIT_RESUME
            && C.InitCall(y2.cpu).pc == m.func && C.InitCall(y2.cpu).rdi == m.arg
  {
    hide C.Inv, S.Inv, S.Step, S.Enabled, Goes, Elsewhere, Finally;
    var w1 := After(w, m);
    Built(w, m);
    ContextKeptOver(w1, ms, m.e.a);
    Resumed(Finally(w1, ms), m2, m.e.a);
    assert C.Owns(m.x, m.x.hi - 2) && C.Owns(m.x, m.x.hi - 3);
  }

  lemma Built(w: World, m: Move)
    requires Joint(w) && Possible(w, m) && m.Event? && m.e.Spawn?
    ensures var i, y, w1 := m.e.a, w.y.cpu, After(w, m);
            && w1.y.cpu.pc == C.CREATE_RETURN && w1.y.cpu.rsp == y.rsp && w1.y.cpu.regs == y.regs
            && Waits(w1.s, i) && i in w1.y.frozen
            && i in w1.y.ctxs && w1.y.ctxs[i] == m.x && m.x.lo + C.INIT_WORDS <= m.x.hi
            && var f := w1.y.frozen[i];
               && f.ret == C.INIT_RESUME && f.rsp == m.x.hi - 3
               && f.mem(m.x.hi - 2) == m.func && f.mem(m.x.hi - 3) == m.arg
  {
    hide C.Inv, S.Inv, S.Step, S.Enabled, C.InitOut, C.CreateOut, C.Layout;
    WaitsAfter(w.s, m.e);
    NeededIsThere(w, m);
    assert C.Create(m.e.a, m.x, m.func, m.arg, m.nctx) in LabelsOf(w.s, m);
    C.CreateKeeps(w.y, m.e.a, m.x, m.func, m.arg, m.nctx);
  }

  /** Whose stack is in use, at both levels: the coroutine's that runs, that of
      `sched_run` in its loop, and main's before and after. */
  lemma WhoRuns(w: World)
    requires Joint(w)
    ensures w.s.control.Running? ==> w.y.running == w.s.current && w.s.current in w.s.coros
    ensures w.s.control.AtLoop? || w.s.control.Back? ==> w.y.running == SCHED
    ensures w.s.control.InMain? || w.s.control.Done? ==> w.y.running == MAIN
    ensures w.y.running !in w.y.frozen && w.y.ctxs.Keys == w.s.coros.Keys + {MAIN, SCHED}
  {
  }

  /** Once `sched_run` is over, it stays so. */
  lemma {:induction false} DoneStays(w: World, ms: seq<Move>)
    requires Joint(w) && Goes(w, ms) && w.s.control.Done?
    ensures Finally(w, ms).s.control.Done?
    decreases |ms|
  {
    hide Joint;
    if ms != [] {
      DoneStays(After(w, ms[0]), ms[1..]);
    }
  }

  /** Until `sched_run` is over, main is not given control. */
  lemma {:induction false} MainLeftAlone(w: World, ms: seq<Move>)
    requires Joint(w) && Goes(w, ms) && !w.s.control.InMain? && !Finally(w, ms).s.control.Done?
    ensures Elsewhere(w, ms, MAIN)
    decreases |ms|
  {
    hide Joint, Affordable;
    if ms != [] {
      OneMove(w, ms[0]);
      var w1, rest := After(w, ms[0]), ms[1..];
      if ms[0].Event? {
        NotToMain(w, ms[0].e);
      }
      if w1.s.control.Done? {
        DoneStays(w1, rest);
      }
      MainLeftAlone(w1, rest);
    }
  }

  lemma NotToMain(w: World, e: S.Event)
    requires Joint(w) && S.Enabled(w.s, e) && !w.s.control.InMain?
    ensures !S.Step(w.s, e).control.InMain?
    ensures EffectOf(w.s, e) == To(MAIN) ==> S.Step(w.s, e).control.Done?
  {
    hide C.Inv, S.Accounts, S.Fifo;
    if e.RunOnce? {
      S.RunDirectNeverSkips(w.s);
      hide S.RunDirect;
    }
  }

  /** The end of `sched_run`: whatever happens after `env_run` has transferred to
      it, main then goes on at its own return address, with its own stack pointer,
      its own six registers and its own stack. */
  lemma MainGoesOn(w: World, m: Move, ms: seq<Move>, m2: Move)
    requires Joint(w) && Possible(w, m) && m.Event? && m.e.Start?
    requires Goes(After(w, m), ms)
    requires var w2 := Finally(After(w, m), ms); Possible(w2, m2) && m2.Event? && m2.e.Finish?
    ensures var y, y2 := w.y, After(Finally(After(w, m), ms), m2).y;
            && MAIN in y.ctxs && y.running == MAIN && y2.running == MAIN
            && y2.cpu.pc == m.ret && y2.cpu.rsp == y.cpu.rsp && y2.cpu.regs == y.cpu.regs
            && (forall a :: C.Owns(y.ctxs[MAIN], a) && a != y.ctxs[MAIN].slot ==>
                  y.cpu.rsp - 1 - C.NUM_SAVED <= a < y.cpu.rsp || y2.cpu.mem(a) == y.cpu.mem(a))
  {
    hide Joint, Possible, After, Goes, Elsewhere, Finally, Affordable, EffectOf, Resumes, S.Step, S.Enabled;
    var w1 := After(w, m);
    MainRuns(w, m);
    FinishResumes(Finally(w1, ms), m2);
    MainLeftAlone(w1, ms);
    GoesOnAsLeft(w, m, ms, m2);
  }

  lemma FinishResumes(w: World, m: Move)
    requires Joint(w) && Possible(w, m) && m.Event? && m.e.Finish?
    ensures w.s.control.AtLoop? && Resumes(w.s, m, MAIN)
  {
  }

  lemma MainRuns(w: World, m: Move)
    requires Joint(w) && Possible(w, m) && m.Event? && m.e.Start?
    ensures MAIN in w.y.ctxs && w.y.running == MAIN && Runner(w.s.control) == MAIN
    ensures EffectOf(w.s, m.e) == To(SCHED) && After(w, m).s.control.AtLoop?
  {
    OneMove(w, m);
  }

  /** This does come about: with no coroutine spawned, or after a stop, main has
      control again after one test of the loop. */
  lemma IdleRunEnds(w: World, m: Move, end: Move)
    requires Joint(w) && Possible(w, m) && m.Event? && m.e.Start? && (w.s.queue == [] || w.s.stop)
    requires end.Event? && end.e.Finish?
    ensures Goes(After(w, m), []) && Possible(Finally(After(w, m), []), end)
    ensures After(Finally(After(w, m), []), end).y.running == MAIN
  {
    hide C.Inv, S.Inv, C.Next;
    OneMove(w, m);
    Resumed(w, m, SCHED);
    RoomLeft(w, SCHED);
    MainGoesOn(w, m, [], end);
  }

  /** After `env_init`: main has created the context of `sched_run`, and there are
      no coroutines. */
  lemma Started(c: C.Cpu, main: C.Context, sched: C.Context, func: int, arg: int, nctx: int)
    requires forall a :: C.Owns(main, a) ==> !C.Static(a)
    requires C.Enabled(C.System(c, MAIN, map[MAIN := main], map[]), C.Create(SCHED, sched, func, arg, nctx))
    ensures var y := C.System(c, MAIN, map[MAIN := main], map[]);
            Joint(World(S.INIT, C.Next(y, C.Create(SCHED, sched, func, arg, nctx))))
  {
    hide C.Next, C.Enabled, C.Inv;
    var y, l := C.System(c, MAIN, map[MAIN := main], map[]), C.Create(SCHED, sched, func, arg, nctx);
    C.StartInv(c, MAIN, main);
    S.InitInv();
    C.StepKeeps(y, l);
    ContextsThere(y, l);
  }
}
