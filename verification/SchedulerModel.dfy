/** The master scheduler of src/cs_scheduler.c and src/cs_coroutine.c as a state
    machine. A context switch is a change of `control`. Coroutines are known by
    address, and addresses are reused after a free; the number given to each
    spawn tells them apart in the histories. */
module SchedulerModel {
  import opened Basics

  datatype Status = Free | Ready | Run | Exit

  datatype Coro = Coro(uid: nat, status: Status)

  /** Who executes: main before `env_run`, `sched_run` at the top of its loop, a
      coroutine, `sched_run` just after its `coro_switch`, or main again. */
  datatype Control = InMain | AtLoop | Running(co: Addr) | Back | Done

  /** `held` is the local variable `c` of `sched_run`. The last four fields are
      history: spawns so far, and the numbers of the coroutines queued,
      dispatched and freed, in order. */
  datatype State = State(
    coros: map<Addr, Coro>,
    registry: set<Addr>,
    queue: seq<Addr>,
    current: Addr,
    held: Addr,
    stop: bool,
    control: Control,
    spawned: nat,
    enqueued: seq<nat>,
    dispatched: seq<nat>,
    freed: seq<nat>)

  /** After `env_init`. */
  const INIT := State(map[], {}, [], NULL, NULL, false, InMain, 0, [], [], [])

  datatype Event =
    | Spawn(a: Addr)  // coro_spawn, the allocator having returned a
    | Refuse          // coro_spawn, the allocator having returned NULL
    | Start           // env_run
    | Dispatch        // sched_run, lines 78-91
    | Yield           // coro_yield by the running coroutine
    | Leave           // coro_exit by the running coroutine
    | RunOnce         // sched_run_once by the running coroutine
    | Stop            // env_stop
    | Reap            // sched_run, lines 93-97
    | Finish          // sched_run, lines 80-82 and 99-100

  function SetStatus(s: State, c: Addr, st: Status): State
    requires c in s.coros
  {
    s.(coros := s.coros[c := s.coros[c].(status := st)])
  }

  /** `coro_spawn` before its call of `coro_ready`: a new coroutine, registered
      but not queued. */
  function Spawning(s: State, a: Addr): State {
    s.(coros := s.coros[a := Coro(s.spawned, Free)], registry := s.registry + {a}, spawned := s.spawned + 1)
  }

  /** `coro_ready` */
  function MakeReady(s: State, c: Addr): State
    requires c in s.coros
  {
    SetStatus(s, c, Ready).(queue := s.queue + [c], enqueued := s.enqueued + [s.coros[c].uid])
  }

  /** `pop` on a queue that is not empty, counted as a dispatch. */
  function TakeFirst(s: State): State
    requires s.queue != [] && s.queue[0] in s.coros
  {
    s.(queue := s.queue[1..], dispatched := s.dispatched + [s.coros[s.queue[0]].uid])
  }

  /** `sched_run_once`: exited coroutines are skipped, the first other one is
      switched to directly, and the caller goes to the tail of the queue. */
  function RunDirect(s: State): State
    requires s.current in s.coros && forall c :: c in s.queue ==> c in s.coros
    decreases |s.queue|
  {
    if s.stop || s.queue == [] then s
    else
      var c := s.queue[0];
      if s.coros[c].status == Exit then RunDirect(s.(queue := s.queue[1..]))
      else MakeReady(TakeFirst(s), s.current).(current := c, control := Running(c))
  }

  /** Main or a coroutine executes. */
  predicate MaySpawn(s: State) {
    s.control.InMain? || s.control.Running? || s.control.Done?
  }

  predicate Enabled(s: State, e: Event) {
    match e
    case Spawn(a) => MaySpawn(s) && a != NULL && a !in s.coros
    case Refuse => MaySpawn(s)
    case Start => s.control.InMain?
    case Dispatch => s.control.AtLoop? && !s.stop && s.queue != [] && s.queue[0] in s.coros
    case Yield => s.control.Running? && s.control.co in s.coros
    case Leave => s.control.Running? && s.control.co in s.coros
    case RunOnce => s.control.Running? && s.current in s.coros && forall c :: c in s.queue ==> c in s.coros
    case Stop => true
    case Reap => s.control.Back? && s.held in s.coros
    case Finish => s.control.AtLoop? && (s.stop || s.queue == [])
  }

  function Step(s: State, e: Event): State
    requires Enabled(s, e)
  {
    match e
    case Spawn(a) => MakeReady(Spawning(s, a), a)
    case Refuse => s
    case Start => s.(control := AtLoop)
    case Dispatch =>
      var c := s.queue[0];
      SetStatus(TakeFirst(s), c, Run).(current := c, held := c, control := Running(c))
    case Yield => MakeReady(s, s.control.co).(control := Back)
    case Leave => SetStatus(s, s.control.co, Exit).(control := Back)
    case RunOnce => RunDirect(s)
    case Stop => s.(stop := true)
    case Reap =>
      var s1 := s.(current := NULL, control := AtLoop);
      if s.coros[s.held].status == Exit
      then s1.(registry := s.registry - {s.held}, coros := s.coros - {s.held}, freed := s.freed + [s.coros[s.held].uid])
      else s1
    case Finish => s.(control := Done)
  }

  // ------------------------------------------------------------------ invariant

  /** The numbers of the coroutines in `q`. */
  function Uids(m: map<Addr, Coro>, q: seq<Addr>): (r: seq<nat>)
    requires forall c :: c in q ==> c in m
    ensures |r| == |q| && forall i :: 0 <= i < |q| ==> r[i] == m[q[i]].uid
  {
    if q == [] then [] else [m[q[0]].uid] + Uids(m, q[1..])
  }

  /** The coroutine that has control, or has just given it up, if any. */
  predicate Active(s: State, c: Addr) {
    (s.control.Running? || s.control.Back?) && c == s.current
  }

  predicate Shape(s: State) {
    && NULL !in s.coros
    && s.registry == s.coros.Keys
    && NoRepeats(s.queue)
    && (forall c :: c in s.queue ==> c in s.coros && s.coros[c].status == Ready)
    && (forall c :: c in s.coros && c !in s.queue && !Active(s, c) ==> s.coros[c].status == Exit)
  }

  predicate Turn(s: State) {
    && (s.control.InMain? || s.control.AtLoop? || s.control.Done? ==> s.current == NULL)
    && (s.control.Running? ==>
          && s.control.co == s.current && s.current in s.coros && s.current !in s.queue
          && s.coros[s.current].status in {Run, Ready}
          && s.dispatched != [] && s.dispatched[|s.dispatched| - 1] == s.coros[s.current].uid)
    && (s.control.Back? ==>
          && s.current in s.coros
          && (s.current in s.queue || s.coros[s.current].status == Exit))
    && (s.control.Running? || s.control.Back? ==> s.held in s.coros && (s.held == s.current || s.held in s.queue))
  }

  /** Numbers identify coroutines; each spawned one is either still there or
      freed, once. */
  predicate Accounts(s: State) {
    && (forall c :: c in s.coros ==> s.coros[c].uid < s.spawned && s.coros[c].uid !in s.freed)
    && (forall c, d :: c in s.coros && d in s.coros && s.coros[c].uid == s.coros[d].uid ==> c == d)
    && NoRepeats(s.freed)
    && (forall u :: u in s.freed ==> u < s.spawned)
    && (forall u: nat :: u < s.spawned && u !in s.freed ==> IsThere(s.coros, u))
  }

  predicate IsThere(m: map<Addr, Coro>, u: nat) {
    exists c :: c in m && m[c].uid == u
  }

  /** First in, first out: what was queued is what was dispatched, followed by
      what waits. */
  predicate Fifo(s: State)
    requires forall c :: c in s.queue ==> c in s.coros
  {
    && s.enqueued == s.dispatched + Uids(s.coros, s.queue)
    && forall i :: 0 <= i < |s.enqueued| ==> s.enqueued[i] < s.spawned
  }

  predicate Inv(s: State) {
    Shape(s) && Turn(s) && Accounts(s) && Fifo(s)
  }

  lemma InitInv()
    ensures Inv(INIT)
  {
  }

  /** The direct switch of `sched_run_once`, in a state where no exited
      coroutine is queued: the first of the queue takes over and the caller goes
      to the tail. */
  function SwitchDirect(s: State): State
    requires s.queue != [] && s.queue[0] in s.coros && s.current in s.coros
  {
    MakeReady(TakeFirst(s), s.current).(current := s.queue[0], control := Running(s.queue[0]))
  }

  /** `sched_run_once` never meets an exited coroutine in the queue. */
  lemma RunDirectNeverSkips(s: State)
    requires Shape(s) && s.current in s.coros
    ensures RunDirect(s) == if s.stop || s.queue == [] then s else SwitchDirect(s)
  {
  }

  /** What it does, then: unless stopped or alone, the first of the queue runs at
      once, the caller is READY and last in the queue, and nobody else changes. */
  lemma RunOnceSwitches(s: State)
    requires Inv(s) && Enabled(s, RunOnce)
    ensures s.stop || s.queue == [] ==> Step(s, RunOnce) == s
    ensures !s.stop && s.queue != [] ==>
              var s', me, c := Step(s, RunOnce), s.current, s.queue[0];
              && s'.control == Running(c) && s'.current == c && c != me
              && s'.queue == s.queue[1..] + [me]
              && s'.coros == s.coros[me := Coro(s.coros[me].uid, Ready)]
              && s'.registry == s.registry && s'.held == s.held && s'.freed == s.freed && !s'.stop
  {
    RunDirectNeverSkips(s);
    hide RunDirect;
  }

  lemma UidsSame(m: map<Addr, Coro>, m': map<Addr, Coro>, q: seq<Addr>)
    requires forall c :: c in q ==> c in m && c in m' && m'[c].uid == m[c].uid
    ensures Uids(m', q) == Uids(m, q)
  {
    assert forall i :: 0 <= i < |q| ==> q[i] in q;
  }

  lemma UidsAppend(m: map<Addr, Coro>, q: seq<Addr>, c: Addr)
    requires c in m && forall d :: d in q ==> d in m
    ensures Uids(m, q + [c]) == Uids(m, q) + [m[c].uid]
  {
  }

  // ------------------------------------------------- what each step preserves

  /** Queueing keeps the histories in step. */
  lemma ReadyFifo(s: State, c: Addr)
    requires c in s.coros && (forall d :: d in s.queue ==> d in s.coros) && Fifo(s) && s.coros[c].uid < s.spawned
    ensures Fifo(MakeReady(s, c))
  {
    var s' := MakeReady(s, c);
    UidsSame(s.coros, s'.coros, s.queue);
    UidsAppend(s'.coros, s.queue, c);
  }

  lemma TakeFifo(s: State)
    requires s.queue != [] && (forall d :: d in s.queue ==> d in s.coros) && Fifo(s)
    ensures (forall d :: d in TakeFirst(s).queue ==> d in s.coros) && Fifo(TakeFirst(s))
  {
    var u := s.coros[s.queue[0]].uid;
    assert s.dispatched + ([u] + Uids(s.coros, s.queue[1..])) == (s.dispatched + [u]) + Uids(s.coros, s.queue[1..]);
  }

  lemma StepFifo(s: State, e: Event)
    requires Inv(s) && Enabled(s, e)
    ensures (forall d :: d in Step(s, e).queue ==> d in Step(s, e).coros) && Fifo(Step(s, e))
  {
    match e
    case Spawn(a) => SpawnFifo(s, a);
    case Dispatch => DispatchFifo(s);
    case Yield => ReadyFifo(s, s.control.co);
    case Leave => UidsSame(s.coros, Step(s, e).coros, s.queue);
    case RunOnce => RunOnceFifo(s);
    case Reap => UidsSame(s.coros, Step(s, e).coros, s.queue);
    case Refuse =>
    case Start =>
    case Stop =>
    case Finish =>
  }

  lemma SpawnFifo(s: State, a: Addr)
    requires Inv(s) && Enabled(s, Spawn(a))
    ensures (forall d :: d in Step(s, Spawn(a)).queue ==> d in Step(s, Spawn(a)).coros) && Fifo(Step(s, Spawn(a)))
  {
    var s1 := Spawning(s, a);
    UidsSame(s.coros, s1.coros, s.queue);
    ReadyFifo(s1, a);
  }

  lemma RunOnceFifo(s: State)
    requires Inv(s) && Enabled(s, RunOnce)
    ensures (forall d :: d in Step(s, RunOnce).queue ==> d in Step(s, RunOnce).coros) && Fifo(Step(s, RunOnce))
  {
    RunDirectNeverSkips(s);
    hide RunDirect;
    if !s.stop && s.queue != [] {
      TakeFifo(s);
      ReadyFifo(TakeFirst(s), s.current);
    }
  }

  lemma DispatchFifo(s: State)
    requires Inv(s) && Enabled(s, Dispatch)
    ensures (forall d :: d in Step(s, Dispatch).queue ==> d in Step(s, Dispatch).coros) && Fifo(Step(s, Dispatch))
  {
    TakeFifo(s);
    UidsSame(s.coros, Step(s, Dispatch).coros, s.queue[1..]);
  }

  lemma StepShape(s: State, e: Event)
    requires Shape(s) && Turn(s) && Enabled(s, e)
    ensures Shape(Step(s, e))
  {
    match e
    case Spawn(a) => AppendNoRepeats(s.queue, a);
    case Yield => AppendNoRepeats(s.queue, s.current);
    case RunOnce =>
      RunDirectNeverSkips(s);
      if !s.stop && s.queue != [] {
        AppendNoRepeats(s.queue[1..], s.current);
      }
    case Dispatch =>
    case Leave =>
    case Reap =>
    case Refuse =>
    case Start =>
    case Stop =>
    case Finish =>
  }

  lemma StepTurn(s: State, e: Event)
    requires Shape(s) && Turn(s) && Enabled(s, e)
    ensures Turn(Step(s, e))
  {
    if e.RunOnce? {
      RunDirectNeverSkips(s);
    }
  }

  /** The accounts only look at who is there and under what number. */
  lemma AccountsSame(s: State, s': State)
    requires Accounts(s) && s'.spawned == s.spawned && s'.freed == s.freed
    requires s'.coros.Keys == s.coros.Keys && forall c :: c in s.coros ==> s'.coros[c].uid == s.coros[c].uid
    ensures Accounts(s')
  {
    forall u: nat | u < s'.spawned && u !in s'.freed
      ensures IsThere(s'.coros, u)
    {
      assert IsThere(s.coros, u);
    }
  }

  lemma SpawnAccounts(s: State, s': State, a: Addr)
    requires Accounts(s) && a !in s.coros && a in s'.coros
    requires s'.spawned == s.spawned + 1 && s'.freed == s.freed
    requires s'.coros == s.coros[a := s'.coros[a]] && s'.coros[a].uid == s.spawned
    ensures Accounts(s')
  {
    forall u: nat | u < s'.spawned && u !in s'.freed
      ensures IsThere(s'.coros, u)
    {
      if u == s.spawned {
        assert s'.coros[a].uid == u;
      } else {
        assert IsThere(s.coros, u);
        var c :| c in s.coros && s.coros[c].uid == u;
        assert s'.coros[c].uid == u;
      }
    }
  }

  lemma FreeAccounts(s: State, s': State, a: Addr)
    requires Accounts(s) && a in s.coros
    requires s'.spawned == s.spawned && s'.freed == s.freed + [s.coros[a].uid] && s'.coros == s.coros - {a}
    ensures Accounts(s')
  {
    AppendNoRepeats(s.freed, s.coros[a].uid);
    forall u: nat | u < s'.spawned && u !in s'.freed
      ensures IsThere(s'.coros, u)
    {
      assert IsThere(s.coros, u);
      var c :| c in s.coros && s.coros[c].uid == u;
      assert c != a;
      assert s'.coros[c].uid == u;
    }
  }

  lemma StepAccounts(s: State, e: Event)
    requires Shape(s) && Turn(s) && Accounts(s) && Enabled(s, e)
    ensures Accounts(Step(s, e))
  {
    hide Accounts;
    var s' := Step(s, e);
    if e.RunOnce? {
      RunDirectNeverSkips(s);
    }
    if e.Spawn? {
      SpawnAccounts(s, s', e.a);
    } else if e.Reap? && s.coros[s.held].status == Exit {
      FreeAccounts(s, s', s.held);
    } else {
      AccountsSame(s, s');
    }
  }

  /** Every step of the master scheduler keeps the invariant. */
  lemma StepKeeps(s: State, e: Event)
    requires Inv(s) && Enabled(s, e)
    ensures Inv(Step(s, e))
  {
    hide Step, Enabled;
    StepShape(s, e);
    StepTurn(s, e);
    StepAccounts(s, e);
    StepFifo(s, e);
  }

  // ----------------------------------------------------------------- whole runs

  predicate Runs(s: State, es: seq<Event>)
    decreases |es|
  {
    es != [] ==> Enabled(s, es[0]) && Runs(Step(s, es[0]), es[1..])
  }

  function Exec(s: State, es: seq<Event>): State
    requires Runs(s, es)
    decreases |es|
  {
    if es == [] then s else Exec(Step(s, es[0]), es[1..])
  }

  lemma {:induction false} RunKeeps(s: State, es: seq<Event>)
    requires Inv(s) && Runs(s, es)
    ensures Inv(Exec(s, es))
    decreases |es|
  {
    hide Step, Inv, Enabled;
    if es != [] {
      StepKeeps(s, es[0]);
      RunKeeps(Step(s, es[0]), es[1..]);
    }
  }

  lemma {:induction false} RunsAppend(s: State, es: seq<Event>, e: Event)
    requires Runs(s, es) && Enabled(Exec(s, es), e)
    ensures Runs(s, es + [e]) && Exec(s, es + [e]) == Step(Exec(s, es), e)
    decreases |es|
  {
    hide Step, Enabled;
    if es == [] {
      assert [e][1..] == [];
    } else {
      RunsAppend(Step(s, es[0]), es[1..], e);
      assert (es + [e])[1..] == es[1..] + [e];
    }
  }

  /** A run is a run of its first `n` events, then one of the others. */
  lemma {:induction false} RunsSplit(s: State, es: seq<Event>, n: nat)
    requires Runs(s, es) && n <= |es|
    ensures Runs(s, es[..n]) && Runs(Exec(s, es[..n]), es[n..])
    ensures Exec(s, es) == Exec(Exec(s, es[..n]), es[n..])
    decreases n
  {
    hide Step, Enabled;
    if n == 0 {
      assert es[0..] == es;
    } else {
      RunsSplit(Step(s, es[0]), es[1..], n - 1);
      assert es[..n][1..] == es[1..][..n - 1] && es[n..] == es[1..][n - 1..];
    }
  }

  /** The invariant before the last event of a run, and that event. */
  lemma LastStep(es: seq<Event>)
    requires Runs(INIT, es) && es != []
    ensures var n := |es| - 1;
            && Runs(INIT, es[..n]) && Inv(Exec(INIT, es[..n])) && Enabled(Exec(INIT, es[..n]), es[n])
            && Exec(INIT, es) == Step(Exec(INIT, es[..n]), es[n])
  {
    hide Step, Enabled, Inv;
    var n := |es| - 1;
    RunsSplit(INIT, es, n);
    assert es[n..] == [es[n]];
    InitInv();
    RunKeeps(INIT, es[..n]);
  }

  lemma NotAtStart(es: seq<Event>)
    requires Runs(INIT, es) && Exec(INIT, es) != INIT
    ensures es != []
  {
  }

  /** First in, first out, over every run from the start, direct switches
      included: the history of queueings is the history of dispatches followed by
      who waits now. */
  lemma FirstInFirstOut(es: seq<Event>)
    requires Runs(INIT, es)
    ensures var s := Exec(INIT, es);
            && (forall c :: c in s.queue ==> c in s.coros)
            && s.enqueued == s.dispatched + Uids(s.coros, s.queue)
  {
    InitInv();
    RunKeeps(INIT, es);
  }

  // ------------------------------------------------- who is reclaimed, and when

  /** What an exit leads to: the coroutine is freed exactly when it is the local
      variable of `sched_run`. Whoever is freed is neither queued nor current. */
  lemma ExitReclaimedIffHeld(s: State)
    requires Inv(s) && s.control.Running?
    ensures Enabled(s, Leave) && Enabled(Step(s, Leave), Reap)
    ensures var c, s' := s.control.co, Step(Step(s, Leave), Reap);
            && c == s.current && s'.current == NULL && c !in s'.queue
            && (c !in s'.registry <==> c == s.held)
            && (c in s'.registry ==> s'.freed == s.freed && s'.coros == s.coros[c := s.coros[c].(status := Exit)])
            && (c !in s'.registry ==> s'.freed == s.freed + [s.coros[c].uid] && s'.coros == s.coros - {c})
  {
  }

  /** Freeing happens in one place only, to a coroutine that has exited while
      `sched_run` held it, and that nobody can reach any more. */
  lemma FreedIsNobodys(s: State, e: Event, c: Addr)
    requires Inv(s) && Enabled(s, e) && c in s.coros && c !in Step(s, e).coros
    ensures e.Reap? && c == s.held && c == s.current && s.coros[c].status == Exit && c !in s.queue
    ensures var s' := Step(s, e);
            && s'.registry == s.registry - {c} && s'.queue == s.queue && s'.current == NULL && s'.control.AtLoop?
  {
    hide Accounts, Fifo;
    if e.RunOnce? {
      RunDirectNeverSkips(s);
    }
  }

  /** An exited coroutine that was not reclaimed at once. */
  predicate Leaked(s: State, c: Addr) {
    c in s.coros && s.coros[c].status == Exit && (s.control.Back? ==> s.held != c)
  }

  /** It stays registered for ever, and no later spawn gets its address. */
  lemma {:induction false} LeakedForEver(s: State, es: seq<Event>, c: Addr)
    requires Inv(s) && Runs(s, es) && Leaked(s, c)
    ensures var s' := Exec(s, es);
            Leaked(s', c) && c in s'.registry && s'.coros[c] == s.coros[c]
    decreases |es|
  {
    if es != [] {
      StepKeeps(s, es[0]);
      LeakedStep(s, es[0], c);
      LeakedForEver(Step(s, es[0]), es[1..], c);
    }
  }

  lemma LeakedStep(s: State, e: Event, c: Addr)
    requires Inv(s) && Enabled(s, e) && Leaked(s, c)
    ensures Leaked(Step(s, e), c) && Step(s, e).coros[c] == s.coros[c]
  {
    hide Accounts, Fifo;
    if e.RunOnce? {
      RunDirectNeverSkips(s);
    }
  }

  /** After a stop nobody is given control again, by dispatch or direct switch,
      and nothing undoes a stop. */
  lemma {:induction false} StoppedDispatchesNone(s: State, es: seq<Event>)
    requires Inv(s) && Runs(s, es) && s.stop
    ensures Exec(s, es).stop && Exec(s, es).dispatched == s.dispatched
    decreases |es|
  {
    hide Inv;
    if es != [] {
      StoppedStep(s, es[0]);
      StepKeeps(s, es[0]);
      StoppedDispatchesNone(Step(s, es[0]), es[1..]);
    }
  }

  lemma StoppedStep(s: State, e: Event)
    requires Inv(s) && Enabled(s, e) && s.stop
    ensures Step(s, e).stop && Step(s, e).dispatched == s.dispatched
  {
    if e.RunOnce? {
      RunDirectNeverSkips(s);
    }
  }

  // ----------------------------------------------------- without direct switches

  /** Nobody is exited but the coroutine that just gave up control, which is
      the one `sched_run` holds. */
  predicate Plain(s: State) {
    && (forall c :: c in s.coros ==> c in s.queue || Active(s, c))
    && (s.control.Running? || s.control.Back? ==> s.held == s.current)
    && (s.control.Running? ==> s.current in s.coros && s.coros[s.current].status == Run)
  }

  predicate NoDirect(es: seq<Event>) {
    forall i :: 0 <= i < |es| ==> !es[i].RunOnce?
  }

  lemma PlainStep(s: State, e: Event)
    requires Inv(s) && Plain(s) && Enabled(s, e) && !e.RunOnce?
    ensures Plain(Step(s, e))
  {
    hide Accounts, Fifo;
  }

  lemma {:induction false} PlainRun(s: State, es: seq<Event>)
    requires Inv(s) && Plain(s) && Runs(s, es) && NoDirect(es)
    ensures Inv(Exec(s, es)) && Plain(Exec(s, es))
    decreases |es|
  {
    if es != [] {
      StepKeeps(s, es[0]);
      PlainStep(s, es[0]);
      PlainRun(Step(s, es[0]), es[1..]);
    }
  }

  /** In every run without direct switches, a registered coroutine is either
      queued, once, with status READY, or it is the current one, not queued and
      RUN; unless it has just switched back to `sched_run`, queued again or
      about to be freed. At the top of the loop all are queued. */
  lemma QueuedOnceOrCurrent(es: seq<Event>, c: Addr)
    requires Runs(INIT, es) && NoDirect(es) && c in Exec(INIT, es).registry
    ensures var s := Exec(INIT, es);
            && c in s.coros
            && multiset(s.queue)[c] <= 1
            && (c in s.queue <==> s.coros[c].status == Ready)
            && (s.control.Running? ==>
                  (c == s.current <==> c !in s.queue) && (c == s.current <==> s.coros[c].status == Run))
            && (s.control.Back? ==> c in s.queue || (c == s.current && c == s.held && s.coros[c].status == Exit))
            && (!s.control.Running? && !s.control.Back? ==> c in s.queue)
  {
    InitInv();
    PlainRun(INIT, es);
    NoRepeatsMultiset(Exec(INIT, es).queue, c);
  }

  /** Each number given to a spawn is freed once or still there, never both; no
      other is ever freed or there. */
  ghost predicate AllAccounted(s: State) {
    forall u: nat ::
      multiset(s.freed)[u] + (if IsThere(s.coros, u) then 1 else 0) == if u < s.spawned then 1 else 0
  }

  /** Over any run, direct switches included, every coroutine ever spawned has
      either been freed, once, or is still there. When the queue is empty at the
      top of the loop, those still there have exited. */
  lemma DrainedMeansExited(es: seq<Event>)
    requires Runs(INIT, es)
    ensures var s := Exec(INIT, es);
            && s.registry == s.coros.Keys
            && AllAccounted(s)
            && (s.control.AtLoop? && s.queue == [] ==> forall c :: c in s.coros ==> s.coros[c].status == Exit)
  {
    hide Inv, AllAccounted, Step, Enabled;
    InitInv();
    RunKeeps(INIT, es);
    var s := Exec(INIT, es);
    AllAccountedFor(s);
    ExitedAtTheEnd(s);
  }

  lemma AllAccountedFor(s: State)
    requires Inv(s)
    ensures AllAccounted(s)
  {
    hide Shape, Turn, Fifo;
    forall u: nat
      ensures multiset(s.freed)[u] + (if IsThere(s.coros, u) then 1 else 0) == if u < s.spawned then 1 else 0
    {
      NoRepeatsMultiset(s.freed, u);
    }
  }

  lemma AccountedAlike(s: State, s': State)
    requires AllAccounted(s) && s'.coros == s.coros && s'.freed == s.freed && s'.spawned == s.spawned
    ensures AllAccounted(s')
  {
  }

  lemma ExitedAtTheEnd(s: State)
    requires Inv(s)
    ensures s.registry == s.coros.Keys
    ensures s.control.AtLoop? && s.queue == [] ==> forall c :: c in s.coros ==> s.coros[c].status == Exit
  {
  }

  /** When a run without direct switches drains the queue, every coroutine ever
      spawned has been freed exactly once and none is registered. */
  lemma DrainedMeansReclaimed(es: seq<Event>)
    requires Runs(INIT, es) && NoDirect(es)
    requires var s := Exec(INIT, es); s.control.AtLoop? && s.queue == []
    ensures var s := Exec(INIT, es);
            && s.registry == {} && s.coros == map[]
            && forall u: nat :: multiset(s.freed)[u] == if u < s.spawned then 1 else 0
  {
    InitInv();
    PlainRun(INIT, es);
    var s := Exec(INIT, es);
    assert s.coros.Keys == {};
    forall u: nat
      ensures multiset(s.freed)[u] == if u < s.spawned then 1 else 0
    {
      NoRepeatsMultiset(s.freed, u);
      assert !IsThere(s.coros, u);
    }
  }

  // ------------------------------------- the assertion left out of coro_ready

  /** The assertion at line 39 of src/cs_coroutine.c, which is commented out. */
  predicate FreeOrRun(st: Status) {
    st == Free || st == Run
  }

  /** A call of `coro_ready`: the state it finds and its argument. */
  datatype ReadyCall = NoCall | Call(s: State, c: Addr)

  /** The call that event `e` makes: in `coro_spawn`, in `coro_yield`, or in a
      `sched_run_once` that finds somebody to switch to. */
  function ReadyCallOf(s: State, e: Event): ReadyCall
    requires Enabled(s, e)
  {
    match e
    case Spawn(a) => Call(Spawning(s, a), a)
    case Yield => Call(s, s.control.co)
    case RunOnce =>
      if s.stop || s.queue == [] then NoCall else assert s.queue[0] in s.queue; Call(TakeFirst(s), s.current)
    case _ => NoCall
  }

  /** Nothing else queues a coroutine, and no coroutine that has exited is ever
      queued: the assertion that is in force holds. */
  lemma ReadyCallMade(s: State, e: Event)
    requires Inv(s) && Enabled(s, e)
    ensures match ReadyCallOf(s, e)
            case NoCall => Step(s, e).enqueued == s.enqueued
            case Call(t, c) =>
              && c in t.coros && t.coros[c].status != Exit
              && exists current, control :: Step(s, e) == MakeReady(t, c).(current := current, control := control)
  {
    hide Accounts, Fifo;
    if e.RunOnce? {
      RunDirectNeverSkips(s);
      hide RunDirect;
    }
    match ReadyCallOf(s, e)
    case NoCall =>
    case Call(t, c) =>
      assert Step(s, e) == MakeReady(t, c).(current := Step(s, e).current, control := Step(s, e).control);
  }

  /** After runs without direct switches it holds at every call: a new coroutine
      is FREE, and one that yields or switches directly is RUN. */
  lemma ReadyFromFreeOrRun(es: seq<Event>, e: Event)
    requires Runs(INIT, es) && NoDirect(es) && Enabled(Exec(INIT, es), e)
    ensures match ReadyCallOf(Exec(INIT, es), e)
            case NoCall => true
            case Call(t, c) => c in t.coros && FreeOrRun(t.coros[c].status)
  {
    InitInv();
    PlainRun(INIT, es);
  }

  const EXAMPLE: seq<Event> := [Spawn(8), Spawn(16), Start, Dispatch, RunOnce]

  /** The states that EXAMPLE goes through. */
  function ExampleState(n: nat): State {
    var two := map[8 := Coro(0, Ready), 16 := Coro(1, Ready)];
    var s2 := State(two, {8, 16}, [8, 16], NULL, NULL, false, InMain, 2, [0, 1], [], []);
    if n == 0 then INIT
    else if n == 1 then State(map[8 := Coro(0, Ready)], {8}, [8], NULL, NULL, false, InMain, 1, [0], [], [])
    else if n == 2 then s2
    else if n == 3 then s2.(control := AtLoop)
    else if n == 4 then
      s2.(coros := two[8 := Coro(0, Run)], queue := [16], current := 8, held := 8, control := Running(8),
      dispatched := [0])
    else
      s2.(queue := [8], current := 16, held := 8, control := Running(16), enqueued := [0, 1, 0], dispatched := [0, 1])
  }

  lemma ExampleStep(n: nat)
    requires n < 5
    ensures Enabled(ExampleState(n), EXAMPLE[n]) && Step(ExampleState(n), EXAMPLE[n]) == ExampleState(n + 1)
  {
    if n == 4 {
      RunDirectNeverSkips(ExampleState(4));
      hide RunDirect;
    }
  }

  lemma ExampleRun(n: nat)
    requires n <= 5
    ensures Runs(INIT, EXAMPLE[..n]) && Exec(INIT, EXAMPLE[..n]) == ExampleState(n)
  {
    hide Step, Enabled, ExampleState;
    if n == 0 {
      assert ExampleState(0) == INIT by { ExampleStart(); }
    } else {
      ExampleRun(n - 1);
      ExampleStep(n - 1);
      RunsAppend(INIT, EXAMPLE[..n - 1], EXAMPLE[n - 1]);
      assert EXAMPLE[..n] == EXAMPLE[..n - 1] + [EXAMPLE[n - 1]];
    }
  }

  lemma ExampleStart()
    ensures ExampleState(0) == INIT
  {
  }

  /** With direct switches it does not: the coroutine switched to is READY while
      it runs, and READY when it yields. */
  lemma ReadyFromReady()
    ensures Runs(INIT, EXAMPLE)
    ensures var s := Exec(INIT, EXAMPLE);
            s.control == Running(16) && 16 in s.coros && !FreeOrRun(s.coros[16].status) && Enabled(s, Yield)
  {
    ExampleRun(5);
    assert EXAMPLE[..5] == EXAMPLE;
    hide Runs, Exec;
  }

  /** Event `j` of the run is a `sched_run_once` that switches. */
  predicate SwitchesAt(es: seq<Event>, j: nat)
    requires j < |es|
  {
    && es[j].RunOnce? && Runs(INIT, es[..j])
    && !Exec(INIT, es[..j]).stop && Exec(INIT, es[..j]).queue != []
  }

  /** The last event that gave control to another coroutine is a dispatch by
      `sched_run`, not a direct switch. */
  predicate ByDispatch(es: seq<Event>) {
    exists k :: 0 <= k < |es| && es[k].Dispatch? && forall j :: k < j < |es| ==> !SwitchesAt(es, j)
  }

  lemma ByDispatchAppend(es: seq<Event>, e: Event)
    ensures ByDispatch(es + [e]) <==> e.Dispatch? || (ByDispatch(es) && !SwitchesAt(es + [e], |es|))
  {
    var fs := es + [e];
    forall j | 0 <= j < |es|
      ensures fs[j] == es[j] && SwitchesAt(fs, j) == SwitchesAt(es, j)
    {
      assert fs[..j] == es[..j];
    }
    assert fs[|es|] == e;
    if ByDispatch(fs) && !e.Dispatch? {
      var k :| 0 <= k < |fs| && fs[k].Dispatch? && forall j :: k < j < |fs| ==> !SwitchesAt(fs, j);
      assert es[k].Dispatch?;
      assert forall j :: k < j < |es| ==> !SwitchesAt(fs, j);
    }
    if ByDispatch(es) && !SwitchesAt(fs, |es|) {
      var k :| 0 <= k < |es| && es[k].Dispatch? && forall j :: k < j < |es| ==> !SwitchesAt(es, j);
      assert fs[k].Dispatch?;
    }
  }

  /** One step of RunningStatus. */
  lemma RunningStatusStep(s: State, e: Event)
    requires Inv(s) && Enabled(s, e) && Step(s, e).control.Running?
    ensures var s' := Step(s, e);
            && s'.current in s'.coros && (e.Dispatch? || s.control.Running?)
            && (FreeOrRun(s'.coros[s'.current].status) <==>
                  e.Dispatch?
                  || (s.current in s.coros && FreeOrRun(s.coros[s.current].status)
                      && !(e.RunOnce? && !s.stop && s.queue != [])))
  {
    hide Accounts, Fifo;
    if e.RunOnce? {
      RunDirectNeverSkips(s);
    }
  }

  /** Over any run, direct switches included: the running coroutine is FREE or
      RUN exactly when it got control by a dispatch of `sched_run`. */
  lemma {:induction false} RunningStatus(es: seq<Event>)
    requires Runs(INIT, es) && Exec(INIT, es).control.Running?
    ensures var s := Exec(INIT, es);
            && s.current == s.control.co && s.current in s.coros
            && (FreeOrRun(s.coros[s.current].status) <==> ByDispatch(es))
    decreases |es|
  {
    hide Step, Enabled, Inv, ByDispatch, Runs, Exec;
    NotAtStart(es);
    var n := |es| - 1;
    LastStep(es);
    var s := Exec(INIT, es[..n]);
    RunningFacts(s, es[n]);
    RunningStatusStep(s, es[n]);
    ByDispatchAppend(es[..n], es[n]);
    assert es[..n] + [es[n]] == es && es[..n] == (es[..n] + [es[n]])[..n];
    if s.control.Running? {
      RunningStatus(es[..n]);
    }
  }

  lemma RunningFacts(s: State, e: Event)
    requires Inv(s) && Enabled(s, e) && Step(s, e).control.Running?
    ensures Step(s, e).current == Step(s, e).control.co
  {
    StepKeeps(s, e);
  }

  /** The exact condition of that assertion, over any run: it holds at a call of
      `coro_ready` exactly when the call is made by `coro_spawn`, or when the
      running coroutine got control by a dispatch of `sched_run`. */
  lemma ReadyExactly(es: seq<Event>, e: Event)
    requires Runs(INIT, es) && Enabled(Exec(INIT, es), e)
    ensures match ReadyCallOf(Exec(INIT, es), e)
            case NoCall => true
            case Call(t, c) => c in t.coros && (FreeOrRun(t.coros[c].status) <==> e.Spawn? || ByDispatch(es))
  {
    hide ByDispatch, Runs, Exec;
    if Exec(INIT, es).control.Running? {
      RunningStatus(es);
    }
  }

  // ------------------------------------------------- a coroutine that is lost

  const LEAK: seq<Event> := EXAMPLE + [Leave, Reap]

  /** A run in which an exited coroutine is not reclaimed: 16 exits while
      `sched_run` holds 8. However the run goes on, 16 stays registered. */
  lemma ExitLeaks(fs: seq<Event>)
    ensures Runs(INIT, LEAK)
    ensures var s := Exec(INIT, LEAK);
            && s.control.AtLoop? && s.held == 8 && Leaked(s, 16) && 16 in s.registry
            && (Runs(s, fs) ==> 16 in Exec(s, fs).registry && Leaked(Exec(s, fs), 16))
  {
    ExampleRun(5);
    LeakSteps();
    assert EXAMPLE[..5] == EXAMPLE && EXAMPLE + [Leave] + [Reap] == LEAK;
    hide Step, Enabled, ExampleState, Runs, Exec, Inv, Leaked;
    RunsAppend(INIT, EXAMPLE, Leave);
    RunsAppend(INIT, EXAMPLE + [Leave], Reap);
    InitInv();
    RunKeeps(INIT, LEAK);
    if Runs(Exec(INIT, LEAK), fs) {
      LeakedForEver(Exec(INIT, LEAK), fs, 16);
    }
  }

  lemma LeakSteps()
    ensures var s := ExampleState(5);
            && Enabled(s, Leave) && Enabled(Step(s, Leave), Reap)
            && var s' := Step(Step(s, Leave), Reap);
               s'.control.AtLoop? && s'.held == 8 && Leaked(s', 16) && 16 in s'.registry
  {
  }

  // ---------------------------------- the assertion left out after coro_switch

  /** How many direct switches away the coroutine held by `sched_run` is from
      running again, if `away` of them at first, with `waiting` in the queue: a
      direct switch brings it one nearer, and sends it behind everyone if it was
      running. Spawned ones queue behind it. */
  function Hops(waiting: nat, away: nat, stop: bool, es: seq<Event>): nat
    decreases |es|
  {
    if es == [] then away
    else
      match es[0]
      case Spawn(_) => Hops(waiting + 1, away, stop, es[1..])
      case Stop => Hops(waiting, away, true, es[1..])
      case RunOnce =>
        if stop || waiting == 0 then Hops(waiting, away, stop, es[1..])
        else Hops(waiting, if away == 0 then waiting else away - 1, stop, es[1..])
      case _ => Hops(waiting, away, stop, es[1..])
  }

  predicate NoDispatch(es: seq<Event>) {
    forall i :: 0 <= i < |es| ==> !es[i].Dispatch?
  }

  /** Of the running coroutine and those that wait, the one held is number
      `away`. */
  predicate HeldAt(s: State, away: nat) {
    away <= |s.queue| && ([s.current] + s.queue)[away] == s.held
  }

  /** One event of a running coroutine, as Hops counts it. */
  lemma HopsStep(s: State, e: Event, away: nat, es: seq<Event>)
    requires Inv(s) && s.control.Running? && Enabled(s, e) && HeldAt(s, away)
    ensures var s' := Step(s, e);
            && s'.held == s.held
            && (s'.control.Running? ==>
                  exists d: nat ::
                    HeldAt(s', d) && Hops(|s.queue|, away, s.stop, [e] + es) == Hops(|s'.queue|, d, s'.stop, es))
            && (!s'.control.Running? ==>
                  && s'.control.Back? && (s'.held == s'.current <==> away == 0)
                  && Hops(|s.queue|, away, s.stop, [e] + es) == Hops(|s.queue|, away, s.stop, es))
  {
    hide Accounts, Fifo;
    var s' := Step(s, e);
    assert ([e] + es)[1..] == es;
    assert away > 0 ==> s.queue[away - 1] == s.held;
    match e
    case Spawn(a) => assert HeldAt(s', away);
    case Refuse => assert HeldAt(s', away);
    case Stop => assert HeldAt(s', away);
    case RunOnce =>
      RunDirectNeverSkips(s);
      hide RunDirect;
      if s.stop || s.queue == [] {
        assert HeldAt(s', away);
      } else {
        assert HeldAt(s', if away == 0 then |s.queue| else away - 1);
      }
    case Yield =>
    case Leave =>
  }

  /** Once nobody runs, only a dispatch lets a coroutine run again, and until
      `sched_run` goes on nothing but a stop can happen. */
  lemma {:induction false} NobodyRuns(s: State, es: seq<Event>, waiting: nat, away: nat, stop: bool)
    requires !s.control.Running? && Runs(s, es) && NoDispatch(es)
    ensures var s' := Exec(s, es);
            && !s'.control.Running?
            && (s'.control.Back? ==>
                  && s.control.Back? && s'.held == s.held && s'.current == s.current
                  && Hops(waiting, away, stop, es) == away)
    decreases |es|
  {
    if es != [] {
      assert !es[0].Dispatch? && forall i :: 0 <= i < |es[1..]| ==> es[1..][i] == es[i + 1];
      NobodyRuns(Step(s, es[0]), es[1..], waiting, away, if es[0].Stop? then true else stop);
    }
  }

  lemma {:induction false} HopsRun(s: State, es: seq<Event>, away: nat)
    requires Inv(s) && s.control.Running? && Runs(s, es) && NoDispatch(es) && HeldAt(s, away)
    ensures var s' := Exec(s, es);
            s'.control.Back? ==> (s'.held == s'.current <==> Hops(|s.queue|, away, s.stop, es) == 0)
    decreases |es|
  {
    hide Inv, Enabled, Step, HeldAt, Hops;
    if es != [] {
      var s1, fs := Step(s, es[0]), es[1..];
      assert [es[0]] + fs == es && NoDispatch(fs);
      StepKeeps(s, es[0]);
      HopsStep(s, es[0], away, fs);
      if s1.control.Running? {
        var d: nat :| HeldAt(s1, d) && Hops(|s.queue|, away, s.stop, es) == Hops(|s1.queue|, d, s1.stop, fs);
        HopsRun(s1, fs, d);
      } else {
        NobodyRuns(s1, fs, |s.queue|, away, s.stop);
      }
    }
  }

  /** The number of events up to and including the last dispatch by `sched_run`. */
  function UpToDispatch(es: seq<Event>): (n: nat)
    ensures n <= |es| && (n > 0 ==> es[n - 1].Dispatch?) && NoDispatch(es[n..])
  {
    if es == [] || es[|es| - 1].Dispatch? then |es| else UpToDispatch(es[..|es| - 1])
  }

  /** The assertion at line 92 of src/cs_scheduler.c, which is commented out, over
      any run: when a coroutine switches back to `sched_run`, it is the one that
      was dispatched exactly when the direct switches since have led around the
      queue to it. */
  lemma SwitchedBackExactly(es: seq<Event>)
    requires Runs(INIT, es) && Exec(INIT, es).control.Back?
    ensures var s, n := Exec(INIT, es), UpToDispatch(es);
            && n > 0 && Runs(INIT, es[..n])
            && (s.held == s.current <==> Hops(|Exec(INIT, es[..n]).queue|, 0, false, es[n..]) == 0)
  {
    var n := UpToDispatch(es);
    RunsSplit(INIT, es, n);
    hide Step, Enabled, Inv, UpToDispatch;
    if n == 0 {
      NobodyRuns(INIT, es[n..], 0, 0, false);
    } else {
      InitInv();
      RunKeeps(INIT, es[..n]);
      assert es[..n][..n - 1] == es[..n - 1] && es[..n][n - 1] == es[n - 1];
      JustDispatched(es[..n]);
      HopsRun(Exec(INIT, es[..n]), es[n..], 0);
    }
  }

  lemma JustDispatched(es: seq<Event>)
    requires Runs(INIT, es) && es != [] && es[|es| - 1].Dispatch?
    ensures var s := Exec(INIT, es);
            s.control.Running? && s.held == s.current && !s.stop && HeldAt(s, 0)
  {
    RunsSplit(INIT, es, |es| - 1);
    assert es[|es| - 1..] == [es[|es| - 1]];
  }

  /** Without direct switches it always holds. */
  lemma SwitchedBackPlain(es: seq<Event>)
    requires Runs(INIT, es) && NoDirect(es) && Exec(INIT, es).control.Back?
    ensures Exec(INIT, es).held == Exec(INIT, es).current
  {
    InitInv();
    PlainRun(INIT, es);
  }

  /** With them it fails: 16 yields while 8 is held. */
  lemma SwitchedBackOther()
    ensures Runs(INIT, EXAMPLE + [Yield])
    ensures var s := Exec(INIT, EXAMPLE + [Yield]);
            s.control.Back? && s.held == 8 && s.current == 16
  {
    ExampleRun(5);
    assert EXAMPLE[..5] == EXAMPLE;
    hide Runs, Exec;
    RunsAppend(INIT, EXAMPLE, Yield);
  }

  /** Direct switches among `es`. */
  function Directs(es: seq<Event>): nat {
    if es == [] then 0 else (if es[0].RunOnce? then 1 else 0) + Directs(es[1..])
  }

  /** If meanwhile nobody is spawned and the environment not stopped, this is
      counting round the ring of those who wait and the one that runs. */
  lemma {:induction false} HopsModulo(waiting: nat, away: nat, es: seq<Event>)
    requires away <= waiting
    requires forall i :: 0 <= i < |es| ==> !es[i].Spawn? && !es[i].Stop?
    ensures Hops(waiting, away, false, es) == (away - Directs(es)) % (waiting + 1)
    decreases |es|
  {
    if es == [] {
      Remainder(away, waiting + 1, 0, away);
    } else {
      var x := away - Directs(es);
      if !es[0].RunOnce? {
        HopsModulo(waiting, away, es[1..]);
      } else if away > 0 {
        HopsModulo(waiting, away - 1, es[1..]);
      } else {
        HopsModulo(waiting, waiting, es[1..]);
        NextRound(x, waiting + 1);
        assert waiting - Directs(es[1..]) == x + (waiting + 1);
      }
    }
  }

  lemma Remainder(x: int, n: int, q: int, r: int)
    requires 0 <= r < n && x == n * q + r
    ensures x % n == r
  {
    OneRemainder(n, q, r, x / n, x % n);
  }

  lemma OneRemainder(n: int, q: int, r: int, q': int, r': int)
    requires 0 <= r < n && 0 <= r' < n && n * q + r == n * q' + r'
    ensures r == r'
  {
    Apart(n, q, q');
    Apart(n, q', q);
  }

  lemma Apart(n: int, q: int, q': int)
    requires n > 0
    ensures q > q' ==> n * q - n * q' >= n
  {
    var d := q - q';
    assert n * d == n * q - n * q';
    AtLeastOnce(n, d);
  }

  lemma AtLeastOnce(n: int, d: int)
    requires n > 0
    ensures d > 0 ==> n * d >= n
  {
  }

  lemma NextRound(x: int, n: int)
    requires n > 0
    ensures (x + n) % n == x % n
  {
    Remainder(x + n, n, x / n + 1, x % n);
  }

  // ------------------------------------------------------------------- fairness

  /** Between two consecutive occurrences of a number, no number comes twice. */
  predicate Fair(e: seq<nat>) {
    forall i, k :: 0 <= i < k < |e| && e[i] == e[k] && e[k] !in e[i + 1..k] ==> NoRepeats(e[i + 1..k])
  }

  lemma NotAfter(e: seq<nat>, x: nat, i: nat)
    requires i < |e| && x !in e[i + 1..]
    ensures forall m :: i < m < |e| ==> e[m] != x
  {
    assert forall m :: i < m < |e| ==> e[i + 1..][m - i - 1] == e[m];
  }

  lemma FairAppend(e: seq<nat>, x: nat, p: nat)
    requires Fair(e)
    requires x !in e || (p < |e| && e[p] == x && x !in e[p + 1..] && NoRepeats(e[p + 1..]))
    ensures Fair(e + [x])
  {
    var e' := e + [x];
    forall i, k | 0 <= i < k < |e'| && e'[i] == e'[k] && e'[k] !in e'[i + 1..k]
      ensures NoRepeats(e'[i + 1..k])
    {
      assert e'[i + 1..k] == e[i + 1..k];
      if k < |e| {
        assert e[i] == e[k];
      } else {
        assert e[i] == x;
        assert e[i + 1..k] == e[i + 1..];
        NotAfter(e, x, i);
        NotAfter(e, x, p);
      }
    }
  }

  /** The numbers waiting in the queue are distinct and not the current one. */
  lemma WaitingDistinct(s: State, q: seq<Addr>)
    requires Inv(s) && NoRepeats(q) && forall c :: c in q ==> c in s.coros
    ensures NoRepeats(Uids(s.coros, q))
    ensures forall c :: c in s.coros ==> (s.coros[c].uid in Uids(s.coros, q) <==> c in q)
  {
    var r := Uids(s.coros, q);
    hide Fifo, Turn;
    forall i, j | 0 <= i < j < |r|
      ensures r[i] != r[j]
    {
      assert q[i] in q && q[j] in q;
    }
    forall c | c in s.coros
      ensures s.coros[c].uid in r <==> c in q
    {
      if s.coros[c].uid in r {
        var k :| 0 <= k < |r| && r[k] == s.coros[c].uid;
        assert q[k] in q;
      }
      if c in q {
        var k :| 0 <= k < |q| && q[k] == c;
        assert r[k] == s.coros[c].uid;
      }
    }
  }

  /** The current coroutine may queue: it is the last one dispatched, and those
      queued since are distinct. */
  lemma CurrentMayQueue(s: State)
    requires Inv(s) && s.control.Running? && Fair(s.enqueued)
    ensures Fair(s.enqueued + [s.coros[s.current].uid])
  {
    var x, p := s.coros[s.current].uid, |s.dispatched| - 1;
    WaitingDistinct(s, s.queue);
    assert s.enqueued[p + 1..] == Uids(s.coros, s.queue);
    assert s.enqueued[p] == x;
    FairAppend(s.enqueued, x, p);
  }

  lemma StepFair(s: State, e: Event)
    requires Inv(s) && Enabled(s, e) && Fair(s.enqueued)
    ensures Fair(Step(s, e).enqueued)
  {
    hide Fair;
    match e
    case Spawn(a) =>
      assert s.spawned !in s.enqueued;
      FairAppend(s.enqueued, s.spawned, 0);
    case Yield => CurrentMayQueue(s);
    case RunOnce =>
      RunDirectNeverSkips(s);
      if !s.stop && s.queue != [] {
        CurrentMayQueue(s);
      }
    case Refuse =>
    case Start =>
    case Dispatch =>
    case Leave =>
    case Stop =>
    case Reap =>
    case Finish =>
  }

  /** Histories only grow. */
  lemma StepGrows(s: State, e: Event)
    requires Inv(s) && Enabled(s, e)
    ensures s.enqueued <= Step(s, e).enqueued && s.dispatched <= Step(s, e).dispatched
  {
    if e.RunOnce? {
      RunDirectNeverSkips(s);
    }
  }

  lemma {:induction false} RunFair(s: State, es: seq<Event>)
    requires Inv(s) && Fair(s.enqueued) && Runs(s, es)
    ensures var s' := Exec(s, es);
            && Inv(s') && Fair(s'.enqueued)
            && s.enqueued <= s'.enqueued && s.dispatched <= s'.dispatched
    decreases |es|
  {
    hide Step, Enabled, Inv, Fair;
    if es != [] {
      StepKeeps(s, es[0]);
      StepFair(s, es[0]);
      StepGrows(s, es[0]);
      RunFair(Step(s, es[0]), es[1..]);
    }
  }

  function UidOf(s: State, c: Addr): nat {
    if c in s.coros then s.coros[c].uid else 0
  }

  /** Round robin, direct switches included. Let a coroutine be running after the
      events `es`, and let `k` be the index of its next dispatch after `fs`:
      every coroutine that waited at `es` is dispatched exactly once in between,
      however many are spawned meanwhile. */
  lemma RoundRobin(es: seq<Event>, fs: seq<Event>, k: nat, w: Addr)
    requires Runs(INIT, es) && Exec(INIT, es).control.Running?
    requires Runs(Exec(INIT, es), fs)
    requires var s, s' := Exec(INIT, es), Exec(Exec(INIT, es), fs);
             && |s.dispatched| <= k < |s'.dispatched|
             && s'.dispatched[k] == UidOf(s, s.current)
             && UidOf(s, s.current) !in s'.dispatched[|s.dispatched|..k]
             && w in s.queue
    ensures var s, s' := Exec(INIT, es), Exec(Exec(INIT, es), fs);
            multiset(s'.dispatched[|s.dispatched|..k])[UidOf(s, w)] == 1
  {
    hide Step, Enabled, Fair;
    InitInv();
    assert Fair(INIT.enqueued) by { EmptyFair(); }
    RunFair(INIT, es);
    var s := Exec(INIT, es);
    RunFair(s, fs);
    RoundRobinStates(s, Exec(s, fs), k, w);
  }

  lemma EmptyFair()
    ensures Fair([])
  {
  }

  lemma RoundRobinStates(s: State, s': State, k: nat, w: Addr)
    requires Inv(s) && Inv(s') && Fair(s'.enqueued) && s.control.Running?
    requires s.enqueued <= s'.enqueued && s.dispatched <= s'.dispatched
    requires |s.dispatched| <= k < |s'.dispatched|
    requires s'.dispatched[k] == s.coros[s.current].uid
    requires s.coros[s.current].uid !in s'.dispatched[|s.dispatched|..k]
    requires w in s.queue
    ensures multiset(s'.dispatched[|s.dispatched|..k])[s.coros[w].uid] == 1
  {
    hide Inv, Uids, Fair, NoRepeats;
    CurrentLast(s);
    DispatchedPrefix(s');
    var d, e, n := s'.dispatched, s'.enqueued, |s.dispatched|;
    var x, q := s.coros[s.current].uid, Uids(s.coros, s.queue);
    WaitingDistinct(s, s.queue);
    assert d <= e && s.dispatched + q <= e;
    WindowOnce(d, e, n, q, k, x, s.coros[w].uid);
  }

  lemma CurrentLast(s: State)
    requires Inv(s) && s.control.Running?
    ensures s.current in s.coros && s.current !in s.queue && NoRepeats(s.queue)
    ensures s.dispatched != [] && s.dispatched[|s.dispatched| - 1] == s.coros[s.current].uid
    ensures (forall c :: c in s.queue ==> c in s.coros) && s.enqueued == s.dispatched + Uids(s.coros, s.queue)
  {
  }

  lemma DispatchedPrefix(s: State)
    requires Inv(s)
    ensures s.dispatched <= s.enqueued
  {
  }

  /** `d` is a prefix of the fair history `e`; after its first `n` entries, the
      last of them `x`, come the distinct entries `q` without `x`. Up to the next
      `x` in `d`, each entry of `q` comes exactly once. */
  lemma WindowOnce(d: seq<nat>, e: seq<nat>, n: nat, q: seq<nat>, k: nat, x: nat, y: nat)
    requires Fair(e) && d <= e && 0 < n <= k < |d|
    requires d[n - 1] == x && d[k] == x && x !in d[n..k]
    requires d[..n] + q <= e && x !in q && y in q
    ensures multiset(d[n..k])[y] == 1
  {
    assert e[n - 1] == x && e[k] == x && d[n..k] == e[n - 1 + 1..k];
    assert NoRepeats(d[n..k]);
    hide Fair, NoRepeats;
    var j :| 0 <= j < |q| && q[j] == y;
    assert forall i :: 0 <= i < |q| ==> e[n + i] == (d[..n] + q)[n + i] == q[i];
    var i := if k - n < |q| then k - n else 0;
    assert d[n + i] == e[n + i] == q[i];
    assert d[n..k][j] == e[n + j] == y;
    NoRepeatsMultiset(d[n..k], y);
  }
}
