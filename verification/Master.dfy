/** The functions of src/cs_scheduler.c and src/cs_coroutine.c over the real
    tree and the real queue, refining the state machine of SchedulerModel. */
module Master {
  import opened Basics
  import opened RbShape
  import opened RbMemory
  import RbTree
  import TailQueue
  import opened SchedulerModel
  import opened Bodies

  /** Actions left, a launched body's own included. */
  function Actions(b: Script): nat {
    match b
    case End => 1
    case Pause(rest) => 1 + Actions(rest)
    case Launch(child, rest) => 1 + Actions(child) + Actions(rest)
    case Direct(rest) => 1 + Actions(rest)
    case Halt(rest) => 1 + Actions(rest)
  }

  /** Spawns and yields only. */
  predicate Simple(b: Script) {
    match b
    case End => true
    case Pause(rest) => Simple(rest)
    case Launch(child, rest) => Simple(child) && Simple(rest)
    case Direct(_) => false
    case Halt(_) => false
  }

  /** The body never stops the environment, nor do those it launches. */
  predicate NoHalt(b: Script) {
    match b
    case End => true
    case Pause(rest) => NoHalt(rest)
    case Launch(child, rest) => NoHalt(child) && NoHalt(rest)
    case Direct(rest) => NoHalt(rest)
    case Halt(_) => false
  }

  /** Actions left to the coroutines in `q`. */
  function Work(m: map<Addr, Script>, q: seq<Addr>): nat {
    if q == [] then 0 else (if q[0] in m then Actions(m[q[0]]) else 0) + Work(m, q[1..])
  }

  lemma {:induction false} WorkAppend(m: map<Addr, Script>, q: seq<Addr>, c: Addr)
    ensures Work(m, q + [c]) == Work(m, q) + if c in m then Actions(m[c]) else 0
    decreases |q|
  {
    if q == [] {
      assert [c][1..] == [];
    } else {
      assert (q + [c])[1..] == q[1..] + [c];
      WorkAppend(m, q[1..], c);
    }
  }

  lemma {:induction false} WorkSame(m: map<Addr, Script>, m': map<Addr, Script>, q: seq<Addr>)
    requires forall c :: c in q ==> (c in m <==> c in m') && (c in m ==> m'[c] == m[c])
    ensures Work(m', q) == Work(m, q)
    decreases |q|
  {
    if q != [] {
      WorkSame(m, m', q[1..]);
    }
  }

  /** Actions left to the queued coroutines and the running one. */
  function Load(m: map<Addr, Script>, s: State): nat {
    Work(m, s.queue) + if s.control.Running? && s.current in m then Actions(m[s.current]) else 0
  }

  /** Taking an action off the running coroutine's script lowers the load. */
  lemma LoadConsumed(m: map<Addr, Script>, s: State, rest: Script)
    requires Inv(s) && s.control.Running? && s.current in m
    ensures Load(m[s.current := rest], s) + Actions(m[s.current]) == Load(m, s) + Actions(rest)
  {
    WorkSame(m, m[s.current := rest], s.queue);
  }

  /** Scheduling only moves the load around, and an exit lowers it. */
  lemma LoadStep(m: map<Addr, Script>, s: State, e: Event)
    requires Inv(s) && Enabled(s, e) && !e.Spawn? && m.Keys == s.coros.Keys
    ensures e.Leave? ==> Load(m, Step(s, e)) < Load(m, s)
    ensures !e.Leave? ==> Load(m, Step(s, e)) == Load(m, s)
  {
    hide Accounts, Fifo;
    match e
    case Yield => WorkAppend(m, s.queue, s.current);
    case RunOnce =>
      RunDirectNeverSkips(s);
      hide RunDirect;
      if !s.stop && s.queue != [] {
        WorkAppend(m, s.queue[1..], s.current);
      }
    case Leave => ActionsPositive(m[s.current]);
    case Refuse =>
    case Start =>
    case Dispatch =>
    case Stop =>
    case Reap =>
    case Finish =>
  }

  lemma ActionsPositive(b: Script)
    ensures Actions(b) > 0
  {
  }

  lemma LoadSpawn(m: map<Addr, Script>, s: State, a: Addr, child: Script)
    requires Inv(s) && Enabled(s, Spawn(a)) && m.Keys == s.coros.Keys
    ensures Load(m[a := child], Step(s, Spawn(a))) == Load(m, s) + Actions(child)
  {
    WorkAppend(m[a := child], s.queue, a);
    WorkSame(m, m[a := child], s.queue);
  }

  lemma LoadFreed(m: map<Addr, Script>, s: State, c: Addr)
    requires c !in s.queue && !s.control.Running?
    ensures Load(m - {c}, s) == Load(m, s)
  {
    WorkSame(m, m - {c}, s.queue);
  }

  /** The status and script of each live coroutine are on record. */
  ghost predicate Tables(status: map<Addr, Status>, script: map<Addr, Script>, coros: map<Addr, Coro>) {
    && status.Keys == coros.Keys && script.Keys == coros.Keys
    && forall c :: c in coros ==> coros[c].status == status[c]
  }

  lemma TablesSet(status: map<Addr, Status>, script: map<Addr, Script>, m: State, c: Addr, st: Status)
    requires Tables(status, script, m.coros) && c in m.coros
    ensures Tables(status[c := st], script, SetStatus(m, c, st).coros)
    ensures SetStatus(m, c, st).coros.Keys == m.coros.Keys
  {
  }

  lemma TablesSpawn(status: map<Addr, Status>, script: map<Addr, Script>, m: State, a: Addr, body: Script)
    requires Tables(status, script, m.coros) && a !in m.coros
    ensures Tables(status[a := Free], script[a := body], Spawning(m, a).coros)
    ensures Spawning(m, a) == m.(coros := Spawning(m, a).coros, registry := m.registry + {a}, spawned := m.spawned + 1)
    ensures Spawning(m, a).coros.Keys == m.coros.Keys + {a}
  {
  }

  lemma TablesFree(status: map<Addr, Status>, script: map<Addr, Script>, coros: map<Addr, Coro>, c: Addr)
    requires Tables(status, script, coros)
    ensures Tables(status - {c}, script - {c}, coros - {c}) && (coros - {c}).Keys == coros.Keys - {c}
  {
  }

  const WAIT: TailQueue.HeadId := 0

  ghost predicate AllSimple(m: map<Addr, Script>) {
    forall c :: c in m ==> Simple(m[c])
  }

  ghost predicate AllNoHalt(m: map<Addr, Script>) {
    forall c :: c in m ==> NoHalt(m[c])
  }

  lemma SpawnSteps(m: State, a: Addr)
    requires MaySpawn(m)
    requires a != NULL && a !in m.coros
    ensures Enabled(m, Spawn(a)) && a in Spawning(m, a).coros && Spawning(m, a).coros[a].status == Free
    ensures Step(m, Spawn(a)) == MakeReady(Spawning(m, a), a)
  {
  }

  lemma RefuseStep(m: State)
    requires MaySpawn(m)
    ensures Enabled(m, Refuse) && Step(m, Refuse) == m
  {
  }

  lemma RunOnceStep(m: State)
    requires m.control.Running? && m.current in m.coros && forall c :: c in m.queue ==> c in m.coros
    ensures Enabled(m, RunOnce) && Step(m, RunOnce) == RunDirect(m)
  {
  }

  lemma {:induction false} RunDirectRuns(m: State)
    requires m.current in m.coros && (forall c :: c in m.queue ==> c in m.coros) && m.control.Running?
    ensures RunDirect(m).control.Running?
    decreases |m.queue|
  {
    if !m.stop && m.queue != [] {
      RunDirectRuns(m.(queue := m.queue[1..]));
    }
  }

  /** One round of the loop of `sched_run_once`. */
  lemma RunDirectOnce(m: State)
    requires m.current in m.coros && forall c :: c in m.queue ==> c in m.coros
    ensures RunDirect(m) ==
            if m.stop || m.queue == [] then m
            else if m.coros[m.queue[0]].status == Exit then RunDirect(m.(queue := m.queue[1..]))
            else SwitchDirect(m)
  {
  }

  lemma TablesKeys(status: map<Addr, Status>, script: map<Addr, Script>, coros: map<Addr, Coro>)
    requires Tables(status, script, coros)
    ensures status.Keys == coros.Keys && script.Keys == coros.Keys
  {
  }

  lemma TablesRest(status: map<Addr, Status>, script: map<Addr, Script>, coros: map<Addr, Coro>, c: Addr, b: Script)
    requires Tables(status, script, coros) && c in script
    ensures Tables(status, script[c := b], coros)
  {
  }

  lemma SimpleConsumed(m: map<Addr, Script>, c: Addr)
    requires c in m
    ensures AllSimple(m) ==> !m[c].Direct? && !m[c].Halt?
    ensures AllSimple(m) && !m[c].End? ==> AllSimple(m[c := m[c].rest])
    ensures AllSimple(m) && m[c].Launch? ==> Simple(m[c].child)
  {
  }

  lemma SimpleMore(m: map<Addr, Script>, a: Addr, b: Script)
    ensures AllSimple(m) && Simple(b) ==> AllSimple(m[a := b])
  {
  }

  lemma NoHaltConsumed(m: map<Addr, Script>, c: Addr)
    requires c in m
    ensures AllNoHalt(m) ==> !m[c].Halt?
    ensures AllNoHalt(m) && !m[c].End? ==> AllNoHalt(m[c := m[c].rest])
    ensures AllNoHalt(m) && m[c].Launch? ==> NoHalt(m[c].child)
  {
  }

  lemma NoHaltMore(m: map<Addr, Script>, a: Addr, b: Script)
    ensures AllNoHalt(m) && NoHalt(b) ==> AllNoHalt(m[a := b])
  {
  }

  lemma NoHaltLess(m: map<Addr, Script>, c: Addr)
    ensures AllNoHalt(m) ==> AllNoHalt(m - {c})
  {
  }

  lemma NoDirectMore(es: seq<Event>)
    ensures forall e: Event :: NoDirect(es) && !e.RunOnce? ==> NoDirect(es + [e])
  {
  }

  lemma HeldKept(s: State, e: Event)
    requires Inv(s) && Enabled(s, e) && !e.Dispatch?
    ensures Step(s, e).held == s.held
  {
    if e.RunOnce? {
      RunDirectNeverSkips(s);
    }
  }

  /** LoadStep and HeldKept for an event that is to follow `es`. */
  lemma LoadStepAt(es: seq<Event>, m: map<Addr, Script>, e: Event)
    requires Runs(INIT, es) && m.Keys == Exec(INIT, es).coros.Keys
    requires e.Leave? || e.Yield? || e.RunOnce? || e.Stop? || e.Refuse?
    requires Exec(INIT, es).control.Running?
    ensures Enabled(Exec(INIT, es), e) && Runs(INIT, es + [e])
    ensures var s, s' := Exec(INIT, es), Exec(INIT, es + [e]);
            && s'.held == s.held
            && (e.Leave? ==> Load(m, s') < Load(m, s)) && (!e.Leave? ==> Load(m, s') == Load(m, s))
  {
    hide Load, Step;
    TraceFacts(es);
    Advance(es, e);
    LoadStep(m, Exec(INIT, es), e);
    HeldKept(Exec(INIT, es), e);
  }

  lemma LoadSpawnAt(es: seq<Event>, m: map<Addr, Script>, a: Addr, child: Script)
    requires Runs(INIT, es) && m.Keys == Exec(INIT, es).coros.Keys && Enabled(Exec(INIT, es), Spawn(a))
    ensures Runs(INIT, es + [Spawn(a)])
    ensures var s, s' := Exec(INIT, es), Exec(INIT, es + [Spawn(a)]);
            && s'.held == s.held && s'.control == s.control
            && Load(m[a := child], s') == Load(m, s) + Actions(child)
  {
    TraceFacts(es);
    Advance(es, Spawn(a));
    LoadSpawn(m, Exec(INIT, es), a, child);
  }

  lemma TablesStatus(status: map<Addr, Status>, script: map<Addr, Script>, coros: map<Addr, Coro>, c: Addr)
    requires Tables(status, script, coros) && c in coros
    ensures c in status && status[c] == coros[c].status
  {
  }

  lemma SimpleLess(m: map<Addr, Script>, c: Addr)
    ensures AllSimple(m) ==> AllSimple(m - {c})
  {
  }

  lemma ReapLoad(es: seq<Event>, m: map<Addr, Script>, c: Addr)
    requires Runs(INIT, es) && m.Keys == Exec(INIT, es).coros.Keys
    requires Exec(INIT, es).control.Back? && Exec(INIT, es).held == c
    ensures c in Exec(INIT, es).coros && Enabled(Exec(INIT, es), Reap) && Runs(INIT, es + [Reap])
    ensures Load(m, Exec(INIT, es + [Reap])) == Load(m, Exec(INIT, es))
    ensures Exec(INIT, es).coros[c].status == Exit ==> Load(m - {c}, Exec(INIT, es + [Reap])) == Load(m, Exec(INIT, es))
  {
    hide Load, Exec, Runs;
    TraceFacts(es);
    Advance(es, Reap);
    var s := Exec(INIT, es);
    LoadStep(m, s, Reap);
    if s.coros[c].status == Exit {
      LoadFreed(m, Step(s, Reap), c);
    }
  }

  lemma DispatchLoad(es: seq<Event>, m: map<Addr, Script>)
    requires Runs(INIT, es) && m.Keys == Exec(INIT, es).coros.Keys
    requires var s := Exec(INIT, es); s.control.AtLoop? && !s.stop && s.queue != []
    ensures Runs(INIT, es + [Dispatch])
    ensures Load(m, Exec(INIT, es + [Dispatch])) == Load(m, Exec(INIT, es))
  {
    TraceFacts(es);
    Advance(es, Dispatch);
    LoadStep(m, Exec(INIT, es), Dispatch);
  }

  lemma YieldStep(m: State)
    requires m.control.Running? && m.control.co in m.coros
    ensures Enabled(m, Yield) && Step(m, Yield) == MakeReady(m, m.control.co).(control := Back)
  {
  }

  lemma SetStatusKeeps(m: State, c: Addr, st: Status)
    requires c in m.coros
    ensures SetStatus(m, c, st) == m.(coros := SetStatus(m, c, st).coros)
  {
  }

  /** The invariant in force after a run, in parts. */
  lemma TraceFacts(es: seq<Event>)
    requires Runs(INIT, es)
    ensures var s := Exec(INIT, es);
            && Inv(s) && NULL !in s.coros && s.registry == s.coros.Keys
            && (forall c :: c in s.queue ==> c in s.coros)
            && (s.control.Running? ==>
                  && s.control.co == s.current && s.current in s.coros && s.current !in s.queue
                  && s.coros[s.current].status != Exit)
            && (s.control.Back? ==> s.held in s.coros && (s.coros[s.held].status == Exit ==> s.held !in s.queue))
  {
    InitInv();
    RunKeeps(INIT, es);
  }

  lemma Advance(es: seq<Event>, e: Event)
    requires Runs(INIT, es) && Enabled(Exec(INIT, es), e)
    ensures Runs(INIT, es + [e]) && Exec(INIT, es + [e]) == Step(Exec(INIT, es), e)
  {
    RunsAppend(INIT, es, e);
  }

  class Master {
    const rbt: RbTree.Rbtree             // coroutine_rbt and, as its sentinel, coroutine_rbs
    const queues: TailQueue.TailQueues   // wait_sched_queue is its only head
    var status: map<Addr, Status>        // the status field of each live coroutine
    var script: map<Addr, Script>        // and where its body stands
    var current: Addr
    var stop: bool
    var control: Control
    const answers: nat -> Addr           // what the allocator will answer, request by request
    var requests: nat                    // and how many there were
    ghost var trace: seq<Event>          // all events so far
    ghost var bodies: seq<Script>        // the bodies of the coroutines spawned, by number

    /** The tree registers `reg`, each under its own address, and node
        structures exist for `live` and the sentinel. */
    ghost predicate TreeHolds(reg: set<Addr>, live: set<Addr>)
      reads rbt
    {
      && rbt.Valid() && Nodes(rbt.shape) == reg
      && rbt.mem.Keys == live + {rbt.sentinel} && rbt.sentinel !in live
      && forall c :: c in reg ==> c in rbt.mem && rbt.mem[c].key == c && rbt.mem[c].data == c
    }

    /** The waiting queue is `q`, and entries exist for `live`. */
    ghost predicate QueueHolds(q: seq<Addr>, live: set<Addr>)
      reads queues
    {
      && queues.Valid() && queues.queues == map[WAIT := q] && queues.entries.Keys == live
    }

    /** The data structures are those of state `m`; its history is left open. */
    ghost predicate Represents(m: State)
      reads this, rbt, queues
    {
      && TreeHolds(m.registry, m.coros.Keys)
      && QueueHolds(m.queue, m.coros.Keys)
      && Tables(status, script, m.coros)
      && current == m.current && stop == m.stop && control == m.control
    }

    ghost function Now(): State
      requires Runs(INIT, trace)
      reads this
    {
      Exec(INIT, trace)
    }

    /** The data structures are those of the state that the events lead to. */
    ghost predicate Valid()
      reads this, rbt, queues
    {
      Runs(INIT, trace) && Represents(Now())
    }

    /** The events are those of the bodies, in order, and the answers of the
        allocator have been followed. */
    ghost predicate Faithful()
      reads this, rbt
    {
      Runs(INIT, trace) && Faithfully(answers, rbt.sentinel, bodies, script, requests, trace)
    }

    /** What `malloc` is going to answer: NULL, or an address that is not in use
        now. */
    ghost function Answer(): (a: Addr)
      reads this`status, this`requests
      ensures a == NULL || (a !in status && a != rbt.sentinel)
    {
      Usable(answers(requests), status.Keys + {rbt.sentinel})
    }

    /** The part of `env_init` that concerns the master: `sentinel` is the
        address of the static sentinel node. */
    constructor (sentinel: Addr, n: RbNode, answers: nat -> Addr)
      requires sentinel != NULL
      ensures Valid() && Faithful() && trace == [] && bodies == [] && script == map[]
      ensures fresh(rbt) && fresh(queues) && this.answers == answers && requests == 0 && !stop && control.InMain?
    {
      rbt := new RbTree.Rbtree(map[sentinel := n], sentinel);
      queues := new TailQueue.TailQueues();
      status, script := map[], map[];
      current, stop, control, trace := NULL, false, InMain, [];
      this.answers, requests, bodies := answers, 0, [];
      new;
      queues.Init(WAIT);
      hide RbTree.Rbtree.Valid, TailQueue.TailQueues.Valid, Faithfully;
      FaithfulStart(answers, sentinel);
      assert TreeHolds({}, {});
    }

    /** `malloc` */
    method Malloc() returns (a: Addr)
      modifies this`requests
      ensures a == old(Answer()) && requests == old(requests) + 1
    {
      a := answers(requests);
      requests := requests + 1;
      if a in status || a == rbt.sentinel {
        a := NULL;
      }
    }

    /** `coro_ready`, with its assertion as precondition. */
    method CoroReady(c: Addr, ghost m: State)
      requires Represents(m) && c in m.coros && c !in m.queue
      requires m.coros[c].status != Exit
      modifies this`status, queues
      ensures Represents(MakeReady(m, c))
    {
      hide TreeHolds, QueueHolds, SetStatus, Tables;
      TablesSet(status, script, m, c, Ready);
      SetStatusKeeps(m, c, Ready);
      status := status[c := Ready];
      Enqueue(c, m.queue, m.coros.Keys);
    }

    /** `insert_tail` on the waiting queue. */
    method Enqueue(c: Addr, ghost q: seq<Addr>, ghost live: set<Addr>)
      requires QueueHolds(q, live) && c in live && c !in q
      modifies queues
      ensures QueueHolds(q + [c], live)
    {
      queues.InsertTail(WAIT, c);
      assert queues.queues == map[WAIT := q + [c]];
    }

    /** `pop` on the waiting queue. */
    method Pop(ghost q: seq<Addr>, ghost live: set<Addr>) returns (c: Addr)
      requires QueueHolds(q, live)
      modifies queues
      ensures q == [] ==> c == NULL && QueueHolds(q, live)
      ensures q != [] ==> c == q[0] && c != NULL && c in live && c !in q[1..] && QueueHolds(q[1..], live)
    {
      c := queues.Pop(WAIT);
      assert q != [] ==> queues.queues == map[WAIT := q[1..]];
    }

    /** `sched_get_coro` after any run: the registered coroutine with this id, or
        nil, for id 0 as for any other. */
    method GetCoro(pid: Int64) returns (r: Addr)
      requires Valid()
      ensures if exists c :: c in Now().registry && c == pid then r == pid else r == NULL
    {
      hide Runs, Exec;
      ghost var n;
      var value;
      value, n := rbt.Lookup(pid);
      if value == NULL {
        return NULL;
      }
      return rbt.mem[value].data;
    }

    // -------------------------------------------------------- tree and memory

    /** `cs_alloc` and `memset` of a coroutine at `a`, then its id, key and data
        (lines 27-29 of src/cs_coroutine.c). */
    method Build(a: Addr, ghost reg: set<Addr>, ghost q: seq<Addr>, ghost live: set<Addr>)
      requires TreeHolds(reg, live) && QueueHolds(q, live) && a != NULL && a !in live && a != rbt.sentinel
      requires reg <= live && forall c :: c in q ==> c in live
      modifies rbt, queues
      ensures TreeHolds(reg, live + {a}) && QueueHolds(q, live + {a})
      ensures a in rbt.mem && rbt.mem[a].key == a && rbt.mem[a].data == a
    {
      rbt.Allocate(a, RbNode(NULL, NULL, NULL, 0, NULL, Black));
      queues.Allocate(a, TailQueue.Entry(NULL, TailQueue.First(WAIT)));
      rbt.Label(a, a, a);
    }

    /** `sched_register_coro` */
    method Register(a: Addr, ghost reg: set<Addr>, ghost live: set<Addr>)
      requires TreeHolds(reg, live) && a in live && a !in reg
      requires a in rbt.mem && rbt.mem[a].key == a && rbt.mem[a].data == a
      modifies rbt
      ensures TreeHolds(reg + {a}, live)
    {
      rbt.Insert(a);
    }

    /** `rbtree_delete` and `coro_dealloc`, in this order. */
    method Unregister(a: Addr, ghost reg: set<Addr>, ghost q: seq<Addr>, ghost live: set<Addr>)
      requires TreeHolds(reg, live) && QueueHolds(q, live) && a in reg && a in live && a !in q
      modifies rbt, queues
      ensures TreeHolds(reg - {a}, live - {a}) && QueueHolds(q, live - {a})
    {
      rbt.Delete(a);
      rbt.Free(a);
      queues.Free(a);
    }

    // ------------------------------------------------------------- the events

    /** `coro_alloc` after a successful allocation, and lines 27-32 of
        `coro_spawn`: a FREE coroutine, registered but not queued. */
    method CoroAlloc(coro: Addr, body: Script, ghost m: State)
      requires Represents(m) && coro != NULL && coro !in m.coros && coro != rbt.sentinel
      requires m.registry == m.coros.Keys && (forall c :: c in m.queue ==> c in m.coros)
      modifies this`status, this`script, rbt, queues
      ensures Represents(Spawning(m, coro)) && script == old(script)[coro := body]
    {
      hide Spawning, TreeHolds, QueueHolds, Tables;
      TablesSpawn(status, script, m, coro, body);
      script := script[coro := body];
      Build(coro, m.registry, m.queue, m.coros.Keys);
      status := status[coro := Free];
      Register(coro, m.registry, m.coros.Keys + {coro});
    }

    /** After any run, address reuse included: the tree holds exactly the
        coroutines that are allocated, each in its own node and under a key of its
        own. */
    lemma RegisteredOnce()
      requires Valid()
      ensures Nodes(rbt.shape) == status.Keys && |InOrder(rbt.shape)| == |status|
      ensures forall c :: c in status ==> c in rbt.mem && rbt.mem[c].key == c && rbt.mem[c].data == c
      ensures forall c, d :: c in status && d in status && rbt.mem[c].key == rbt.mem[d].key ==> c == d
    {
      TraceFacts(trace);
      InOrderCount(rbt.shape);
    }

    /** `coro_spawn`: false when the allocator fails. */
    method CoroSpawn(body: Script) returns (ok: bool)
      requires Valid() && (control.InMain? || control.Running? || control.Done?)
      modifies this, rbt, queues
      ensures Valid() && stop == old(stop) && control == old(control) && current == old(current)
      ensures requests == old(requests) + 1
      ensures ok <==> old(Answer()) != NULL
      ensures !ok ==> trace == old(trace) + [Refuse] && script == old(script) && bodies == old(bodies)
      ensures ok ==>
                && trace == old(trace) + [Spawn(old(Answer()))]
                && script == old(script)[old(Answer()) := body] && bodies == old(bodies) + [body]
      ensures old(Faithful() && !control.Running?) ==> Faithful()
    {
      hide Step, Runs, Exec, TreeHolds, QueueHolds, Inv, Tables, Faithfully, Answer;
      TraceFacts(trace);
      if Faithful() && !control.Running? {
        SpawnFaithful(body);
      }
      RefuseStep(Now());
      var coro := Malloc();
      if coro == NULL {
        Advance(trace, Refuse);
        trace := trace + [Refuse];
        return false;
      }
      SpawnAt(coro, body);
      ok := true;
    }

    /** Lines 27-34, the allocation having succeeded. */
    method SpawnAt(coro: Addr, body: Script)
      requires Valid() && MaySpawn(Now()) && coro != NULL && coro !in status && coro != rbt.sentinel
      modifies this`status, this`script, this`trace, this`bodies, rbt, queues
      ensures Valid() && trace == old(trace) + [Spawn(coro)]
      ensures script == old(script)[coro := body] && bodies == old(bodies) + [body]
    {
      hide Step, Runs, Exec, MakeReady, Spawning, TreeHolds, QueueHolds, Inv, Tables;
      ghost var m := Now();
      TraceFacts(trace);
      TablesKeys(status, script, m.coros);
      TablesSpawn(status, script, m, coro, body);
      SpawnSteps(m, coro);
      CoroAlloc(coro, body, m);
      CoroReady(coro, Spawning(m, coro));
      Advance(trace, Spawn(coro));
      trace := trace + [Spawn(coro)];
      bodies := bodies + [body];
    }

    lemma AnswerUsable()
      requires Valid()
      ensures Answer() == Usable(answers(requests), Now().coros.Keys + {rbt.sentinel})
    {
    }

    /** A spawn by main keeps faith with the bodies. */
    lemma SpawnFaithful(body: Script)
      requires Valid() && Faithful() && (control.InMain? || control.Done?)
      ensures Runs(INIT, trace + [Refuse])
      ensures Answer() == NULL ==>
                Faithfully(answers, rbt.sentinel, bodies, script, requests + 1, trace + [Refuse])
      ensures Answer() != NULL ==>
                && Runs(INIT, trace + [Spawn(Answer())])
                && Faithfully(answers, rbt.sentinel, bodies + [body], script[Answer() := body], requests + 1,
                              trace + [Spawn(Answer())])
    {
      hide Runs, Exec, TreeHolds, QueueHolds, Inv, Faithfully;
      AnswerUsable();
      TraceFacts(trace);
      var e := if Answer() == NULL then Refuse else Spawn(Answer());
      FaithfulStep(answers, rbt.sentinel, bodies, script, requests, trace, e, body);
      Advance(trace, Refuse);
    }

    /** `coro_yield` by the running coroutine. Its assertion, that the caller is
        the current coroutine, is proved, not assumed. */
    method CoroYield(co: Addr)
      requires Valid() && control == Running(co)
      modifies this`status, this`control, this`trace, queues
      ensures Valid() && control.Back? && trace == old(trace) + [Yield]
    {
      hide Step, Runs, Exec, MakeReady, TreeHolds, QueueHolds, Inv;
      TraceFacts(trace);
      ghost var m := Now();
      assert co == current;
      assert Enabled(m, Yield) && Step(m, Yield) == MakeReady(m, co).(control := Back) by {
        YieldStep(m);
      }
      CoroReady(co, m);
      control := Back;
      Advance(trace, Yield);
      trace := trace + [Yield];
    }

    /** `coro_exit` by the running coroutine. */
    method CoroExit(co: Addr)
      requires Valid() && control == Running(co)
      modifies this`status, this`control, this`trace
      ensures Valid() && control.Back? && trace == old(trace) + [Leave]
    {
      hide Runs, Exec, TreeHolds, QueueHolds, Inv;
      TraceFacts(trace);
      assert co == current;
      TablesSet(status, script, Now(), co, Exit);
      status := status[co := Exit];
      control := Back;
      Advance(trace, Leave);
      trace := trace + [Leave];
    }

    /** `env_stop` */
    method EnvStop()
      requires Valid()
      modifies this`stop, this`trace
      ensures Valid() && stop && trace == old(trace) + [Stop]
      ensures old(Faithful() && !control.Running?) ==> Faithful()
    {
      hide Runs, Exec, TreeHolds, QueueHolds, Inv, Faithfully;
      if Faithful() && !control.Running? {
        OwnFaithful(Stop);
      }
      stop := true;
      Advance(trace, Stop);
      trace := trace + [Stop];
    }

    /** `sched_has_task` */
    method HasTask(ghost q: seq<Addr>, ghost live: set<Addr>) returns (r: bool)
      requires QueueHolds(q, live)
      ensures r <==> q != []
    {
      r := !queues.Empty(WAIT);
    }

    /** Lines 58-66 of src/cs_scheduler.c, `c` being off the queue already. */
    method SwitchTo(c: Addr, ghost m: State)
      requires m.queue != [] && m.queue[0] in m.coros && c == m.queue[0] && current in m.coros
      requires Represents(m.(queue := m.queue[1..])) && current !in m.queue[1..] && m.coros[current].status != Exit
      modifies this`status, this`current, this`control, queues
      ensures m.current == old(current) && Represents(SwitchDirect(m))
    {
      hide TreeHolds, QueueHolds;
      CoroReady(current, m.(queue := m.queue[1..]));
      current := c;
      control := Running(c);
    }

    /** One round of the loop of `sched_run_once`, lines 47-67. `again` is its
        `continue`, taken for an exited coroutine. */
    method RunOnceRound(ghost m: State) returns (again: bool)
      requires Represents(m) && !m.stop
      requires m.current in m.coros && m.current !in m.queue && m.coros[m.current].status != Exit
      requires forall c :: c in m.queue ==> c in m.coros
      modifies this`status, this`current, this`control, queues
      ensures again ==>
                && m.queue != [] && RunDirect(m) == RunDirect(m.(queue := m.queue[1..]))
                && Represents(m.(queue := m.queue[1..]))
      ensures !again ==> Represents(RunDirect(m))
    {
      hide MakeReady, TakeFirst, SwitchDirect, RunDirect, TreeHolds, QueueHolds;
      RunDirectOnce(m);
      var some := HasTask(m.queue, m.coros.Keys);
      if !some {
        return false;
      }
      var c := Pop(m.queue, m.coros.Keys);
      if status[c] == Exit {
        return true;
      }
      SwitchTo(c, m);
      again := false;
    }

    /** `sched_run_once`, called by the running coroutine. */
    method RunOnceNow()
      requires Valid() && control.Running?
      modifies this`status, this`current, this`control, this`trace, queues
      ensures Valid() && control.Running? && trace == old(trace) + [RunOnce]
    {
      hide Step, Runs, Exec, RunDirect, TreeHolds, QueueHolds, Inv, Enabled, Tables;
      TraceFacts(trace);
      ghost var m := Now();
      RunOnceStep(m);
      RunDirectOnce(m);
      RunDirectRuns(m);
      var again := true;
      while !stop && again
        invariant trace == old(trace) && m.control == old(Now()).control && m.current == old(Now()).current
        invariant if again then Represents(m) else Represents(RunDirect(old(Now())))
        invariant m.current in m.coros && m.current !in m.queue && m.coros[m.current].status != Exit
        invariant forall c :: c in m.queue ==> c in m.coros
        invariant again ==> RunDirect(m) == RunDirect(old(Now())) && (m.stop ==> RunDirect(m) == m)
        decreases again, |m.queue|
      {
        again := RunOnceRound(m);
        if again {
          m := m.(queue := m.queue[1..]);
        }
      }
      Advance(trace, RunOnce);
      trace := trace + [RunOnce];
    }

    // ------------------------------------------------- bodies and the main loop

    /** The running coroutine performs the next action of its body, which is then
        gone from its script; a coroutine that it launches has the child as its
        script, and no other script changes. That lowers the work left. */
    method Act()
      requires Valid() && control.Running?
      modifies this, rbt, queues
      ensures Valid() && (control.Running? || control.Back?)
      ensures old(current in script)
      ensures var b, a := old(if current in script then script[current] else End), old(Answer());
              var kept := old(script)[old(current) := if b.End? then End else b.rest];
              && trace == old(trace) + [EventOf(b, a)]
              && script == (if b.Launch? && a != NULL then kept[a := b.child] else kept)
              && bodies == (if b.Launch? && a != NULL then old(bodies) + [b.child] else old(bodies))
              && requests == old(requests) + if b.Launch? then 1 else 0
      ensures old(Faithful()) ==> Faithful()
      ensures Load(script, Now()) < old(Load(script, Now()))
      ensures Now().held == old(Now().held)
      ensures old(AllSimple(script) && NoDirect(trace)) ==> AllSimple(script) && NoDirect(trace) && stop == old(stop)
      ensures old(AllNoHalt(script)) ==> AllNoHalt(script) && stop == old(stop)
    {
      hide Step, Runs, Exec, Load, TreeHolds, QueueHolds, Inv, Enabled, Tables, NoDirect, AllSimple, AllNoHalt,
           Faithfully, Answer, EventOf;
      TraceFacts(trace);
      ghost var m0 := Now();
      TablesKeys(status, script, m0.coros);
      var body := script[current];
      if Faithful() {
        ActFaithful();
      }
      LoadConsumed(script, m0, if body.End? then End else body.rest);
      SimpleConsumed(script, current);
      NoHaltConsumed(script, current);
      if !body.End? {
        TablesRest(status, script, m0.coros, current, body.rest);
        script := script[current := body.rest];
      } else {
        assert script[current := End] == script;
      }
      Perform(body);
    }

    /** One action of the running coroutine, which is off its script already. */
    method Perform(body: Script)
      requires Valid() && control.Running?
      modifies this, rbt, queues
      ensures Valid() && (control.Running? || control.Back?)
      ensures var a := old(Answer());
              && trace == old(trace) + [EventOf(body, a)]
              && script == (if body.Launch? && a != NULL then old(script)[a := body.child] else old(script))
              && bodies == (if body.Launch? && a != NULL then old(bodies) + [body.child] else old(bodies))
              && requests == old(requests) + if body.Launch? then 1 else 0
      ensures Load(script, Now()) <= old(Load(script, Now())) + if body.Launch? then Actions(body.child) else 0
      ensures body.End? ==> Load(script, Now()) < old(Load(script, Now()))
      ensures Now().held == old(Now().held)
      ensures old(AllSimple(script) && NoDirect(trace)) && !body.Direct? && !body.Halt?
              && (body.Launch? ==> Simple(body.child)) ==>
                AllSimple(script) && NoDirect(trace)
      ensures old(AllNoHalt(script)) && (body.Launch? ==> NoHalt(body.child)) ==> AllNoHalt(script)
      ensures !body.Halt? ==> stop == old(stop)
    {
      hide Step, Runs, Exec, Load, TreeHolds, QueueHolds, Inv, Enabled, Tables, NoDirect, AllSimple, AllNoHalt,
           Faithfully, Answer;
      TraceFacts(trace);
      TablesKeys(status, script, Now().coros);
      NoDirectMore(trace);
      match body
      case End =>
        LoadStepAt(trace, script, Leave);
        CoroExit(current);
      case Pause(_) =>
        LoadStepAt(trace, script, Yield);
        CoroYield(current);
      case Launch(child, _) =>
        LaunchNow(child);
      case Direct(_) =>
        LoadStepAt(trace, script, RunOnce);
        RunOnceNow();
      case Halt(_) =>
        LoadStepAt(trace, script, Stop);
        EnvStop();
    }

    /** A spawn by the running coroutine. */
    method LaunchNow(child: Script)
      requires Valid() && control.Running?
      modifies this, rbt, queues
      ensures Valid() && stop == old(stop) && control == old(control)
      ensures var a := old(Answer());
              && trace == old(trace) + [if a == NULL then Refuse else Spawn(a)]
              && script == (if a != NULL then old(script)[a := child] else old(script))
              && bodies == (if a != NULL then old(bodies) + [child] else old(bodies))
              && requests == old(requests) + 1
      ensures Load(script, Now()) <= old(Load(script, Now())) + Actions(child)
      ensures Now().held == old(Now().held)
      ensures old(AllSimple(script)) && Simple(child) ==> AllSimple(script)
      ensures old(AllNoHalt(script)) && NoHalt(child) ==> AllNoHalt(script)
      ensures old(NoDirect(trace)) ==> NoDirect(trace)
    {
      hide Step, Runs, Exec, Load, TreeHolds, QueueHolds, Inv, Enabled, Tables, NoDirect, AllSimple, AllNoHalt,
           Faithfully, Answer;
      ghost var m, t, scr, a := Now(), trace, script, Answer();
      TraceFacts(trace);
      TablesKeys(status, script, m.coros);
      NoDirectMore(trace);
      SimpleMore(script, a, child);
      NoHaltMore(script, a, child);
      var ok := CoroSpawn(child);
      if ok {
        SpawnSteps(m, a);
        LoadSpawnAt(t, scr, a, child);
      } else {
        LoadStepAt(t, scr, Refuse);
      }
    }

    /** What a body does next keeps faith with it. */
    lemma ActFaithful()
      requires Valid() && Faithful() && control.Running? && current in script
      ensures Runs(INIT, trace + [EventOf(script[current], Answer())])
      ensures var b, a := script[current], Answer();
              Faithfully(answers, rbt.sentinel, if b.Launch? && a != NULL then bodies + [b.child] else bodies,
                         ScriptAfter(script, current, a), requests + if b.Launch? then 1 else 0,
                         trace + [EventOf(b, a)])
    {
      hide Runs, Exec, TreeHolds, QueueHolds, Inv, Faithfully;
      AnswerUsable();
      TraceFacts(trace);
      var b, a := script[current], Answer();
      var e, child := EventOf(b, a), if b.Launch? then b.child else End;
      EventObeys(script, Now(), a, child);
      assert Enabled(Now(), e);
      FaithfulStep(answers, rbt.sentinel, bodies, script, requests, trace, e, child);
      assert script[current := script[current]] == script;
    }

    /** `coro_switch` from `sched_run` to a coroutine: bodies run, perhaps one
        after the other by direct switches, until one switches back. Nothing
        happens but what their scripts say; `n` events were before `sched_run`. */
    method RunBodies(ghost n: nat)
      requires Valid() && control.Running? && n <= |trace| && NobodyElse(trace, n)
      modifies this, rbt, queues
      ensures Valid() && control.Back?
      ensures old(trace) <= trace && old(bodies) <= bodies && NobodyElse(trace, n)
      ensures old(Faithful()) ==> Faithful()
      ensures Load(script, Now()) < old(Load(script, Now()))
      ensures Now().held == old(Now().held)
      ensures old(AllSimple(script) && NoDirect(trace)) ==> AllSimple(script) && NoDirect(trace) && stop == old(stop)
      ensures old(AllNoHalt(script)) ==> AllNoHalt(script) && stop == old(stop)
    {
      hide Runs, Exec, Load, Represents, NoDirect, AllSimple, AllNoHalt, Faithfully, NobodyElse, EventOf;
      ActAsBodies(n);
      while control.Running?
        invariant Valid() && (control.Running? || control.Back?)
        invariant old(trace) <= trace && old(bodies) <= bodies && NobodyElse(trace, n)
        invariant old(Faithful()) ==> Faithful()
        invariant Load(script, Now()) < old(Load(script, Now()))
        invariant Now().held == old(Now().held)
        invariant old(AllSimple(script) && NoDirect(trace)) ==>
                    AllSimple(script) && NoDirect(trace) && stop == old(stop)
        invariant old(AllNoHalt(script)) ==> AllNoHalt(script) && stop == old(stop)
        decreases Load(script, Now())
      {
        ActAsBodies(n);
      }
    }

    /** Act, as one of the events after the first `n`. */
    method ActAsBodies(ghost n: nat)
      requires Valid() && control.Running? && n <= |trace| && NobodyElse(trace, n)
      modifies this, rbt, queues
      ensures Valid() && (control.Running? || control.Back?)
      ensures old(trace) <= trace && old(bodies) <= bodies && NobodyElse(trace, n)
      ensures old(Faithful()) ==> Faithful()
      ensures Load(script, Now()) < old(Load(script, Now()))
      ensures Now().held == old(Now().held)
      ensures old(AllSimple(script) && NoDirect(trace)) ==> AllSimple(script) && NoDirect(trace) && stop == old(stop)
      ensures old(AllNoHalt(script)) ==> AllNoHalt(script) && stop == old(stop)
    {
      hide Runs, Exec, Load, NoDirect, AllSimple, AllNoHalt, Faithfully, NobodyElse, EventOf, TreeHolds,
           QueueHolds, Tables;
      ghost var t := trace;
      ghost var b, a := if current in script then script[current] else End, Answer();
      NobodyElseAppend(t, n, EventOf(b, a));
      Act();
    }

    /** Events of `sched_run` itself, and a stop by main, keep faith with the
        bodies. */
    lemma OwnFaithful(e: Event)
      requires Valid() && Faithful() && !control.Running? && Enabled(Now(), e)
      requires e.Start? || e.Dispatch? || e.Reap? || e.Finish? || e.Stop?
      ensures Runs(INIT, trace + [e])
      ensures var c := Now().held;
              Faithfully(answers, rbt.sentinel, bodies,
                         if e.Reap? && c in status && status[c] == Exit then script - {c} else script,
                         requests, trace + [e])
    {
      hide Runs, Exec, TreeHolds, QueueHolds, Inv, Faithfully;
      FaithfulStep(answers, rbt.sentinel, bodies, script, requests, trace, e, End);
    }

    /** Lines 79-91 of `sched_run`: the first of the queue becomes current. */
    method TakeTurn() returns (c: Addr)
      requires Valid() && control.AtLoop? && !stop
      modifies this`status, this`current, this`control, this`trace, queues
      ensures Valid() && script == old(script) && (old(Faithful()) ==> Faithful())
      ensures old(Now().queue) == [] ==> c == NULL && trace == old(trace) && control.AtLoop?
      ensures old(Now().queue) != [] ==>
                c != NULL && control == Running(c) && trace == old(trace) + [Dispatch] && Now().held == c
    {
      hide Runs, Exec, TreeHolds, QueueHolds, Inv, Tables, Faithfully;
      TraceFacts(trace);
      ghost var m := Now();
      if Faithful() && m.queue != [] {
        OwnFaithful(Dispatch);
      }
      c := Pop(m.queue, m.coros.Keys);
      if c == NULL {
        return;
      }
      TablesSet(status, script, m, c, Run);
      status := status[c := Run];
      current := c;
      control := Running(c);
      Advance(trace, Dispatch);
      trace := trace + [Dispatch];
    }

    /** Lines 93-97: an exited coroutine held by `sched_run` is reclaimed. */
    method ReapHeld(c: Addr)
      requires Valid() && control.Back? && Now().held == c
      modifies this`status, this`script, this`current, this`control, this`trace, rbt, queues
      ensures Valid() && control.AtLoop? && trace == old(trace) + [Reap]
      ensures old(c in status)
      ensures script == if old(c in status && status[c] == Exit) then old(script) - {c} else old(script)
      ensures Load(script, Now()) == old(Load(script, Now()))
    {
      hide Runs, Exec, TreeHolds, QueueHolds, Inv, Tables, Load;
      TraceFacts(trace);
      ghost var m := Now();
      TablesKeys(status, script, m.coros);
      ReapLoad(trace, script, c);
      TablesFree(status, script, m.coros, c);
      Advance(trace, Reap);
      TablesStatus(status, script, m.coros, c);
      current := NULL;
      if status[c] == Exit {
        Unregister(c, m.registry, m.queue, m.coros.Keys);
        status := status - {c};
        script := script - {c};
      }
      control := AtLoop;
      trace := trace + [Reap];
    }

    /** `sched_run`, once `env_run` has transferred to it. It ends, whatever the
        bodies do. All that happens is its own starting, dispatching, reaping and
        finishing and what the bodies say; unless a body stops the environment, it
        ends with an empty queue. Every coroutine ever spawned has then been freed,
        once, or is registered; if nobody stopped the scheduler, those registered
        have exited and every coroutine ever spawned has done its whole body; if
        moreover no body ever switched directly, none is registered, and the tree
        is empty. */
    method SchedRun()
      requires Valid() && control.InMain?
      modifies this, rbt, queues
      ensures Valid() && control.Done?
      ensures old(trace) <= trace && old(bodies) <= bodies && NobodyElse(trace, |old(trace)|)
      ensures old(Faithful()) ==> Faithful()
      ensures old(Faithful()) && !stop ==> AllCarriedOut(bodies, trace)
      ensures old(!stop && AllNoHalt(script)) ==> !stop
      ensures !stop ==> Now().queue == [] && forall c :: c in status ==> status[c] == Exit
      ensures Nodes(rbt.shape) == status.Keys == queues.entries.Keys
      ensures AllAccounted(Now())
      ensures old(AllSimple(script) && NoDirect(trace) && !stop) ==>
                && !stop && rbt.shape == Leaf && rbt.root == rbt.sentinel
                && status == map[] && queues.entries == map[]
                && forall u: nat :: multiset(Now().freed)[u] == if u < Now().spawned then 1 else 0
    {
      hide Runs, Exec, Load, TreeHolds, QueueHolds, Inv, Tables, NoDirect, AllSimple, AllNoHalt, AllAccounted,
           Faithfully, NobodyElse, AllCarriedOut;
      ghost var simple := AllSimple(script) && NoDirect(trace) && !stop;
      ghost var n, running, faithful := |trace|, !stop && AllNoHalt(script), Faithful();
      Begin();
      while !stop
        invariant Valid() && control.AtLoop?
        invariant simple ==> AllSimple(script) && NoDirect(trace) && !stop
        invariant running ==> AllNoHalt(script) && !stop
        invariant old(trace) <= trace && old(bodies) <= bodies && NobodyElse(trace, n)
        invariant faithful ==> Faithful()
        decreases Load(script, Now())
      {
        var some := Round(n);
        if !some {
          break;
        }
      }
      if simple {
        DrainedMeansReclaimed(trace);
        EmptyTables();
      }
      NobodyElseAppend(trace, n, Finish);
      Depart();
      if faithful && !stop {
        BodiesDone();
      }
    }

    lemma ReapEnabled()
      requires Valid() && control.Back?
      ensures Enabled(Now(), Reap)
    {
      hide TreeHolds, QueueHolds, Tables;
      TraceFacts(trace);
    }

    /** `sched_run` is entered. */
    method Begin()
      requires Valid() && control.InMain?
      modifies this`control, this`trace
      ensures Valid() && control.AtLoop? && trace == old(trace) + [Start] && NobodyElse(trace, |old(trace)|)
      ensures old(Faithful()) ==> Faithful()
      ensures old(NoDirect(trace)) ==> NoDirect(trace)
    {
      hide Runs, Exec, TreeHolds, QueueHolds, Inv, Tables, NoDirect, Faithfully, NobodyElse;
      if Faithful() {
        OwnFaithful(Start);
      }
      NoDirectMore(trace);
      NobodyElseNone(trace);
      NobodyElseAppend(trace, |trace|, Start);
      Advance(trace, Start);
      control := AtLoop;
      trace := trace + [Start];
    }

    /** One round of the loop of `sched_run`, lines 79-97: false if nobody waits. */
    method Round(ghost n: nat) returns (some: bool)
      requires Valid() && control.AtLoop? && !stop && n <= |trace| && NobodyElse(trace, n)
      modifies this, rbt, queues
      ensures Valid() && control.AtLoop?
      ensures some <==> old(Now().queue) != []
      ensures some ==> old(trace) + [Dispatch] <= trace && trace[|trace| - 1] == Reap
      ensures !some ==> trace == old(trace) && script == old(script) && stop == old(stop) && bodies == old(bodies)
      ensures old(trace) <= trace && old(bodies) <= bodies && NobodyElse(trace, n)
      ensures old(Faithful()) ==> Faithful()
      ensures some ==> Load(script, Now()) < old(Load(script, Now()))
      ensures old(AllSimple(script) && NoDirect(trace)) ==> AllSimple(script) && NoDirect(trace) && stop == old(stop)
      ensures old(AllNoHalt(script)) ==> AllNoHalt(script) && stop == old(stop)
    {
      hide Runs, Exec, Load, TreeHolds, QueueHolds, Inv, Tables, NoDirect, AllSimple, AllNoHalt, AllAccounted,
           Faithfully, NobodyElse;
      ghost var t, scr := trace, script;
      NoDirectMore(trace);
      TablesKeys(status, script, Now().coros);
      NobodyElseAppend(trace, n, Dispatch);
      var c := TakeTurn();
      if c == NULL {
        return false;
      }
      DispatchLoad(t, scr);
      RunBodies(n);
      NoDirectMore(trace);
      SimpleLess(script, c);
      NoHaltLess(script, c);
      NobodyElseAppend(trace, n, Reap);
      if Faithful() {
        ReapEnabled();
        OwnFaithful(Reap);
      }
      ReapHeld(c);
      some := true;
    }

    /** With everyone who is left exited, all bodies are done. */
    lemma BodiesDone()
      requires Valid() && Faithful() && forall c :: c in status ==> status[c] == Exit
      ensures AllCarriedOut(bodies, trace)
    {
      hide Runs, Exec, TreeHolds, QueueHolds, Loyal, Whole, Deeds;
      forall u | 0 <= u < |bodies|
        ensures Whole(bodies[u], Deeds(bodies, trace, u))
      {
        AllWhole(bodies, script, trace, u);
      }
    }

    /** Lines 99-100: `sched_run` is over. */
    method Depart()
      requires Valid() && control.AtLoop? && (stop || Now().queue == [])
      modifies this`control, this`trace
      ensures Valid() && control.Done? && Now() == old(Now()).(control := Done) && trace == old(trace) + [Finish]
      ensures old(Faithful()) ==> Faithful()
      ensures !stop ==> Now().queue == [] && forall c :: c in status ==> status[c] == Exit
      ensures Nodes(rbt.shape) == status.Keys == queues.entries.Keys
      ensures AllAccounted(Now())
    {
      hide Runs, Exec, TreeHolds, QueueHolds, Inv, Tables, AllAccounted, Faithfully;
      if Faithful() {
        OwnFaithful(Finish);
      }
      DrainedMeansExited(trace);
      LeftOver();
      assert AllAccounted(Now().(control := Done)) by {
        AccountedAlike(Now(), Now().(control := Done));
      }
      Advance(trace, Finish);
      control := Done;
      trace := trace + [Finish];
    }

    /** What the structures say of the coroutines that are still there. */
    lemma LeftOver()
      requires Valid() && Now().registry == Now().coros.Keys
      ensures Nodes(rbt.shape) == status.Keys == queues.entries.Keys
      ensures status.Keys == Now().coros.Keys && forall c :: c in status ==> status[c] == Now().coros[c].status
    {
      hide Runs, Exec, RbTree.Rbtree.Valid;
    }

    /** With nobody registered the tree and the tables are empty. */
    lemma EmptyTables()
      requires Valid() && Now().registry == {} && Now().coros == map[]
      ensures rbt.shape == Leaf && rbt.root == rbt.sentinel && status == map[] && queues.entries == map[]
    {
    }
  }
}
