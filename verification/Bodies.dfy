/** Bodies of coroutines as scripts, and what it means that a run of the scheduler
    carries them out. */
module Bodies {
  import opened Basics
  import opened SchedulerModel

  /** What the body of a coroutine still has to do. A body never returns: it ends
      in `coro_exit`. */
  datatype Script =
    | End
    | Pause(rest: Script)                  // coro_yield
    | Launch(child: Script, rest: Script)  // coro_spawn
    | Direct(rest: Script)                 // sched_run_once
    | Halt(rest: Script)                   // env_stop

  /** What a coroutine does to the scheduler. */
  datatype Deed = Yields | Leaves | Switches | Stops | Spawns(child: Script) | Fails

  /** The deed that a body has next; a spawn may fail. */
  predicate Fits(b: Script, d: Deed) {
    match b
    case End => d == Leaves
    case Pause(_) => d == Yields
    case Launch(child, _) => d == Spawns(child) || d == Fails
    case Direct(_) => d == Switches
    case Halt(_) => d == Stops
  }

  /** Carrying out `b` by the deeds `ds` leaves `rest`. */
  predicate Leads(b: Script, ds: seq<Deed>, rest: Script)
    decreases |ds|
  {
    if ds == [] then rest == b
    else !b.End? && Fits(b, ds[0]) && Leads(b.rest, ds[1..], rest)
  }

  /** The deeds are the whole of `b`, its exit included. */
  predicate Whole(b: Script, ds: seq<Deed>) {
    ds != [] && ds[|ds| - 1] == Leaves && Leads(b, ds[..|ds| - 1], End)
  }

  /** The deeds of `b` in order, its exit last, if every spawn succeeds. */
  function Outline(b: Script): (r: seq<Deed>) {
    match b
    case End => [Leaves]
    case Pause(rest) => [Yields] + Outline(rest)
    case Launch(child, rest) => [Spawns(child)] + Outline(rest)
    case Direct(rest) => [Switches] + Outline(rest)
    case Halt(rest) => [Stops] + Outline(rest)
  }

  predicate SameDeed(d: Deed, planned: Deed) {
    d == planned || (d == Fails && planned.Spawns?)
  }

  /** Whole means: one deed for each of the outline, in order. */
  lemma {:induction false} WholeMeans(b: Script, ds: seq<Deed>)
    ensures Whole(b, ds) <==>
            |ds| == |Outline(b)| && forall i :: 0 <= i < |ds| ==> SameDeed(ds[i], Outline(b)[i])
    decreases b
  {
    var o := Outline(b);
    if b.End? {
      assert Whole(b, ds) <==> ds == [Leaves];
    } else if |ds| < 2 {
      OutlineEnds(b.rest);
    } else {
      var n := |ds| - 1;
      WholeMeans(b.rest, ds[1..]);
      assert ds[..n][1..] == ds[1..][..n - 1];
      assert Whole(b, ds) <==> Fits(b, ds[0]) && Whole(b.rest, ds[1..]);
      assert Fits(b, ds[0]) <==> SameDeed(ds[0], o[0]);
      assert o[1..] == Outline(b.rest);
      if |ds| == |o| {
        TailSame(ds, o);
      }
    }
  }

  lemma OutlineEnds(b: Script)
    ensures Outline(b) != []
  {
  }

  lemma TailSame(ds: seq<Deed>, o: seq<Deed>)
    requires ds != [] && |ds| == |o|
    ensures (forall i :: 0 <= i < |ds| ==> SameDeed(ds[i], o[i])) <==>
            SameDeed(ds[0], o[0]) && forall i :: 0 <= i < |ds[1..]| ==> SameDeed(ds[1..][i], o[1..][i])
  {
    if forall i :: 0 <= i < |ds[1..]| ==> SameDeed(ds[1..][i], o[1..][i]) {
      assert forall i :: 1 <= i < |ds| ==> ds[i] == ds[1..][i - 1] && o[i] == o[1..][i - 1];
    }
  }

  lemma {:induction false} LeadsOn(b: Script, ds: seq<Deed>, rest: Script, d: Deed)
    requires Leads(b, ds, rest) && !rest.End? && Fits(rest, d)
    ensures Leads(b, ds + [d], rest.rest)
    decreases |ds|
  {
    if ds == [] {
      assert [d][1..] == [];
    } else {
      LeadsOn(b.rest, ds[1..], rest, d);
      assert (ds + [d])[1..] == ds[1..] + [d];
    }
  }

  // ----------------------------------------------- what a run did for each body

  /** The deed that an event is when a coroutine performs it; `child` is the body
      of the one spawned. */
  function DeedOf(e: Event, child: Script): seq<Deed> {
    match e
    case Spawn(_) => [Spawns(child)]
    case Refuse => [Fails]
    case Yield => [Yields]
    case Leave => [Leaves]
    case RunOnce => [Switches]
    case Stop => [Stops]
    case _ => []
  }

  /** Coroutine number `u` has control. */
  predicate Performs(s: State, u: nat) {
    s.control.Running? && s.current in s.coros && s.coros[s.current].uid == u
  }

  function BodyOf(bodies: seq<Script>, u: nat): Script {
    if u < |bodies| then bodies[u] else End
  }

  /** What coroutine number `u` did in a run, in order. `bodies` are the bodies of
      those spawned, by number. */
  function Deeds(bodies: seq<Script>, es: seq<Event>, u: nat): seq<Deed>
    decreases |es|
  {
    if es == [] then []
    else
      var n := |es| - 1;
      Deeds(bodies, es[..n], u)
      + if Runs(INIT, es[..n]) && Performs(Exec(INIT, es[..n]), u)
        then DeedOf(es[n], BodyOf(bodies, Exec(INIT, es[..n]).spawned))
        else []
  }

  /** The run has done so far, for each coroutine ever spawned, what its body says,
      in order: all of it if the coroutine has exited, otherwise a part that leaves
      `script` to be done. */
  ghost predicate Loyal(bodies: seq<Script>, script: map<Addr, Script>, es: seq<Event>)
    requires Runs(INIT, es)
  {
    var s := Exec(INIT, es);
    && |bodies| == s.spawned && script.Keys == s.coros.Keys
    && (forall u :: u in s.freed ==> u < |bodies| && Whole(bodies[u], Deeds(bodies, es, u)))
    && (forall c :: c in s.coros ==> s.coros[c].uid < |bodies| && OnTrack(bodies, script, es, s, c))
  }

  /** Of one that is still there. */
  predicate OnTrack(bodies: seq<Script>, script: map<Addr, Script>, es: seq<Event>, s: State, c: Addr)
    requires c in s.coros && c in script && s.coros[c].uid < |bodies|
  {
    var u := s.coros[c].uid;
    if s.coros[c].status == Exit then Whole(bodies[u], Deeds(bodies, es, u))
    else Leads(bodies[u], Deeds(bodies, es, u), script[c])
  }

  lemma DeedsAppend(bodies: seq<Script>, es: seq<Event>, e: Event, u: nat)
    requires Runs(INIT, es)
    ensures Deeds(bodies, es + [e], u) ==
            Deeds(bodies, es, u)
            + if Performs(Exec(INIT, es), u) then DeedOf(e, BodyOf(bodies, Exec(INIT, es).spawned)) else []
  {
    assert (es + [e])[..|es|] == es;
  }

  /** Those spawned later do not matter. */
  lemma {:induction false} DeedsMore(bodies: seq<Script>, b: Script, es: seq<Event>, u: nat)
    requires Runs(INIT, es) && Exec(INIT, es).spawned <= |bodies|
    ensures Deeds(bodies + [b], es, u) == Deeds(bodies, es, u)
    decreases |es|
  {
    hide Step, Enabled, Runs, Exec;
    if es != [] {
      var n := |es| - 1;
      LastStep(es);
      SpawnedCounts(Exec(INIT, es[..n]), es[n]);
      DeedsMore(bodies, b, es[..n], u);
      assert es[..n] + [es[n]] == es;
      DeedsAppend(bodies, es[..n], es[n], u);
      DeedsAppend(bodies + [b], es[..n], es[n], u);
    }
  }

  /** Before it is spawned, a coroutine does nothing. */
  lemma {:induction false} NotYetSpawned(bodies: seq<Script>, es: seq<Event>, u: nat)
    requires Runs(INIT, es) && Exec(INIT, es).spawned <= u
    ensures Deeds(bodies, es, u) == []
    decreases |es|
  {
    hide Step, Enabled, Runs, Exec;
    if es != [] {
      var n := |es| - 1;
      LastStep(es);
      SpawnedCounts(Exec(INIT, es[..n]), es[n]);
      NotYetSpawned(bodies, es[..n], u);
    }
  }

  lemma SpawnedCounts(s: State, e: Event)
    requires Inv(s) && Enabled(s, e)
    ensures Step(s, e).spawned == if e.Spawn? then s.spawned + 1 else s.spawned
  {
    if e.RunOnce? {
      RunDirectNeverSkips(s);
    }
  }

  // ------------------------------------------------------ one event at a time

  /** What is left to do after event `e` of state `s`, if whoever runs does what its
      script has next; `child` is the body of the one spawned. */
  function Remaining(script: map<Addr, Script>, s: State, e: Event, child: Script): map<Addr, Script>
    requires Enabled(s, e)
  {
    var script' :=
      if s.control.Running? && s.current in script && !script[s.current].End?
      then script[s.current := script[s.current].rest]
      else script;
    if e.Spawn? then script'[e.a := child]
    else if e.Reap? && s.coros[s.held].status == Exit then script' - {s.held}
    else script'
  }

  /** The bodies by number after it. */
  function Enrolled(bodies: seq<Script>, e: Event, child: Script): seq<Script> {
    if e.Spawn? then bodies + [child] else bodies
  }

  /** Who is there, exited or freed after an event. */
  lemma StepFacts(s: State, e: Event)
    requires Inv(s) && Enabled(s, e)
    ensures var s' := Step(s, e);
            && (forall c :: c in s.coros && c in s'.coros ==>
                  && s'.coros[c].uid == s.coros[c].uid
                  && (s'.coros[c].status == Exit <==> s.coros[c].status == Exit || (e.Leave? && c == s.current)))
            && s'.coros.Keys == (if e.Spawn? then s.coros.Keys + {e.a}
                                 else if e.Reap? && s.coros[s.held].status == Exit then s.coros.Keys - {s.held}
                                 else s.coros.Keys)
            && (e.Spawn? ==> e.a !in s.coros && s'.coros[e.a] == Coro(s.spawned, Ready))
            && s'.freed == s.freed + if e.Reap? && s.coros[s.held].status == Exit then [s.coros[s.held].uid] else []
  {
    hide Accounts, Fifo;
    if e.RunOnce? {
      RunDirectNeverSkips(s);
      hide RunDirect;
    }
  }

  lemma RunningFact(s: State)
    requires Inv(s) && s.control.Running?
    ensures s.current in s.coros && s.coros[s.current].status != Exit
  {
  }

  lemma NumbersApart(s: State, c: Addr)
    requires Inv(s) && c in s.coros
    ensures s.coros[c].uid < s.spawned && s.coros[c].uid !in s.freed
    ensures forall d :: d in s.coros && s.coros[d].uid == s.coros[c].uid ==> d == c
  {
  }

  /** The event is what the script of the running coroutine has next. */
  predicate Obeys(script: map<Addr, Script>, s: State, e: Event, child: Script) {
    s.control.Running? ==> s.current in script && forall d :: d in DeedOf(e, child) ==> Fits(script[s.current], d)
  }

  /** A run stays true to the bodies by an event that a script has next, and by
      any event while no coroutine runs. */
  lemma LoyalStep(bodies: seq<Script>, script: map<Addr, Script>, es: seq<Event>, e: Event, child: Script)
    requires Runs(INIT, es) && Loyal(bodies, script, es)
    requires Enabled(Exec(INIT, es), e) && Obeys(script, Exec(INIT, es), e, child)
    ensures Runs(INIT, es + [e])
    ensures Loyal(Enrolled(bodies, e, child), Remaining(script, Exec(INIT, es), e, child), es + [e])
  {
    hide Step, Enabled, Runs, Exec, Deeds, Whole, Leads, Fits, Inv, OnTrack, Performs, Obeys;
    var s := Exec(INIT, es);
    var bodies', script', es' := Enrolled(bodies, e, child), Remaining(script, s, e, child), es + [e];
    InitInv();
    RunKeeps(INIT, es);
    RunsAppend(INIT, es, e);
    var s' := Step(s, e);
    StepKeeps(s, e);
    StepFacts(s, e);
    SpawnedCounts(s, e);
    assert script'.Keys == s'.coros.Keys by {
      RemainingKeys(script, s, e, child);
    }
    forall u | u in s'.freed
      ensures u < |bodies'| && Whole(bodies'[u], Deeds(bodies', es', u))
    {
      FreedDone(bodies, script, es, e, child, u);
    }
    forall c | c in s'.coros
      ensures s'.coros[c].uid < |bodies'| && OnTrack(bodies', script', es', s', c)
    {
      NumbersApart(s', c);
      StaysOnTrack(bodies, script, es, e, child, c);
    }
  }

  lemma RemainingKeys(script: map<Addr, Script>, s: State, e: Event, child: Script)
    requires Inv(s) && Enabled(s, e) && script.Keys == s.coros.Keys
    ensures Remaining(script, s, e, child).Keys == Step(s, e).coros.Keys
  {
    hide Inv, Step;
    StepFacts(s, e);
  }

  /** What an event adds to the deeds of a coroutine. */
  lemma DeedsStep(bodies: seq<Script>, es: seq<Event>, e: Event, child: Script, u: nat)
    requires Runs(INIT, es) && |bodies| == Exec(INIT, es).spawned
    ensures Deeds(Enrolled(bodies, e, child), es + [e], u) ==
            if Performs(Exec(INIT, es), u) then Deeds(bodies, es, u) + DeedOf(e, child) else Deeds(bodies, es, u)
  {
    hide Runs, Exec, Performs, Deeds;
    DeedsAppend(Enrolled(bodies, e, child), es, e, u);
    if e.Spawn? {
      DeedsMore(bodies, child, es, u);
    }
  }

  lemma FreedDone(bodies: seq<Script>, script: map<Addr, Script>, es: seq<Event>, e: Event, child: Script, u: nat)
    requires Runs(INIT, es) && Loyal(bodies, script, es) && Enabled(Exec(INIT, es), e)
    requires u in Step(Exec(INIT, es), e).freed
    ensures u < |Enrolled(bodies, e, child)|
    ensures Whole(Enrolled(bodies, e, child)[u], Deeds(Enrolled(bodies, e, child), es + [e], u))
  {
    hide Step, Runs, Exec, Deeds, Whole, Leads, Fits, Inv, DeedOf;
    var s := Exec(INIT, es);
    InitInv();
    RunKeeps(INIT, es);
    StepFacts(s, e);
    DeedsStep(bodies, es, e, child, u);
    if u in s.freed {
      NotFreedAndRunning(s, u);
    } else {
      assert s.coros[s.held].uid == u && OnTrack(bodies, script, es, s, s.held);
      assert !Performs(s, u);
    }
  }

  lemma NotFreedAndRunning(s: State, u: nat)
    requires Inv(s) && u in s.freed
    ensures !Performs(s, u)
  {
  }

  lemma StaysOnTrack(bodies: seq<Script>, script: map<Addr, Script>, es: seq<Event>, e: Event, child: Script, c: Addr)
    requires Runs(INIT, es) && Loyal(bodies, script, es) && Enabled(Exec(INIT, es), e)
    requires Obeys(script, Exec(INIT, es), e, child)
    requires Inv(Step(Exec(INIT, es), e)) && c in Step(Exec(INIT, es), e).coros
    requires var s' := Step(Exec(INIT, es), e);
             s'.coros[c].uid < |Enrolled(bodies, e, child)| && c in Remaining(script, Exec(INIT, es), e, child)
    ensures OnTrack(Enrolled(bodies, e, child), Remaining(script, Exec(INIT, es), e, child), es + [e],
                    Step(Exec(INIT, es), e), c)
  {
    hide Step, Runs, Exec, Deeds, Whole, Leads, Fits, Inv, DeedOf;
    var s := Exec(INIT, es);
    InitInv();
    RunKeeps(INIT, es);
    StepFacts(s, e);
    if c !in s.coros {
      DeedsStep(bodies, es, e, child, s.spawned);
      NotYetSpawned(bodies, es, s.spawned);
      NobodyIs(s, s.spawned);
      assert Leads(child, [], child) by {
        LeadsNowhere(child);
      }
    } else {
      var u := s.coros[c].uid;
      DeedsStep(bodies, es, e, child, u);
      NumbersApart(s, c);
      assert OnTrack(bodies, script, es, s, c);
      if Performs(s, u) {
        RunningFact(s);
        OwnEvent(s, e);
        DoesNext(bodies[u], Deeds(bodies, es, u), script[c], e, child);
      }
    }
  }

  lemma LeadsNowhere(b: Script)
    ensures Leads(b, [], b)
  {
  }

  lemma NobodyIs(s: State, u: nat)
    requires Inv(s) && s.spawned <= u
    ensures !Performs(s, u)
  {
  }

  lemma OwnEvent(s: State, e: Event)
    requires s.control.Running? && Enabled(s, e)
    ensures !e.Reap? && !e.Start? && !e.Dispatch? && !e.Finish?
  {
  }

  /** One more deed of a body. */
  lemma DoesNext(b: Script, ds: seq<Deed>, rest: Script, e: Event, child: Script)
    requires Leads(b, ds, rest) && forall d :: d in DeedOf(e, child) ==> Fits(rest, d)
    requires !e.Reap? && !e.Start? && !e.Dispatch? && !e.Finish?
    ensures e.Leave? ==> Whole(b, ds + DeedOf(e, child))
    ensures !e.Leave? ==> !rest.End? && Leads(b, ds + DeedOf(e, child), rest.rest)
  {
    hide Leads;
    var d := DeedOf(e, child)[0];
    assert Fits(rest, d);
    if e.Leave? {
      assert (ds + [d])[..|ds|] == ds;
    } else {
      LeadsOn(b, ds, rest, d);
    }
  }

  // -------------------------------------------------------------- whole bodies

  /** When everyone who is still there has exited, every coroutine ever spawned has
      done the whole of its body. */
  lemma AllWhole(bodies: seq<Script>, script: map<Addr, Script>, es: seq<Event>, u: nat)
    requires Runs(INIT, es) && Loyal(bodies, script, es) && u < |bodies|
    requires forall c :: c in Exec(INIT, es).coros ==> Exec(INIT, es).coros[c].status == Exit
    ensures Whole(bodies[u], Deeds(bodies, es, u))
  {
    hide Step, Enabled, Runs, Exec, Deeds, Whole, Leads;
    var s := Exec(INIT, es);
    InitInv();
    RunKeeps(INIT, es);
    if u !in s.freed {
      assert IsThere(s.coros, u);
      var c :| c in s.coros && s.coros[c].uid == u;
      assert OnTrack(bodies, script, es, s, c);
    }
  }

  predicate AllCarriedOut(bodies: seq<Script>, es: seq<Event>) {
    forall u :: 0 <= u < |bodies| ==> Whole(bodies[u], Deeds(bodies, es, u))
  }

  /** While no coroutine runs, event `j` is one of `sched_run`: it does nothing but
      start, dispatch, reap and finish. */
  predicate SchedulersOwn(es: seq<Event>, j: nat)
    requires j < |es|
  {
    Runs(INIT, es[..j]) && !Exec(INIT, es[..j]).control.Running? ==>
      es[j].Start? || es[j].Dispatch? || es[j].Reap? || es[j].Finish?
  }

  /** After the first `n` events all is done by bodies or by `sched_run`. */
  predicate NobodyElse(es: seq<Event>, n: nat) {
    forall j :: n <= j < |es| ==> SchedulersOwn(es, j)
  }

  lemma NobodyElseNone(es: seq<Event>)
    ensures NobodyElse(es, |es|)
  {
  }

  lemma NobodyElseAppend(es: seq<Event>, n: nat, e: Event)
    requires Runs(INIT, es) && NobodyElse(es, n) && n <= |es|
    requires Exec(INIT, es).control.Running? || e.Start? || e.Dispatch? || e.Reap? || e.Finish?
    ensures NobodyElse(es + [e], n)
  {
    hide Runs, Exec;
    var es' := es + [e];
    forall j | n <= j < |es'|
      ensures SchedulersOwn(es', j)
    {
      if j < |es| {
        assert es'[..j] == es[..j] && SchedulersOwn(es, j);
      } else {
        assert es'[..j] == es;
      }
    }
  }

  // ------------------------------------------------------------- the allocator

  /** Allocations asked for in a run. */
  function Requests(es: seq<Event>): nat {
    if es == [] then 0
    else Requests(es[..|es| - 1]) + if es[|es| - 1].Spawn? || es[|es| - 1].Refuse? then 1 else 0
  }

  /** What the allocator answers: an address that is not in use, or NULL. */
  function Usable(answer: Addr, used: set<Addr>): Addr {
    if answer in used then NULL else answer
  }

  /** If event `j` is a spawn or a refusal, that is what the allocator answered:
      `answers` are its answers in turn, and `reserved` is never given away. */
  predicate AsAnswered(answers: nat -> Addr, reserved: Addr, es: seq<Event>, j: nat)
    requires j < |es|
  {
    Runs(INIT, es[..j]) ==>
      var a := Usable(answers(Requests(es[..j])), Exec(INIT, es[..j]).coros.Keys + {reserved});
      (es[j].Spawn? ==> es[j].a == a && a != NULL) && (es[j].Refuse? ==> a == NULL)
  }

  predicate Granted(answers: nat -> Addr, reserved: Addr, es: seq<Event>) {
    forall j :: 0 <= j < |es| ==> AsAnswered(answers, reserved, es, j)
  }

  lemma GrantedAppend(answers: nat -> Addr, reserved: Addr, es: seq<Event>, e: Event)
    requires Runs(INIT, es) && Granted(answers, reserved, es)
    requires var a := Usable(answers(Requests(es)), Exec(INIT, es).coros.Keys + {reserved});
             (e.Spawn? ==> e.a == a && a != NULL) && (e.Refuse? ==> a == NULL)
    ensures Granted(answers, reserved, es + [e])
    ensures Requests(es + [e]) == Requests(es) + if e.Spawn? || e.Refuse? then 1 else 0
  {
    hide Runs, Exec, Requests;
    var es' := es + [e];
    forall j | 0 <= j < |es'|
      ensures AsAnswered(answers, reserved, es', j)
    {
      if j < |es| {
        assert es'[..j] == es[..j] && AsAnswered(answers, reserved, es, j);
      } else {
        assert es'[..j] == es;
      }
    }
    RequestsAppend(es, e);
  }

  lemma RequestsAppend(es: seq<Event>, e: Event)
    ensures Requests(es + [e]) == Requests(es) + if e.Spawn? || e.Refuse? then 1 else 0
  {
    assert (es + [e])[..|es|] == es;
  }

  /** A run as the bodies of coroutines and the allocator make it. */
  ghost predicate Faithfully(answers: nat -> Addr, reserved: Addr, bodies: seq<Script>, script: map<Addr, Script>,
                             requests: nat, es: seq<Event>)
    requires Runs(INIT, es)
  {
    Loyal(bodies, script, es) && Granted(answers, reserved, es) && requests == Requests(es)
  }

  lemma FaithfulStep(answers: nat -> Addr, reserved: Addr, bodies: seq<Script>, script: map<Addr, Script>,
                     requests: nat, es: seq<Event>, e: Event, child: Script)
    requires Runs(INIT, es) && Faithfully(answers, reserved, bodies, script, requests, es)
    requires Enabled(Exec(INIT, es), e) && Obeys(script, Exec(INIT, es), e, child)
    requires var a := Usable(answers(requests), Exec(INIT, es).coros.Keys + {reserved});
             (e.Spawn? ==> e.a == a && a != NULL) && (e.Refuse? ==> a == NULL)
    ensures Runs(INIT, es + [e])
    ensures Faithfully(answers, reserved, Enrolled(bodies, e, child), Remaining(script, Exec(INIT, es), e, child),
                       requests + if e.Spawn? || e.Refuse? then 1 else 0, es + [e])
  {
    hide Loyal, Granted, Requests, Exec, Runs, Enabled, Obeys;
    LoyalStep(bodies, script, es, e, child);
    GrantedAppend(answers, reserved, es, e);
  }

  lemma FaithfulStart(answers: nat -> Addr, reserved: Addr)
    ensures Faithfully(answers, reserved, [], map[], 0, [])
  {
  }

  /** The event by which a body goes on, `answer` being the allocator's. */
  function EventOf(b: Script, answer: Addr): Event {
    match b
    case End => Leave
    case Pause(_) => Yield
    case Launch(_, _) => if answer == NULL then Refuse else Spawn(answer)
    case Direct(_) => RunOnce
    case Halt(_) => Stop
  }

  /** The scripts after the action that coroutine `c` has next. */
  function ScriptAfter(script: map<Addr, Script>, c: Addr, answer: Addr): map<Addr, Script>
    requires c in script
  {
    var b := script[c];
    var kept := script[c := if b.End? then End else b.rest];
    if b.Launch? && answer != NULL then kept[answer := b.child] else kept
  }

  lemma EventObeys(script: map<Addr, Script>, s: State, answer: Addr, child: Script)
    requires s.current in script && (script[s.current].Launch? ==> child == script[s.current].child)
    ensures Obeys(script, s, EventOf(script[s.current], answer), child)
  {
  }
}
