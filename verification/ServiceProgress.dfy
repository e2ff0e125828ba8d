/** The service lifecycle cannot deadlock, and all calls return once no new ones arrive. */
module ServiceProgress {
  import opened Prelude
  import opened ServiceState
  import opened ServiceProtocol
  import opened ServiceInvariant
  import opened ServiceTheorems

  /** As `Enabled`, with the rule of a Go `RWMutex` that a waiting writer keeps new readers out. */
  ghost predicate Admitted(s: State, t: nat) {
    Enabled(s, t) && (s.pcs[t].AwaitRead? ==> forall w :: 0 <= w < |s.pcs| ==> !s.pcs[w].AwaitService?)
  }

  /** While a thread is unfinished, some thread can step: the owner of the innermost lock that is taken. */
  lemma SomeThreadCanStep(s: State)
    requires Reachable(s) && !Quiet(s)
    ensures exists t :: Admitted(s, t)
  {
    ReachableInv(s);
    if s.logger.Some? {
      assert Admitted(s, s.logger.value);
    } else if s.writer.Some? {
      assert Admitted(s, s.writer.value);
    } else if s.readers != {} {
      var t :| t in s.readers;
      assert Admitted(s, t);
    } else if w :| 0 <= w < |s.pcs| && s.pcs[w].AwaitService? {
      assert Admitted(s, w);
    } else if s.lifecycle.Some? {
      assert Admitted(s, s.lifecycle.value);
    } else {
      var t :| 0 <= t < |s.pcs| && s.pcs[t] != Done;
      assert Admitted(s, t);
    }
  }

  // ----- Every step brings its thread closer to the end -----

  function SectionRank(sec: Section): nat {
    match sec
    case Interrupt(_) => 13
    case Take => 11
    case Begin(reload) => if reload then 9 else 8
    case CreateError => 2
    case Publish(_) => 4
    case Decide(_, _) => 2
    case StopTake => 4
    case StopEnd => 1
    case SetFatal => 1
    case SetClosed => 0
  }

  /** The longest way from a program point to the end. */
  function Rank(pc: Pc): nat {
    match pc
    case AwaitService(sec) => 2 * SectionRank(sec) + 2
    case InService(sec) => 2 * SectionRank(sec) + 1
    case AwaitLifecycle(_) => 25
    case AwaitLog(log) => if log.ResetInStart? then 14 else 2
    case InLog(log) => if log.ResetInStart? then 13 else 1
    case AwaitRead => 2
    case InRead => 1
    case CallNew => 12
    case CallStart(_) => 7
    case CallClose(_, next) => if next.ThenBegin? then 21 else if next.ThenStopEnd? then 5 else 2
    case ReleaseLifecycle(_) => 1
    case Done => 0
  }

  function Work(pcs: seq<Pc>): nat {
    if pcs == [] then 0 else Rank(pcs[0]) + Work(pcs[1..])
  }

  lemma {:induction false} WorkUpdate(pcs: seq<Pc>, t: nat, pc: Pc)
    requires t < |pcs|
    ensures Work(pcs[t := pc]) == Work(pcs) - Rank(pcs[t]) + Rank(pc)
  {
    if t == 0 {
      assert pcs[t := pc][1..] == pcs[1..];
    } else {
      assert pcs[t := pc][1..] == pcs[1..][t - 1 := pc];
      WorkUpdate(pcs[1..], t - 1, pc);
    }
  }

  lemma StepWorks(s: State, t: nat, ok: bool)
    requires Enabled(s, t)
    ensures Work(Exec(s, t, ok).pcs) < Work(s.pcs)
  {
    WorkUpdate(s.pcs, t, NextPc(s.f, s.pcs[t], ok, |s.instances|));
  }

  ghost predicate OnlySteps(run: seq<Action>) {
    forall k :: 0 <= k < |run| ==> run[k].Step?
  }

  /** A run of the threads that are there is no longer than the work they have left. */
  lemma {:induction false} RunsEnd(s: State, run: seq<Action>)
    requires Possible(s, run) && OnlySteps(run)
    ensures |run| + Work(After(s, run).pcs) <= Work(s.pcs)
    decreases |run|
  {
    if run == [] {
    } else {
      StepWorks(s, run[0].t, run[0].ok);
      RunsEnd(Act(s, run[0]), run[1..]);
    }
  }

  lemma {:induction false} RunsCompose(s: State, run: seq<Action>, more: seq<Action>)
    requires Possible(s, run) && Possible(After(s, run), more)
    ensures Possible(s, run + more) && After(s, run + more) == After(After(s, run), more)
    decreases |run|
  {
    if run == [] {
      assert run + more == more;
    } else {
      RunsCompose(Act(s, run[0]), run[1..], more);
      assert (run + more)[1..] == run[1..] + more;
    }
  }

  lemma StillReachable(s: State, run: seq<Action>)
    requires Reachable(s) && Possible(s, run)
    ensures Reachable(After(s, run))
  {
    var before :| Possible(START, before) && After(START, before) == s;
    RunsCompose(START, before, run);
  }

  /** A run that cannot be continued has finished every call. */
  lemma EveryCallReturns(s: State, run: seq<Action>)
    requires Reachable(s) && Possible(s, run) && OnlySteps(run)
    requires forall t: nat :: !Admitted(After(s, run), t)
    ensures |run| <= Work(s.pcs) && Quiet(After(s, run))
  {
    RunsEnd(s, run);
    StillReachable(s, run);
    if !Quiet(After(s, run)) {
      SomeThreadCanStep(After(s, run));
    }
  }

  // ----- The one way to be left starting -----

  /** A state with thread `t` at `pc`, the others where `rest` says, and no lock held but those `t` holds. */
  function At(f: Fields, rest: seq<Pc>, t: nat, pc: Pc, instances: seq<Record>): State
    requires t < |rest|
  {
    State(f, Owner(None, t, HoldsLifecycle(pc)), Owner(None, t, HoldsService(pc)), {}, Owner(None, t, HoldsLog(pc)),
          rest[t := pc], instances)
  }

  lemma Reach(s: State, a: Action, s': State)
    requires Reachable(s) && CanAct(s, a) && Act(s, a) == s'
    ensures Reachable(s')
  {
    StillReachable(s, [a]);
    assert After(s, [a]) == After(s', [a][1..]) == s';
  }

  /** Thread `t` goes on from `pc`, at a step that leaves the instances alone. */
  lemma Walk(f: Fields, rest: seq<Pc>, t: nat, pc: Pc, instances: seq<Record>, f': Fields, pc': Pc)
    requires t < |rest| && Reachable(At(f, rest, t, pc, instances))
    requires !pc.Done? && !pc.AwaitRead? && !pc.InRead? && !pc.CallNew? && !pc.CallClose?
    requires Cancels(f, pc).None? && Starts(f, pc).None?
    requires f' == NextFields(f, pc) && pc' == NextPc(f, pc, true, |instances|)
    ensures Reachable(At(f', rest, t, pc', instances))
  {
    var s := At(f, rest, t, pc, instances);
    assert NextInstances(s, t, true) == instances;
    Reach(s, Step(t, true), At(f', rest, t, pc', instances));
  }

  const BEGUN := INITIAL.(status := Starting)
  const PUBLISHED := BEGUN.(instance := Some(0))
  const ONE := Record(0, false, false, [])

  lemma ReachLocked()
    ensures Reachable(At(INITIAL, [Done], 0, AwaitService(Take), []))
  {
    assert Possible(START, []) && After(START, []) == START;
    Reach(START, Spawn(StartOrReloadService), At(INITIAL, [Done], 0, AwaitService(Interrupt(StartOp)), []));
    Walk(INITIAL, [Done], 0, AwaitService(Interrupt(StartOp)), [], INITIAL, InService(Interrupt(StartOp)));
    Walk(INITIAL, [Done], 0, InService(Interrupt(StartOp)), [], INITIAL, AwaitLifecycle(StartOp));
    Walk(INITIAL, [Done], 0, AwaitLifecycle(StartOp), [], INITIAL, AwaitService(Take));
  }

  lemma ReachLog()
    ensures Reachable(At(BEGUN, [Done], 0, AwaitLog(ResetInStart), []))
  {
    ReachLocked();
    Walk(INITIAL, [Done], 0, AwaitService(Take), [], INITIAL, InService(Take));
    Walk(INITIAL, [Done], 0, InService(Take), [], INITIAL, InService(Begin(false)));
    Walk(INITIAL, [Done], 0, InService(Begin(false)), [], BEGUN, AwaitLog(ResetInStart));
  }

  lemma ReachNew()
    ensures Reachable(At(BEGUN, [Done], 0, AwaitService(Publish(0)), [ONE]))
  {
    ReachLog();
    Walk(BEGUN, [Done], 0, AwaitLog(ResetInStart), [], BEGUN, InLog(ResetInStart));
    Walk(BEGUN, [Done], 0, InLog(ResetInStart), [], BEGUN, CallNew);
    Reach(At(BEGUN, [Done], 0, CallNew, []), Step(0, true), At(BEGUN, [Done], 0, AwaitService(Publish(0)), [ONE]));
  }

  lemma ReachStart()
    ensures Reachable(At(PUBLISHED, [Done], 0, CallStart(0), [ONE]))
  {
    ReachNew();
    Walk(BEGUN, [Done], 0, AwaitService(Publish(0)), [ONE], BEGUN, InService(Publish(0)));
    Walk(BEGUN, [Done], 0, InService(Publish(0)), [ONE], PUBLISHED, CallStart(0));
  }

  /** The same start, cancelled by a second one, on a service that has then been closed. */
  const INTERRUPTED := PUBLISHED.(startInterrupted := true)
  const CANCELLED := INTERRUPTED.(closed := true)
  const CUT := ONE.(cancelled := true)
  const WAITING := [Done, AwaitLifecycle(StartOp), Done]

  /** Thread 0 is starting its instance, and holds the lifecycle lock; the others are where `others` says. */
  function DuringStart(f: Fields, writer: Option<nat>, others: seq<Pc>, r: Record): State {
    State(f, Some(0), writer, {}, None, [CallStart(0)] + others, [r])
  }

  lemma ReachSecond()
    ensures Reachable(DuringStart(PUBLISHED, Some(1), [InService(Interrupt(StartOp))], ONE))
  {
    ReachStart();
    var s0 := DuringStart(PUBLISHED, None, [], ONE);
    var s1 := DuringStart(PUBLISHED, None, [AwaitService(Interrupt(StartOp))], ONE);
    assert s0 == At(PUBLISHED, [Done], 0, CallStart(0), [ONE]);
    Reach(s0, Spawn(StartOrReloadService), s1);
    assert NextInstances(s1, 1, true) == [ONE];
    Reach(s1, Step(1, true), DuringStart(PUBLISHED, Some(1), [InService(Interrupt(StartOp))], ONE));
  }

  lemma ReachCut()
    ensures Reachable(DuringStart(INTERRUPTED, None, [AwaitLifecycle(StartOp)], CUT))
  {
    ReachSecond();
    var s := DuringStart(PUBLISHED, Some(1), [InService(Interrupt(StartOp))], ONE);
    assert NextInstances(s, 1, true) == [CUT];
    Reach(s, Step(1, true), DuringStart(INTERRUPTED, None, [AwaitLifecycle(StartOp)], CUT));
  }

  lemma ReachThird()
    ensures Reachable(DuringStart(INTERRUPTED, Some(2), [AwaitLifecycle(StartOp), InService(SetClosed)], CUT))
  {
    ReachCut();
    var s0 := DuringStart(INTERRUPTED, None, [AwaitLifecycle(StartOp)], CUT);
    var s1 := DuringStart(INTERRUPTED, None, [AwaitLifecycle(StartOp), AwaitService(SetClosed)], CUT);
    Reach(s0, Spawn(Close), s1);
    assert NextInstances(s1, 2, true) == [CUT];
    Reach(s1, Step(2, true), DuringStart(INTERRUPTED, Some(2), [AwaitLifecycle(StartOp), InService(SetClosed)], CUT));
  }

  lemma ReachInterrupt()
    ensures Reachable(At(CANCELLED, WAITING, 0, CallStart(0), [CUT]))
  {
    ReachThird();
    var s := DuringStart(INTERRUPTED, Some(2), [AwaitLifecycle(StartOp), InService(SetClosed)], CUT);
    assert NextInstances(s, 2, true) == [CUT];
    Reach(s, Step(2, true), At(CANCELLED, WAITING, 0, CallStart(0), [CUT]));
  }

  const ABANDONED := BEGUN.(closed := true)
  const CLOSED := Record(0, true, false, [0])

  lemma ReachDecision()
    ensures Reachable(At(ABANDONED, WAITING, 0, CallClose(Some(0), ThenReturn), [CUT]))
  {
    ReachInterrupt();
    Walk(CANCELLED, WAITING, 0, CallStart(0), [CUT], CANCELLED, AwaitService(Decide(0, true)));
    Walk(CANCELLED, WAITING, 0, AwaitService(Decide(0, true)), [CUT], CANCELLED, InService(Decide(0, true)));
    Walk(CANCELLED, WAITING, 0, InService(Decide(0, true)), [CUT], ABANDONED, CallClose(Some(0), ThenReturn));
  }

  lemma ReachAbandon()
    ensures Reachable(At(ABANDONED, WAITING, 0, Done, [CLOSED]))
  {
    ReachDecision();
    var closing := At(ABANDONED, WAITING, 0, CallClose(Some(0), ThenReturn), [CUT]);
    assert CUT.closers + [0] == CLOSED.closers;
    assert NextInstances(closing, 0, true) == [CLOSED];
    Reach(closing, Step(0, true), At(ABANDONED, WAITING, 0, ReleaseLifecycle(StartOp), [CLOSED]));
    Walk(ABANDONED, WAITING, 0, ReleaseLifecycle(StartOp), [CLOSED], ABANDONED, Done);
  }

  /** `QuietIsSettled` cannot drop its exception: a start that interrupts another one and then finds the service
      closed returns at once, and nothing takes the status back from starting. */
  lemma ClosedServiceCanStayStarting()
    ensures exists s :: Reachable(s) && Quiet(s) && s.f.status == Starting && s.f.closed
  {
    ReachAbandon();
    var over := [Done, Done, Done];
    assert At(ABANDONED, WAITING, 0, Done, [CLOSED]) == At(ABANDONED, over, 1, AwaitLifecycle(StartOp), [CLOSED]);
    Walk(ABANDONED, over, 1, AwaitLifecycle(StartOp), [CLOSED], ABANDONED, AwaitService(Take));
    Walk(ABANDONED, over, 1, AwaitService(Take), [CLOSED], ABANDONED, InService(Take));
    Walk(ABANDONED, over, 1, InService(Take), [CLOSED], ABANDONED, ReleaseLifecycle(StartOp));
    Walk(ABANDONED, over, 1, ReleaseLifecycle(StartOp), [CLOSED], ABANDONED, Done);
    assert Quiet(At(ABANDONED, over, 1, Done, [CLOSED]));
  }
}
