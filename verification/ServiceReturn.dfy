/** Every call can be made at any moment, and has a way to return. */
module ServiceReturn {
  import opened Prelude
  import opened ServiceProtocol
  import opened ServiceInvariant
  import opened ServiceTheorems
  import opened ServiceProgress
  import opened ServiceCalls

  // ----- Who waits for whom -----

  /** The points at which a thread keeps others out of `serviceAccess`. */
  predicate Writing(pc: Pc) {
    match pc
    case InService(_) => true
    case AwaitLog(log) => log == ResetInStart
    case InLog(log) => log == ResetInStart
    case _ => false
  }

  /** The points at which it keeps others from starting and stopping the service. */
  predicate Owning(pc: Pc) {
    match pc
    case AwaitService(sec) => !sec.Interrupt? && sec != SetFatal && sec != SetClosed
    case InService(sec) => !sec.Interrupt? && sec != SetFatal && sec != SetClosed
    case AwaitLog(log) => log == ResetInStart
    case InLog(log) => log == ResetInStart
    case CallNew => true
    case CallStart(_) => true
    case CallClose(_, _) => true
    case ReleaseLifecycle(_) => true
    case _ => false
  }

  /** A thread that has not finished can go on, except for another one at such a point: no call waits for a slow call of
      another one but to start or stop the service itself, and nobody waits for nothing. */
  lemma WaitsExactly(s: State, t: nat)
    requires Reachable(s) && t < |s.pcs|
    ensures match s.pcs[t]
            case AwaitService(_) =>
              Enabled(s, t) <==> forall u :: 0 <= u < |s.pcs| ==> !Writing(s.pcs[u]) && s.pcs[u] != InRead
            case AwaitRead => Enabled(s, t) <==> forall u :: 0 <= u < |s.pcs| ==> !Writing(s.pcs[u])
            case AwaitLifecycle(_) => Enabled(s, t) <==> forall u :: 0 <= u < |s.pcs| ==> !Owning(s.pcs[u])
            case AwaitLog(_) => Enabled(s, t) <==> forall u :: 0 <= u < |s.pcs| ==> !s.pcs[u].InLog?
            case Done => !Enabled(s, t)
            case _ => Enabled(s, t)
  {
    ReachableInv(s);
    forall u | 0 <= u < |s.pcs|
      ensures Writing(s.pcs[u]) <==> s.writer == Some(u)
      ensures Owning(s.pcs[u]) <==> s.lifecycle == Some(u)
      ensures s.pcs[u].InLog? <==> s.logger == Some(u)
      ensures s.pcs[u] == InRead <==> u in s.readers
    {
      Points(s.pcs[u]);
    }
    if s.readers != {} {
      var u :| u in s.readers;
      assert s.pcs[u] == InRead;
    }
  }

  lemma Points(pc: Pc)
    ensures Writing(pc) <==> HoldsService(pc)
    ensures Owning(pc) <==> HoldsLifecycle(pc)
  {
  }

  // ----- Calls return -----

  /** From every reachable state the threads have a way to finish, whether their slow calls succeed or fail. */
  lemma {:induction false} AllReturn(s: State, ok: bool) returns (run: seq<Action>)
    requires Reachable(s)
    ensures Possible(s, run) && OnlySteps(run) && Quiet(After(s, run))
    decreases Work(s.pcs)
  {
    if Quiet(s) {
      run := [];
    } else {
      SomeThreadCanStep(s);
      var t :| Admitted(s, t);
      StepWorks(s, t, ok);
      Reach(s, Step(t, ok), Exec(s, t, ok));
      var rest := AllReturn(Exec(s, t, ok), ok);
      run := [Step(t, ok)] + rest;
      assert run[1..] == rest;
    }
  }

  lemma {:induction false} CallsConcat(a: seq<Action>, b: seq<Action>)
    ensures CallsOf(a + b) == CallsOf(a) + CallsOf(b)
  {
    if a == [] {
      assert a + b == b;
    } else {
      assert (a + b)[0] == a[0] && (a + b)[1..] == a[1..] + b;
      CallsConcat(a[1..], b);
    }
  }

  lemma {:induction false} NoCalls(run: seq<Action>)
    requires OnlySteps(run)
    ensures CallsOf(run) == []
  {
    if run == [] {
    } else {
      NoCalls(run[1..]);
    }
  }

  lemma OneCall(s: State, call: Call)
    requires Reachable(s)
    ensures Possible(s, [Spawn(call)]) && Reachable(After(s, [Spawn(call)])) && CallsOf([Spawn(call)]) == [call]
  {
    assert [Spawn(call)][1..] == [];
    StillReachable(s, [Spawn(call)]);
  }

  lemma SoFar(run: seq<Action>)
    requires Possible(START, run)
    ensures Reachable(After(START, run))
  {
  }

  /** Whatever has happened, any call can be made, it is the call of a new thread, and all threads can return; what it
      has done then is said by the lemmas on deeds. */
  lemma AnyCallReturns(run: seq<Action>, call: Call, ok: bool) returns (more: seq<Action>)
    requires Possible(START, run)
    ensures OnlySteps(more) && Possible(START, run + [Spawn(call)] + more)
    ensures CallsOf(run + [Spawn(call)] + more) == CallsOf(run) + [call]
    ensures Quiet(After(START, run + [Spawn(call)] + more))
    ensures |After(START, run + [Spawn(call)] + more).pcs| == |CallsOf(run)| + 1
  {
    var made := [Spawn(call)];
    SoFar(run);
    OneCall(After(START, run), call);
    RunsCompose(START, run, made);
    more := AllReturn(After(START, run + made), ok);
    RunsCompose(START, run + made, more);
    CallsConcat(run, made);
    CallsConcat(run + made, more);
    NoCalls(more);
    AsManyThreads(START, run + made + more);
  }
}
