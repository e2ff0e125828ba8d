/** Which cleanups run in the end: exactly those whose scope is closed after they were registered. */
module ScopeLate {
  import opened Prelude
  import opened ScopeConcurrency
  import opened ScopeTheorems

  /** A step of a call of `Close` that takes over what is registered in scope `i`. */
  predicate Takes(s: State, a: Action, i: nat)
    requires CanAct(s, a)
  {
    a.Step? && Top(s.threads[a.t]) == Enter(i)
  }

  /** Some `Close` of scope `i` takes over what is registered there during the run. */
  predicate Enters(s: State, run: seq<Action>, i: nat)
    requires Possible(s, run)
    decreases |run|
  {
    run != [] && (Takes(s, run[0], i) || Enters(Act(s, run[0]), run[1..], i))
  }

  /** What is registered in a scope stays there until the scope is closed. */
  lemma ActLeaves(s: State, a: Action, i: nat, e: Entry)
    requires CanAct(s, a) && !Takes(s, a, i) && i < |s.scopes| && e in s.scopes[i].cleanups
    ensures i < |Act(s, a).scopes| && e in Act(s, a).scopes[i].cleanups
  {
    assert s.scopes[i].cleanups <= Act(s, a).scopes[i].cleanups;
  }

  lemma {:induction false} RunLeaves(s: State, run: seq<Action>, i: nat, e: Entry)
    requires Possible(s, run) && !Enters(s, run, i) && i < |s.scopes| && e in s.scopes[i].cleanups
    ensures i < |After(s, run).scopes| && e in After(s, run).scopes[i].cleanups
    decreases |run|
  {
    if run == [] {
    } else {
      ActLeaves(s, run[0], i, e);
      RunLeaves(Act(s, run[0]), run[1..], i, e);
    }
  }

  /** An entry has been registered, and it waits in no scope any more. */
  ghost predicate Collected(s: State, e: Entry) {
    s.registered[e] == 1 && Pending(e, s.scopes) == 0
  }

  lemma TakenIsCollected(s: State, a: Action, i: nat, e: Entry)
    requires Inv(s) && CanAct(s, a) && Takes(s, a, i) && e in s.scopes[i].cleanups
    ensures Collected(Act(s, a), e)
  {
    var taken := s.scopes[i];
    PendingUpdate(e, s.scopes, i, taken.(cleanups := [], children := None, cancelled := true));
    PendingAtLeast(e, s.scopes, i);
    assert Conserved(s, e) && Unique(s, e);
    assert Count(e, taken.cleanups) > 0;
  }

  lemma RegisterElsewhere(s: State, scope: nat, r: Entry, e: Entry)
    requires scope < |s.scopes| && r != e && Pending(e, s.scopes) == 0
    ensures Pending(e, Register(s, scope, r).scopes) == 0
  {
    var before := s.scopes[scope];
    CountOne(e, before.cleanups, r);
    PendingUpdate(e, s.scopes, scope, before.(cleanups := before.cleanups + [r]));
  }

  lemma StartKeepsCollected(s: State, scope: nat, comp: nat, e: Entry)
    requires Inv(s) && scope < |s.scopes| && Collected(s, e)
    ensures Collected(DoStart(s, scope, comp), e)
  {
    if !ContextDone(s, scope) && s.scopes[scope].children.Some? && comp !in s.scopes[scope].children.value {
      var child := |s.scopes|;
      var parent := s.scopes[scope].(children := Some(s.scopes[scope].children.value[comp := child]));
      var s' := s.(scopes := s.scopes[scope := parent] + [OPEN_SCOPE.(parent := scope)]);
      PendingUpdate(e, s.scopes, scope, parent);
      PendingAppend(e, s.scopes[scope := parent], OPEN_SCOPE.(parent := scope));
      assert Unique(s, CloseChild(child));
      RegisterElsewhere(s', scope, CloseChild(child), e);
    }
  }

  lemma ActKeepsCollected(s: State, a: Action, e: Entry)
    requires Inv(s) && CanAct(s, a) && Collected(s, e)
    ensures Collected(Act(s, a), e)
  {
    match a
    case Add(scope) =>
      assert Unique(s, Func(|s.homes|));
      RegisterElsewhere(s, scope, Func(|s.homes|), e);
    case Start(scope, comp) => StartKeepsCollected(s, scope, comp, e);
    case CancelOuter =>
    case CallClose(_) =>
    case Step(t, _) =>
      if Top(s.threads[t]).Enter? {
        var i := Top(s.threads[t]).scope;
        PendingUpdate(e, s.scopes, i, s.scopes[i].(cleanups := [], children := None, cancelled := true));
      }
  }

  lemma {:induction false} RunKeepsCollected(s: State, run: seq<Action>, e: Entry)
    requires Inv(s) && Possible(s, run) && Collected(s, e)
    ensures Collected(After(s, run), e)
    decreases |run|
  {
    if run == [] {
    } else {
      ActKeepsInv(s, run[0]);
      ActKeepsCollected(s, run[0], e);
      RunKeepsCollected(Act(s, run[0]), run[1..], e);
    }
  }

  lemma {:induction false} EnteredIsCollected(s: State, run: seq<Action>, i: nat, e: Entry)
    requires Inv(s) && Possible(s, run) && Enters(s, run, i) && i < |s.scopes| && e in s.scopes[i].cleanups
    ensures Collected(After(s, run), e)
    decreases |run|
  {
    ActKeepsInv(s, run[0]);
    if Takes(s, run[0], i) {
      TakenIsCollected(s, run[0], i, e);
      RunKeepsCollected(Act(s, run[0]), run[1..], e);
    } else {
      ActLeaves(s, run[0], i, e);
      EnteredIsCollected(Act(s, run[0]), run[1..], i, e);
    }
  }

  /** Once no `Close` is in progress, what was registered in scope `i` has been performed exactly if some `Close` of
      that scope came to take it, whether it was added in time or late, and whichever cleanups failed. */
  lemma PerformedExactlyIfClosed(s: State, run: seq<Action>, i: nat, e: Entry)
    requires Reachable(s) && Possible(s, run) && i < |s.scopes| && e in s.scopes[i].cleanups && Quiet(After(s, run))
    ensures Count(e, After(s, run).performed) == 1 <==> Enters(s, run, i)
  {
    ReachableInv(s);
    RunKeepsInv(s, run);
    var s' := After(s, run);
    assert Conserved(s', e) && Unique(s', e);
    NothingHeld(e, s'.threads);
    if Enters(s, run, i) {
      EnteredIsCollected(s, run, i, e);
    } else {
      RunLeaves(s, run, i, e);
      PendingAtLeast(e, s'.scopes, i);
      assert Count(e, s'.scopes[i].cleanups) > 0;
    }
  }

  // ----- A cleanup that nobody runs -----

  /** A run goes on with one more action. */
  lemma {:induction false} Extend(s: State, run: seq<Action>, a: Action)
    requires Possible(s, run) && CanAct(After(s, run), a)
    ensures Possible(s, run + [a]) && After(s, run + [a]) == Act(After(s, run), a)
    decreases |run|
  {
    if run == [] {
      assert run + [a] == [a];
    } else {
      assert (run + [a])[1..] == run[1..] + [a];
      Extend(Act(s, run[0]), run[1..], a);
    }
  }

  lemma Then(s: State, a: Action, next: State)
    requires Reachable(s) && CanAct(s, a) && Act(s, a) == next
    ensures Reachable(next)
  {
    var run :| Possible(START, run) && After(START, run) == s;
    Extend(START, run, a);
  }

  const CLOSED_SCOPE := OPEN_SCOPE.(children := None, cancelled := true)
  const CALLED := START.(threads := [[Enter(0)]])
  const TAKEN := START.(threads := [[Running([])]], scopes := [CLOSED_SCOPE])
  const CLOSED := START.(threads := [[]], scopes := [CLOSED_SCOPE])

  lemma ReachTaken()
    ensures Reachable(TAKEN)
  {
    assert Possible(START, []) && After(START, []) == START;
    Then(START, CallClose(0), CALLED);
    assert CALLED.threads[0][..0] + [Running([])] == TAKEN.threads[0];
    assert CALLED.scopes[0 := CLOSED_SCOPE] == TAKEN.scopes;
    Then(CALLED, Step(0, false), TAKEN);
  }

  lemma ReachClosed()
    ensures Reachable(CLOSED)
  {
    ReachTaken();
    assert TAKEN.threads[0][..0] == [] && TAKEN.threads[0 := []] == CLOSED.threads;
    Then(TAKEN, Step(0, false), CLOSED);
  }

  /** A cleanup added after the close is left waiting although nothing is in progress. */
  lemma LateCleanupIsLeft()
    ensures exists s ::
              Reachable(s) && Quiet(s) && s.scopes != [] && s.scopes[0].cancelled && Pending(Func(0), s.scopes) == 1
  {
    ReachClosed();
    var s := Act(CLOSED, Add(0));
    Then(CLOSED, Add(0), s);
    PendingUpdate(Func(0), CLOSED.scopes, 0, s.scopes[0]);
    assert Pending(Func(0), CLOSED.scopes[1..]) == 0;
    assert s.scopes[0].cleanups == [Func(0)];
  }
}
