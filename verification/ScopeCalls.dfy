/** What the calls on a tree of scopes do, each by itself and over whole runs. */
module ScopeCalls {
  import opened Prelude
  import opened ScopeConcurrency
  import opened ScopeTheorems

  // ----- Which contexts are done -----

  function Above(s: State, x: nat): nat {
    if 0 < x < |s.scopes| && s.scopes[x].parent < x then s.scopes[x].parent else 0
  }

  /** The scope `k` levels above `x`; above the root there is only the root. */
  function Ancestor(s: State, x: nat, k: nat): nat {
    if k == 0 then x else Ancestor(s, Above(s, x), k - 1)
  }

  lemma {:induction false} AncestorIn(s: State, x: nat, k: nat)
    requires s.scopes != [] && x < |s.scopes|
    ensures Ancestor(s, x, k) < |s.scopes|
    decreases k
  {
    if k == 0 {
    } else {
      AncestorIn(s, Above(s, x), k - 1);
    }
  }

  lemma {:induction false} DoneBelow(s: State, x: nat, k: nat)
    requires Shape(s) && x < |s.scopes| && Ancestor(s, x, k) < |s.scopes| && s.scopes[Ancestor(s, x, k)].cancelled
    ensures ContextDone(s, x)
    decreases k
  {
    assert ScopeShape(s, x);
    if k == 0 {
    } else if x == 0 {
      DoneBelow(s, 0, k - 1);
    } else {
      DoneBelow(s, Above(s, x), k - 1);
    }
  }

  lemma {:induction false} DoneFrom(s: State, x: nat) returns (k: nat)
    requires Shape(s) && x < |s.scopes| && ContextDone(s, x) && !s.outerDone
    ensures Ancestor(s, x, k) < |s.scopes| && s.scopes[Ancestor(s, x, k)].cancelled
    decreases x
  {
    if s.scopes[x].cancelled {
      k := 0;
    } else {
      assert ScopeShape(s, x);
      var rest := DoneFrom(s, s.scopes[x].parent);
      k := rest + 1;
    }
  }

  /** A start is refused exactly if the context around the tree, the scope itself or a scope above it was cancelled. */
  lemma ContextDoneExactly(s: State, scope: nat)
    requires Reachable(s) && scope < |s.scopes|
    ensures forall k: nat :: Ancestor(s, scope, k) < |s.scopes|
    ensures ContextDone(s, scope) <==> s.outerDone || exists k: nat :: s.scopes[Ancestor(s, scope, k)].cancelled
  {
    ReachableInv(s);
    forall k: nat
      ensures Ancestor(s, scope, k) < |s.scopes|
    {
      AncestorIn(s, scope, k);
    }
    if s.outerDone {
    } else if ContextDone(s, scope) {
      var k := DoneFrom(s, scope);
      assert s.scopes[Ancestor(s, scope, k)].cancelled;
    } else {
      forall k: nat
        ensures !s.scopes[Ancestor(s, scope, k)].cancelled
      {
        if s.scopes[Ancestor(s, scope, k)].cancelled {
          DoneBelow(s, scope, k);
        }
      }
    }
  }

  // ----- Single calls -----

  /** A start that is not refused leaves the component with an open child scope whose closing entry waits in the parent;
      a component that was new gets exactly one scope, with one entry at the end. */
  lemma StartRegisters(s: State, scope: nat, comp: nat)
    requires Reachable(s) && scope < |s.scopes| && !ContextDone(s, scope)
    ensures var s' := Act(s, Start(scope, comp));
            && |s.scopes| <= |s'.scopes| && s.scopes[scope].children.Some? && s'.scopes[scope].children.Some?
            && comp in s'.scopes[scope].children.value
            && var child := s'.scopes[scope].children.value[comp];
               && child < |s'.scopes| && s'.scopes[child].parent == scope
               && CloseChild(child) in s'.scopes[scope].cleanups
               && (if comp in s.scopes[scope].children.value then s' == s
                   else
                     && child == |s.scopes| && |s'.scopes| == |s.scopes| + 1
                     && s'.scopes[child].cleanups == [] && !s'.scopes[child].cancelled
                     && s'.scopes[child].children == Some(map[])
                     && s'.scopes[scope].cleanups == s.scopes[scope].cleanups + [CloseChild(child)]
                     && s'.scopes[scope].children.value == s.scopes[scope].children.value[comp := child]
                     && (forall i :: 0 <= i < |s.scopes| && i != scope ==> s'.scopes[i] == s.scopes[i]))
  {
    ReachableInv(s);
    OpenContextHasChildren(s, scope);
    assert ScopeShape(s, scope);
    if comp in s.scopes[scope].children.value {
      assert EntryShape(s, scope, CloseChild(s.scopes[scope].children.value[comp]));
    } else {
      var entries := s.scopes[scope].cleanups;
      assert (entries + [CloseChild(|s.scopes|)])[|entries|] == CloseChild(|s.scopes|);
    }
  }

  /** A cleanup is registered at the end of its scope, whatever state that is in; it is late exactly if that is
      closed. */
  lemma AddRegisters(s: State, scope: nat)
    requires scope < |s.scopes|
    ensures var s', id := Act(s, Add(scope)), |s.homes|;
            && s'.homes == s.homes + [scope] && |s'.scopes| == |s.scopes|
            && s'.scopes[scope].cleanups == s.scopes[scope].cleanups + [Func(id)]
            && (id !in s.late ==> (id in s'.late <==> s.scopes[scope].cancelled))
            && (forall i :: 0 <= i < |s.scopes| && i != scope ==> s'.scopes[i] == s.scopes[i])
            && s'.threads == s.threads && s'.performed == s.performed
  {
  }

  /** The first step of a `Close` cancels the scope and takes over all that is registered in it. */
  lemma EnterTakesAll(s: State, t: nat, fails: bool)
    requires CanStep(s, t) && Top(s.threads[t]).Enter?
    ensures var s', scope := Act(s, Step(t, fails)), Top(s.threads[t]).scope;
            && |s'.scopes| == |s.scopes| && s'.scopes[scope].cancelled && s'.scopes[scope].cleanups == []
            && |s'.threads| == |s.threads| && |s'.threads[t]| == |s.threads[t]|
            && s'.threads[t][|s.threads[t]| - 1] == Running(s.scopes[scope].cleanups)
            && s'.performed == s.performed
  {
  }

  // ----- Whole runs -----

  /** The scopes that are closed from outside in a run, in the order of the calls; thread `t` runs call number `t`. */
  function ClosesOf(run: seq<Action>): seq<nat> {
    if run == [] then [] else (if run[0].CallClose? then [run[0].scope] else []) + ClosesOf(run[1..])
  }

  /** Thread `t` has yet to close scope `c`, or that is closed. */
  predicate Closer(s: State, t: nat, c: nat) {
    t < |s.threads| && c < |s.scopes| && (s.threads[t] == [Enter(c)] || s.scopes[c].cancelled)
  }

  lemma CloserKept(s: State, a: Action, t: nat, c: nat)
    requires CanAct(s, a) && Closer(s, t, c)
    ensures Closer(Act(s, a), t, c)
  {
  }

  lemma {:induction false} CloserStays(s: State, run: seq<Action>, t: nat, c: nat)
    requires Possible(s, run) && Closer(s, t, c)
    ensures Closer(After(s, run), t, c)
    decreases |run|
  {
    if run == [] {
    } else {
      CloserKept(s, run[0], t, c);
      CloserStays(Act(s, run[0]), run[1..], t, c);
    }
  }

  lemma {:induction false} ClosersOf(s: State, run: seq<Action>, t: nat)
    requires Possible(s, run) && |s.threads| <= t < |s.threads| + |ClosesOf(run)|
    ensures Closer(After(s, run), t, ClosesOf(run)[t - |s.threads|])
    decreases |run|
  {
    var s' := Act(s, run[0]);
    if run[0].CallClose? && t == |s.threads| {
      CloserStays(s', run[1..], t, run[0].scope);
    } else {
      ClosersOf(s', run[1..], t);
    }
  }

  /** A call of `Close` that has returned has closed its scope. */
  lemma CloseHasClosed(run: seq<Action>, t: nat)
    requires Possible(START, run) && t < |ClosesOf(run)|
    ensures var s, c := After(START, run), ClosesOf(run)[t];
            t < |s.threads| && c < |s.scopes| && (s.threads[t] == [] ==> s.scopes[c].cancelled)
  {
    ClosersOf(START, run, t);
  }

  lemma {:induction false} Returns(s: State, fails: bool) returns (run: seq<Action>)
    requires Inv(s)
    ensures Possible(s, run) && OnlySteps(run) && Quiet(After(s, run))
    decreases Work(s)
  {
    if t: nat :| CanStep(s, t) {
      StepWorks(s, t, fails);
      ActKeepsInv(s, Step(t, fails));
      var rest := Returns(DoStep(s, t, fails), fails);
      run := [Step(t, fails)] + rest;
      assert run[1..] == rest;
    } else {
      run := [];
      StuckIsQuiet(s, []);
    }
  }

  /** Any scope can be closed at any moment by a new thread, and there is a way for all closes to return, whether the
      cleanups fail or not; the scope is closed then. */
  lemma AnyCloseReturns(s: State, scope: nat, fails: bool) returns (more: seq<Action>)
    requires Reachable(s) && scope < |s.scopes|
    ensures CanAct(s, CallClose(scope)) && Act(s, CallClose(scope)) == s.(threads := s.threads + [[Enter(scope)]])
    ensures var s' := Act(s, CallClose(scope));
            && Possible(s', more) && OnlySteps(more) && Quiet(After(s', more))
            && scope < |After(s', more).scopes| && After(s', more).scopes[scope].cancelled
  {
    ReachableInv(s);
    var s' := Act(s, CallClose(scope));
    ActKeepsInv(s, CallClose(scope));
    more := Returns(s', fails);
    assert s'.threads[|s.threads|] == [Enter(scope)];
    CloserStays(s', more, |s.threads|, scope);
  }

  /** A cleanup that a closing thread has run, and whether it failed. */
  datatype Result = Result(entry: Entry, fails: bool)

  /** What an action runs: the last entry of what its thread took, or nothing. */
  function ResultOf(s: State, a: Action): seq<Result> {
    if a.Step? && CanStep(s, a.t) && Top(s.threads[a.t]).Running? && Top(s.threads[a.t]).rest != [] then
      var rest := Top(s.threads[a.t]).rest;
      [Result(rest[|rest| - 1], a.fails)]
    else []
  }

  function Results(s: State, run: seq<Action>): seq<Result>
    requires Possible(s, run)
    decreases |run|
  {
    if run == [] then [] else ResultOf(s, run[0]) + Results(Act(s, run[0]), run[1..])
  }

  function Entries(results: seq<Result>): seq<Entry> {
    seq(|results|, k requires 0 <= k < |results| => results[k].entry)
  }

  function Failures(results: seq<Result>): seq<Entry> {
    if results == [] then [] else FailureOf(results[0]) + Failures(results[1..])
  }

  function FailureOf(result: Result): seq<Entry> {
    if result.fails then [result.entry] else []
  }

  lemma {:induction false} FailuresConcat(a: seq<Result>, b: seq<Result>)
    ensures Failures(a + b) == Failures(a) + Failures(b)
  {
    if a == [] {
      assert a + b == b;
    } else {
      assert (a + b)[0] == a[0] && (a + b)[1..] == a[1..] + b;
      FailuresConcat(a[1..], b);
      Regroup(FailureOf(a[0]), Failures(a[1..]), Failures(b));
    }
  }

  lemma Regroup(a: seq<Entry>, b: seq<Entry>, c: seq<Entry>)
    ensures a + b + c == a + (b + c)
  {
  }

  ghost predicate HasRun(s: State, s': State, results: seq<Result>) {
    s'.performed == s.performed + Entries(results) && s'.failed == s.failed + Failures(results)
  }

  lemma HasRunTwice(a: State, b: State, c: State, results: seq<Result>, more: seq<Result>)
    requires HasRun(a, b, results) && HasRun(b, c, more)
    ensures HasRun(a, c, results + more)
  {
    FailuresConcat(results, more);
    Regroup(a.failed, Failures(results), Failures(more));
    assert Entries(results + more) == Entries(results) + Entries(more);
    Regroup(a.performed, Entries(results), Entries(more));
  }

  lemma ActRuns(s: State, a: Action)
    requires CanAct(s, a)
    ensures HasRun(s, Act(s, a), ResultOf(s, a))
  {
    var results := ResultOf(s, a);
    if results != [] {
      assert results[1..] == [] && Failures(results) == FailureOf(results[0]) + [];
      assert Entries(results) == [results[0].entry];
    }
  }

  lemma {:induction false} RunRuns(s: State, run: seq<Action>)
    requires Possible(s, run)
    ensures HasRun(s, After(s, run), Results(s, run))
    decreases |run|
  {
    if run == [] {
    } else {
      var s' := Act(s, run[0]);
      ActRuns(s, run[0]);
      RunRuns(s', run[1..]);
      HasRunTwice(s, s', After(s', run[1..]), ResultOf(s, run[0]), Results(s', run[1..]));
    }
  }

  /** The failures of a run are those of its cleanups that failed, in the order in which they ran: a failure keeps
      nothing from being run and is not forgotten. */
  lemma FailedExactly(run: seq<Action>)
    requires Possible(START, run)
    ensures var s, results := After(START, run), Results(START, run);
            && s.performed == Entries(results) && s.failed == Failures(results)
            && (s.failed == [] <==> forall k :: 0 <= k < |results| ==> !results[k].fails)
  {
    RunRuns(START, run);
    var s, results := After(START, run), Results(START, run);
    assert [] + Entries(results) == Entries(results) && [] + Failures(results) == Failures(results);
    NoFailures(results);
  }

  lemma {:induction false} NoFailures(results: seq<Result>)
    ensures Failures(results) == [] <==> forall k :: 0 <= k < |results| ==> !results[k].fails
  {
    if results == [] {
    } else {
      NoFailures(results[1..]);
      assert forall k :: 0 < k < |results| ==> results[k] == results[1..][k - 1];
    }
  }

  lemma {:induction false} OuterStays(s: State, run: seq<Action>)
    requires Possible(s, run)
    ensures After(s, run).outerDone <==> s.outerDone || CancelOuter in run
    decreases |run|
  {
    if run == [] {
    } else {
      OuterStays(Act(s, run[0]), run[1..]);
      assert run == [run[0]] + run[1..];
    }
  }

  /** Once the context around the tree has been cancelled, no start registers anything any more. */
  lemma CancelledOuter(run: seq<Action>, scope: nat, comp: nat)
    requires Possible(START, run) && CancelOuter in run && scope < |After(START, run).scopes|
    ensures Act(After(START, run), Start(scope, comp)) == After(START, run)
  {
    OuterStays(START, run);
  }
}
