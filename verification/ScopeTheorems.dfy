/** What a tree of cleanup scopes guarantees whatever its users do at the same time. */
module ScopeTheorems {
  import opened Prelude
  import opened ScopeConcurrency

  // ----- The shape of the tree -----

  /** An entry waiting in scope `i`: a child's closing entry waits in its parent, and only while that is open; in a
      closed scope only what was added late is waiting. */
  predicate EntryShape(s: State, i: nat, e: Entry) {
    i < |s.scopes| &&
    match e
    case Func(id) => s.scopes[i].cancelled ==> id in s.late
    case CloseChild(c) => !s.scopes[i].cancelled && i < c < |s.scopes| && s.scopes[c].parent == i
  }

  ghost predicate ScopeShape(s: State, i: nat)
    requires i < |s.scopes|
  {
    var scope := s.scopes[i];
    && (0 < i ==> scope.parent < i)
    && (scope.cancelled <==> scope.children.None?)
    && (forall e :: e in scope.cleanups ==> EntryShape(s, i, e))
    && (scope.children.Some? ==>
          && (forall comp :: comp in scope.children.value ==> CloseChild(scope.children.value[comp]) in scope.cleanups)
          && (forall comp, comp' :: comp in scope.children.value && comp' in scope.children.value && comp != comp' ==>
                scope.children.value[comp] != scope.children.value[comp']))
  }

  ghost predicate Shape(s: State) {
    s.scopes != [] && !s.panicked && forall i :: 0 <= i < |s.scopes| ==> ScopeShape(s, i)
  }

  lemma AddKeepsShape(s: State, scope: nat)
    requires Shape(s) && scope < |s.scopes|
    ensures Shape(DoAdd(s, scope))
  {
    var s' := DoAdd(s, scope);
    forall i | 0 <= i < |s'.scopes|
      ensures ScopeShape(s', i)
    {
      assert ScopeShape(s, i);
      forall e | e in s'.scopes[i].cleanups
        ensures EntryShape(s', i, e)
      {
        assert e in s.scopes[i].cleanups || (i == scope && e == Func(|s.homes|));
      }
    }
  }

  lemma OpenContextHasChildren(s: State, scope: nat)
    requires Shape(s) && scope < |s.scopes| && !ContextDone(s, scope)
    ensures s.scopes[scope].children.Some?
  {
    assert ScopeShape(s, scope);
  }

  lemma StartKeepsShape(s: State, scope: nat, comp: nat)
    requires Shape(s) && scope < |s.scopes|
    ensures Shape(DoStart(s, scope, comp))
  {
    if !ContextDone(s, scope) {
      OpenContextHasChildren(s, scope);
      var s' := DoStart(s, scope, comp);
      forall i | 0 <= i < |s'.scopes|
        ensures ScopeShape(s', i)
      {
        if i < |s.scopes| {
          StartKeepsScope(s, scope, comp, i);
        }
      }
    }
  }

  lemma StartKeepsScope(s: State, scope: nat, comp: nat, i: nat)
    requires Shape(s) && scope < |s.scopes| && i < |s.scopes| && !ContextDone(s, scope)
    ensures var s' := DoStart(s, scope, comp); |s.scopes| <= |s'.scopes| && ScopeShape(s', i)
  {
    OpenContextHasChildren(s, scope);
    assert ScopeShape(s, i);
    var s', child := DoStart(s, scope, comp), |s.scopes|;
    if s' != s {
      forall e | e in s'.scopes[i].cleanups
        ensures EntryShape(s', i, e)
      {
        assert e in s.scopes[i].cleanups || (i == scope && e == CloseChild(child));
        if e in s.scopes[i].cleanups {
          assert EntryShape(s, i, e);
        }
      }
      if i == scope {
        assert forall c :: c in s.scopes[i].children.value ==>
                 EntryShape(s, i, CloseChild(s.scopes[i].children.value[c]));
        assert s'.scopes[i].cleanups[|s.scopes[i].cleanups|] == CloseChild(child);
      }
    }
  }

  lemma StepKeepsShape(s: State, t: nat, fails: bool)
    requires Shape(s) && CanStep(s, t)
    ensures Shape(DoStep(s, t, fails))
  {
    var s' := DoStep(s, t, fails);
    forall i | 0 <= i < |s'.scopes|
      ensures ScopeShape(s', i)
    {
      assert ScopeShape(s, i);
      forall e | e in s'.scopes[i].cleanups
        ensures EntryShape(s', i, e)
      {
        assert EntryShape(s, i, e);
      }
    }
  }

  lemma ActKeepsShape(s: State, a: Action)
    requires Shape(s) && CanAct(s, a)
    ensures Shape(Act(s, a))
  {
    match a
    case Add(scope) => AddKeepsShape(s, scope);
    case Start(scope, comp) => StartKeepsShape(s, scope, comp);
    case CancelOuter => SameScopesSameShape(s, Act(s, a));
    case CallClose(_) => SameScopesSameShape(s, Act(s, a));
    case Step(t, fails) => StepKeepsShape(s, t, fails);
  }

  lemma SameScopesSameShape(s: State, s': State)
    requires Shape(s) && s'.scopes == s.scopes && s'.late == s.late && !s'.panicked
    ensures Shape(s')
  {
    forall i | 0 <= i < |s'.scopes|
      ensures ScopeShape(s', i)
    {
      assert ScopeShape(s, i);
      forall e | e in s'.scopes[i].cleanups
        ensures EntryShape(s', i, e)
      {
        assert EntryShape(s, i, e);
      }
    }
  }

  // ----- A child whose turn has come is closed -----

  ghost predicate Entering(s: State, c: nat) {
    exists t, k :: 0 <= t < |s.threads| && 0 <= k < |s.threads[t]| && s.threads[t][k] == Enter(c)
  }

  ghost predicate Entered(s: State, c: nat) {
    c < |s.scopes| && CloseChild(c) in s.performed ==> s.scopes[c].cancelled || Entering(s, c)
  }

  lemma StepKeepsEntered(s: State, t: nat, fails: bool, c: nat)
    requires Entered(s, c) && CanStep(s, t)
    ensures Entered(DoStep(s, t, fails), c)
  {
    var s', stack := DoStep(s, t, fails), s.threads[t];
    var n := |stack| - 1;
    if c < |s'.scopes| && CloseChild(c) in s'.performed && !s'.scopes[c].cancelled {
      if CloseChild(c) in s.performed {
        var u, k :| 0 <= u < |s.threads| && 0 <= k < |s.threads[u]| && s.threads[u][k] == Enter(c);
        if u != t {
          assert s'.threads[u][k] == Enter(c);
        } else {
          assert k < n;
          assert s'.threads[t][k] == Enter(c);
        }
      } else {
        assert s'.threads[t][n + 1] == Enter(c);
      }
    }
  }

  lemma ActKeepsEntered(s: State, a: Action, c: nat)
    requires Entered(s, c) && CanAct(s, a) && (c < |s.scopes| || CloseChild(c) !in s.performed)
    ensures Entered(Act(s, a), c)
  {
    match a
    case Step(t, fails) => StepKeepsEntered(s, t, fails, c);
    case _ =>
      if Entering(s, c) {
        var t, k :| 0 <= t < |s.threads| && 0 <= k < |s.threads[t]| && s.threads[t][k] == Enter(c);
        assert Act(s, a).threads[t][k] == Enter(c);
      }
  }

  // ----- Closing threads are never stuck -----

  ghost predicate FramesIn(stack: seq<Frame>, n: nat) {
    forall k :: 0 <= k < |stack| && stack[k].Enter? ==> stack[k].scope < n
  }

  ghost predicate Unstuck(s: State) {
    forall t :: 0 <= t < |s.threads| ==> FramesIn(s.threads[t], |s.scopes|)
  }

  lemma {:induction false} HeldAtLeast(e: Entry, threads: seq<seq<Frame>>, t: nat)
    requires t < |threads|
    ensures Held(e, threads) >= HeldIn(e, threads[t])
  {
    if t == 0 {
    } else {
      HeldAtLeast(e, threads[1..], t - 1);
    }
  }

  lemma StepKeepsUnstuck(s: State, t: nat, fails: bool)
    requires Unstuck(s) && CanStep(s, t)
    requires forall e :: Conserved(s, e) && Unique(s, e)
    ensures Unstuck(DoStep(s, t, fails))
  {
    var stack := s.threads[t];
    assert FramesIn(stack, |s.scopes|);
    if Top(stack).Running? && Top(stack).rest != [] {
      var rest := Top(stack).rest;
      var e := rest[|rest| - 1];
      assert Conserved(s, e) && Unique(s, e);
      HeldAtLeast(e, s.threads, t);
    }
  }

  lemma ActKeepsUnstuck(s: State, a: Action)
    requires Unstuck(s) && CanAct(s, a)
    requires forall e :: Conserved(s, e) && Unique(s, e)
    ensures Unstuck(Act(s, a))
  {
    if a.Step? {
      StepKeepsUnstuck(s, a.t, a.fails);
    }
  }

  // ----- Every reachable state -----

  ghost predicate Inv(s: State) {
    && Shape(s)
    && (forall e :: Conserved(s, e) && Unique(s, e))
    && (forall c :: Entered(s, c))
    && Unstuck(s)
  }

  lemma ActKeepsInv(s: State, a: Action)
    requires Inv(s) && CanAct(s, a)
    ensures Inv(Act(s, a))
  {
    ActKeepsShape(s, a);
    ActKeepsUnstuck(s, a);
    forall e
      ensures Conserved(Act(s, a), e) && Unique(Act(s, a), e)
    {
      ActConserves(s, a, e);
      ActUnique(s, a, e);
    }
    forall c
      ensures Entered(Act(s, a), c)
    {
      assert Entered(s, c) && Conserved(s, CloseChild(c)) && Unique(s, CloseChild(c));
      ActKeepsEntered(s, a, c);
    }
  }

  lemma {:induction false} RunKeepsInv(s: State, run: seq<Action>)
    requires Inv(s) && Possible(s, run)
    ensures Inv(After(s, run))
    decreases |run|
  {
    if run == [] {
    } else {
      ActKeepsInv(s, run[0]);
      RunKeepsInv(Act(s, run[0]), run[1..]);
    }
  }

  lemma ReachableInv(s: State)
    requires Reachable(s)
    ensures Inv(s)
  {
    var run :| Possible(START, run) && After(START, run) == s;
    forall e
      ensures Conserved(START, e)
    {
      assert Pending(e, START.scopes[1..]) == 0;
    }
    RunKeepsInv(START, run);
  }

  /** A cleanup that was added, and a child's closing entry, is in exactly one place: waiting in one scope, in the
      hands of one closing thread, or performed; nothing is ever performed twice. */
  lemma ExactlyOnePlace(s: State, e: Entry)
    requires Reachable(s)
    ensures Pending(e, s.scopes) + Held(e, s.threads) + Count(e, s.performed) ==
              match e
              case Func(id) => if id < |s.homes| then 1 else 0
              case CloseChild(c) => if 0 < c < |s.scopes| then 1 else 0
  {
    ReachableInv(s);
    assert Conserved(s, e) && Unique(s, e);
  }

  /** Starting never writes to a nil map; in a closed scope, or below one, it changes nothing at all. */
  lemma StartNeverPanics(s: State, scope: nat, comp: nat)
    requires Reachable(s) && scope < |s.scopes|
    ensures !Act(s, Start(scope, comp)).panicked
    ensures ContextDone(s, scope) ==> Act(s, Start(scope, comp)) == s
    ensures s.scopes[scope].cancelled || (0 < scope && ContextDone(s, s.scopes[scope].parent)) ==> ContextDone(s, scope)
  {
    ReachableInv(s);
    StartKeepsShape(s, scope, comp);
    assert ScopeShape(s, scope);
  }

  lemma {:induction false} PendingAtLeast(e: Entry, scopes: seq<ScopeState>, i: nat)
    requires i < |scopes|
    ensures Pending(e, scopes) >= Count(e, scopes[i].cleanups)
  {
    if i == 0 {
    } else {
      PendingAtLeast(e, scopes[1..], i - 1);
    }
  }

  lemma {:induction false} PendingWhere(e: Entry, scopes: seq<ScopeState>)
    requires Pending(e, scopes) > 0
    ensures exists i :: 0 <= i < |scopes| && e in scopes[i].cleanups
  {
    if Count(e, scopes[0].cleanups) > 0 {
      assert e in scopes[0].cleanups;
    } else {
      PendingWhere(e, scopes[1..]);
      var i :| 0 <= i < |scopes[1..]| && e in scopes[1..][i].cleanups;
      assert e in scopes[i + 1].cleanups;
    }
  }

  /** However often a component is started, it has one child scope, with one closing entry waiting in its parent. */
  lemma OneChildPerComponent(s: State, i: nat, comp: nat)
    requires Reachable(s) && i < |s.scopes| && s.scopes[i].children.Some? && comp in s.scopes[i].children.value
    ensures var c := s.scopes[i].children.value[comp];
            && c < |s.scopes| && s.scopes[c].parent == i
            && Count(CloseChild(c), s.scopes[i].cleanups) == 1
            && Held(CloseChild(c), s.threads) == 0 && CloseChild(c) !in s.performed
            && Act(s, Start(i, comp)) == s
  {
    ReachableInv(s);
    assert ScopeShape(s, i);
    var e := CloseChild(s.scopes[i].children.value[comp]);
    assert EntryShape(s, i, e);
    ExactlyOnePlace(s, e);
    PendingAtLeast(e, s.scopes, i);
  }

  /** No call of `Close` is in progress. */
  ghost predicate Quiet(s: State) {
    forall t :: 0 <= t < |s.threads| ==> s.threads[t] == []
  }

  lemma {:induction false} NothingHeld(e: Entry, threads: seq<seq<Frame>>)
    requires forall t :: 0 <= t < |threads| ==> threads[t] == []
    ensures Held(e, threads) == 0
  {
    if threads == [] {
    } else {
      NothingHeld(e, threads[1..]);
    }
  }

  lemma {:induction false} AllClosed(s: State, c: nat)
    requires Inv(s) && Quiet(s) && s.scopes[0].cancelled && c < |s.scopes|
    ensures s.scopes[c].cancelled
    decreases c
  {
    if c == 0 {
    } else {
      var e := CloseChild(c);
      assert Conserved(s, e) && Unique(s, e) && Entered(s, c);
      NothingHeld(e, s.threads);
      if Pending(e, s.scopes) > 0 {
        PendingWhere(e, s.scopes);
        var i :| 0 <= i < |s.scopes| && e in s.scopes[i].cleanups;
        assert ScopeShape(s, i) && EntryShape(s, i, e);
        AllClosed(s, i);
        assert false;
      }
    }
  }

  /** What was added in time does not wait in a closed scope. */
  lemma TimelyIsTaken(s: State, id: nat)
    requires Inv(s) && id !in s.late && forall c :: 0 <= c < |s.scopes| ==> s.scopes[c].cancelled
    ensures Pending(Func(id), s.scopes) == 0
  {
    forall i | 0 <= i < |s.scopes|
      ensures Func(id) !in s.scopes[i].cleanups
    {
      assert ScopeShape(s, i);
      assert Func(id) in s.scopes[i].cleanups ==> EntryShape(s, i, Func(id));
    }
    if Pending(Func(id), s.scopes) > 0 {
      PendingWhere(Func(id), s.scopes);
    }
  }

  /** Once the root has been closed and no call of `Close` is in progress, the whole tree is closed and every cleanup
      that was not added to a scope already closed has run exactly once. */
  lemma TeardownIsComplete(s: State)
    requires Reachable(s) && Quiet(s) && s.scopes != [] && s.scopes[0].cancelled
    ensures forall c :: 0 <= c < |s.scopes| ==> s.scopes[c].cancelled
    ensures forall id :: 0 <= id < |s.homes| && id !in s.late ==> Count(Func(id), s.performed) == 1
  {
    ReachableInv(s);
    forall c | 0 <= c < |s.scopes|
      ensures s.scopes[c].cancelled
    {
      AllClosed(s, c);
    }
    forall id | 0 <= id < |s.homes| && id !in s.late
      ensures Count(Func(id), s.performed) == 1
    {
      assert Conserved(s, Func(id)) && Unique(s, Func(id));
      NothingHeld(Func(id), s.threads);
      TimelyIsTaken(s, id);
    }
  }

  // ----- Closing ends -----

  function FrameWork(frame: Frame): nat {
    if frame.Enter? then 2 else 1 + 3 * |frame.rest|
  }

  function StackWork(stack: seq<Frame>): nat {
    if stack == [] then 0 else StackWork(stack[..|stack| - 1]) + FrameWork(Top(stack))
  }

  function ThreadWork(threads: seq<seq<Frame>>): nat {
    if threads == [] then 0 else StackWork(threads[0]) + ThreadWork(threads[1..])
  }

  function ScopeWork(scopes: seq<ScopeState>): nat {
    if scopes == [] then 0 else 3 * |scopes[0].cleanups| + ScopeWork(scopes[1..])
  }

  /** What the closing threads may have left to do. */
  function Work(s: State): nat {
    ScopeWork(s.scopes) + ThreadWork(s.threads)
  }

  lemma StackPush(stack: seq<Frame>, frame: Frame)
    ensures StackWork(stack + [frame]) == StackWork(stack) + FrameWork(frame)
  {
    assert (stack + [frame])[..|stack|] == stack;
  }

  lemma {:induction false} ThreadUpdate(threads: seq<seq<Frame>>, t: nat, stack: seq<Frame>)
    requires t < |threads|
    ensures ThreadWork(threads[t := stack]) == ThreadWork(threads) - StackWork(threads[t]) + StackWork(stack)
  {
    if t == 0 {
      assert threads[t := stack][1..] == threads[1..];
    } else {
      assert threads[t := stack][1..] == threads[1..][t - 1 := stack];
      ThreadUpdate(threads[1..], t - 1, stack);
    }
  }

  lemma {:induction false} ScopeUpdate(scopes: seq<ScopeState>, i: nat, scope: ScopeState)
    requires i < |scopes|
    ensures ScopeWork(scopes[i := scope]) == ScopeWork(scopes) - 3 * |scopes[i].cleanups| + 3 * |scope.cleanups|
  {
    if i == 0 {
      assert scopes[i := scope][1..] == scopes[1..];
    } else {
      assert scopes[i := scope][1..] == scopes[1..][i - 1 := scope];
      ScopeUpdate(scopes[1..], i - 1, scope);
    }
  }

  lemma StepWorks(s: State, t: nat, fails: bool)
    requires CanStep(s, t)
    ensures Work(DoStep(s, t, fails)) < Work(s)
  {
    var stack := s.threads[t];
    var below := stack[..|stack| - 1];
    match Top(stack)
    case Enter(scope) =>
      var taken := s.scopes[scope];
      StackPush(below, Running(taken.cleanups));
      ThreadUpdate(s.threads, t, below + [Running(taken.cleanups)]);
      ScopeUpdate(s.scopes, scope, taken.(cleanups := [], children := None, cancelled := true));
    case Running(rest) =>
      if rest == [] {
        ThreadUpdate(s.threads, t, below);
      } else {
        RunLastWorks(stack);
        ThreadUpdate(s.threads, t, RunLast(stack));
      }
  }

  lemma RunLastWorks(stack: seq<Frame>)
    requires stack != [] && Top(stack).Running? && Top(stack).rest != []
    ensures StackWork(RunLast(stack)) < StackWork(stack)
  {
    var below, rest := stack[..|stack| - 1], Top(stack).rest;
    var running := Running(rest[..|rest| - 1]);
    StackPush(below, running);
    if rest[|rest| - 1].CloseChild? {
      StackPush(below + [running], Enter(rest[|rest| - 1].scope));
    }
  }

  ghost predicate OnlySteps(run: seq<Action>) {
    forall k :: 0 <= k < |run| ==> run[k].Step?
  }

  /** Once nobody adds cleanups or starts components any more, the calls of `Close` in progress end. */
  lemma {:induction false} ClosingEnds(s: State, run: seq<Action>)
    requires Possible(s, run) && OnlySteps(run)
    ensures |run| + Work(After(s, run)) <= Work(s)
    decreases |run|
  {
    if run == [] {
    } else {
      StepWorks(s, run[0].t, run[0].fails);
      ClosingEnds(Act(s, run[0]), run[1..]);
    }
  }

  lemma StuckIsQuiet(s: State, run: seq<Action>)
    requires Inv(s) && Possible(s, run)
    requires forall t: nat :: !CanStep(After(s, run), t)
    ensures Quiet(After(s, run))
  {
    RunKeepsInv(s, run);
    var s' := After(s, run);
    forall t | 0 <= t < |s'.threads|
      ensures s'.threads[t] == []
    {
      assert FramesIn(s'.threads[t], |s'.scopes|);
      assert !CanStep(s', t);
    }
  }

  /** A run of the closing threads that cannot go on has finished every call of `Close`. */
  lemma EveryCloseReturns(s: State, run: seq<Action>)
    requires Reachable(s) && Possible(s, run) && OnlySteps(run)
    requires forall t: nat :: !CanStep(After(s, run), t)
    ensures |run| <= Work(s) && Quiet(After(s, run))
  {
    ReachableInv(s);
    ClosingEnds(s, run);
    StuckIsQuiet(s, run);
  }

  // ----- Failures -----

  /** The same calls, which may fail at different points. */
  predicate Alike(a: Action, b: Action) {
    a == b || (a.Step? && b.Step? && a.t == b.t)
  }

  /** The same state, but for which cleanups have failed. */
  predicate Same(s: State, s': State) {
    s'.(failed := s.failed) == s
  }

  lemma {:induction false} SameContext(s: State, s': State, i: nat)
    requires Same(s, s')
    ensures ContextDone(s', i) <==> ContextDone(s, i)
    decreases i
  {
    if i < |s.scopes| && s.scopes[i].parent < i {
      SameContext(s, s', s.scopes[i].parent);
    } else {
    }
  }

  lemma SameAct(s: State, s': State, a: Action, b: Action)
    requires Same(s, s') && Alike(a, b) && CanAct(s, a)
    ensures CanAct(s', b) && Same(Act(s, a), Act(s', b))
  {
    match a
    case Add(_) =>
    case Start(scope, comp) => SameStart(s, s', scope, comp);
    case CancelOuter =>
    case CallClose(_) =>
    case Step(t, fails) => SameStep(s, s', t, fails, b.fails);
  }

  lemma SameStart(s: State, s': State, scope: nat, comp: nat)
    requires Same(s, s') && scope < |s.scopes|
    ensures Same(DoStart(s, scope, comp), DoStart(s', scope, comp))
  {
    SameContext(s, s', scope);
  }

  lemma SameStep(s: State, s': State, t: nat, fails: bool, fails': bool)
    requires Same(s, s') && CanStep(s, t)
    ensures CanStep(s', t) && Same(DoStep(s, t, fails), DoStep(s', t, fails'))
  {
  }

  /** Which cleanups fail makes no difference to anything else: the same calls can be made, and they lead to the same
      state, with the same cleanups performed in the same order. */
  lemma {:induction false} FailuresChangeNothing(s: State, s': State, run: seq<Action>, run': seq<Action>)
    requires Same(s, s') && Possible(s, run) && |run'| == |run|
    requires forall k :: 0 <= k < |run| ==> Alike(run[k], run'[k])
    ensures Possible(s', run') && Same(After(s, run), After(s', run'))
    decreases |run|
  {
    if run == [] {
    } else {
      assert Alike(run[0], run'[0]);
      SameAct(s, s', run[0], run'[0]);
      FailuresChangeNothing(Act(s, run[0]), Act(s', run'[0]), run[1..], run'[1..]);
    }
  }
}
