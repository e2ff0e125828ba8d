/** When only the root is closed, by however many calls, whole subtrees are torn down in reverse order. */
module ScopeTree {
  import opened ScopeConcurrency
  import opened ScopeTheorems
  import opened ScopeOrder

  /** Scope `x` is scope `d` or one that was created in it, directly or further down. */
  predicate Below(s: State, x: nat, d: nat)
    decreases x
  {
    x == d || (0 < x < |s.scopes| && s.scopes[x].parent < x && Below(s, s.scopes[x].parent, d))
  }

  /** Two components of one scope, `b` first started after `a`: scopes are numbered as they are created. */
  predicate Siblings(s: State, a: nat, b: nat) {
    0 < a < b < |s.scopes| && s.scopes[a].parent == s.scopes[b].parent
  }

  /** Entry `e` was registered in scope `i`. */
  predicate RegisteredIn(s: State, e: Entry, i: nat) {
    match e
    case Func(id) => id < |s.homes| && s.homes[id] == i
    case CloseChild(c) => i < c < |s.scopes| && s.scopes[c].parent == i
  }

  // ----- The past is never rewritten -----

  ghost predicate Grew(s: State, s': State) {
    && |s.scopes| <= |s'.scopes|
    && (forall i :: 0 <= i < |s.scopes| ==>
          s'.scopes[i].parent == s.scopes[i].parent && (s.scopes[i].cancelled ==> s'.scopes[i].cancelled))
    && s.homes <= s'.homes
    && s.performed <= s'.performed
  }

  lemma ActGrows(s: State, a: Action)
    requires CanAct(s, a)
    ensures Grew(s, Act(s, a))
  {
  }

  lemma {:induction false} BelowGrows(s: State, s': State, x: nat, d: nat)
    requires Grew(s, s') && x < |s.scopes|
    ensures Below(s', x, d) <==> Below(s, x, d)
    decreases x
  {
    if x == d {
    } else if 0 < x && s.scopes[x].parent < x {
      BelowGrows(s, s', s.scopes[x].parent, d);
    }
  }

  lemma {:induction false} BelowIsLater(s: State, x: nat, d: nat)
    requires Below(s, x, d)
    ensures d <= x
    decreases x
  {
    if x == d {
    } else {
      BelowIsLater(s, s.scopes[x].parent, d);
    }
  }

  lemma PerformedGrows(s: State, s': State, e: Entry, f: Entry)
    requires Grew(s, s') && PerformedFirst(s.performed, e, f)
    ensures PerformedFirst(s'.performed, e, f)
  {
    assert s'.performed == s.performed + s'.performed[|s.performed|..];
    PerformedMore(s.performed, e, f, s'.performed[|s.performed|..]);
  }

  // ----- Where entries are registered -----

  ghost predicate HomesInv(s: State) {
    forall i :: 0 <= i < |s.scopes| ==> forall e :: e in s.scopes[i].cleanups ==> RegisteredIn(s, e, i)
  }

  lemma ActKeepsHomes(s: State, a: Action)
    requires Inv(s) && HomesInv(s) && CanAct(s, a)
    ensures HomesInv(Act(s, a))
  {
    var s' := Act(s, a);
    ActGrows(s, a);
    forall i, e | 0 <= i < |s'.scopes| && e in s'.scopes[i].cleanups
      ensures RegisteredIn(s', e, i)
    {
      if i < |s.scopes| && e in s.scopes[i].cleanups {
        assert RegisteredIn(s, e, i);
      }
    }
  }

  /** The closing entry of a child waits in its parent until that is closed. */
  ghost predicate Attached(s: State, c: nat) {
    0 < c < |s.scopes| ==>
      var p := s.scopes[c].parent;
      p < c && (s.scopes[p].cancelled || CloseChild(c) in s.scopes[p].cleanups)
  }

  lemma ActKeepsAttached(s: State, a: Action, c: nat)
    requires Inv(s) && CanAct(s, a) && Attached(s, c)
    ensures Attached(Act(s, a), c)
  {
    ActGrows(s, a);
    var s' := Act(s, a);
    if 0 < c < |s.scopes| {
      var p := s.scopes[c].parent;
      assert s'.scopes[p].cancelled || s.scopes[p].cleanups <= s'.scopes[p].cleanups;
    }
  }

  lemma PerformedParentIsClosed(s: State, c: nat)
    requires Inv(s) && Attached(s, c) && CloseChild(c) in s.performed
    ensures 0 < c < |s.scopes| && s.scopes[s.scopes[c].parent].cancelled
  {
    assert Conserved(s, CloseChild(c)) && Unique(s, CloseChild(c));
    assert Count(CloseChild(c), s.performed) > 0;
    var p := s.scopes[c].parent;
    if CloseChild(c) in s.scopes[p].cleanups {
      PendingIsNotPerformed(s, p, CloseChild(c));
    }
  }

  // ----- The closing threads -----

  ghost predicate FrameOf(s: State, frame: Frame, i: nat) {
    match frame
    case Enter(scope) => scope == i
    case Running(rest) => forall e :: e in rest ==> RegisteredIn(s, e, i)
  }

  /** The nested calls of the thread go down the tree along `path`, from the root. */
  ghost predicate Chain(s: State, stack: seq<Frame>, path: seq<nat>) {
    && |path| == |stack|
    && (path != [] ==> path[0] == 0)
    && (forall j :: 0 < j < |path| ==>
          RegisteredIn(s, CloseChild(path[j]), path[j - 1]) && CloseChild(path[j]) in s.performed)
    && (forall j :: 0 <= j < |path| ==> FrameOf(s, stack[j], path[j]) && (j < |path| - 1 ==> stack[j].Running?))
  }

  /** A call that has not begun, or that found the root closed and so holds nothing but late cleanups of the root. */
  ghost predicate Latecomer(s: State, stack: seq<Frame>) {
    && |stack| <= 1
    && (stack != [] && stack[0].Enter? ==> stack[0].scope == 0)
    && (stack != [] && stack[0].Running? ==> forall e :: e in stack[0].rest ==> e.Func? && RegisteredIn(s, e, 0))
  }

  ghost predicate OnPath(s: State, stack: seq<Frame>) {
    exists path :: Chain(s, stack, path)
  }

  /** Thread `main` is the one that has closed the root, if there is one; the others come too late. */
  ghost predicate MainInv(s: State, main: nat) {
    && (forall t :: 0 <= t < |s.threads| && t != main ==> Latecomer(s, s.threads[t]))
    && (main < |s.threads| ==> s.scopes != [] && s.scopes[0].cancelled && OnPath(s, s.threads[main]))
  }

  ghost predicate ThreadsInv(s: State) {
    exists main: nat :: MainInv(s, main)
  }

  lemma FrameGrows(s: State, s': State, frame: Frame, i: nat)
    requires Grew(s, s') && FrameOf(s, frame, i)
    ensures FrameOf(s', frame, i)
  {
    if frame.Running? {
      forall e | e in frame.rest
        ensures RegisteredIn(s', e, i)
      {
        assert RegisteredIn(s, e, i);
      }
    }
  }

  lemma ChainGrows(s: State, s': State, stack: seq<Frame>, path: seq<nat>)
    requires Grew(s, s') && Chain(s, stack, path)
    ensures Chain(s', stack, path)
  {
    forall j | 0 <= j < |path|
      ensures FrameOf(s', stack[j], path[j])
    {
      FrameGrows(s, s', stack[j], path[j]);
    }
  }

  lemma ChainPrefix(s: State, stack: seq<Frame>, path: seq<nat>, n: nat)
    requires Chain(s, stack, path) && n <= |path|
    ensures Chain(s, stack[..n], path[..n])
  {
  }

  /** A call goes on at the end of the path, or one further down. */
  lemma ChainPush(s: State, stack: seq<Frame>, path: seq<nat>, frame: Frame, i: nat)
    requires Chain(s, stack, path) && FrameOf(s, frame, i)
    requires forall j :: 0 <= j < |stack| ==> stack[j].Running?
    requires if path == [] then i == 0
             else RegisteredIn(s, CloseChild(i), path[|path| - 1]) && CloseChild(i) in s.performed
    ensures Chain(s, stack + [frame], path + [i])
  {
  }

  /** The calls below the top one, and what the top one may go on with, in a later state. */
  ghost predicate ReadyAt(s: State, stack: seq<Frame>, path: seq<nat>)
    requires |stack| == |path| > 0
  {
    var n := |path| - 1;
    && Chain(s, stack[..n], path[..n]) && FrameOf(s, stack[n], path[n])
    && (forall j :: 0 <= j < n ==> stack[j].Running?)
    && if n == 0 then path[n] == 0
       else RegisteredIn(s, CloseChild(path[n]), path[n - 1]) && CloseChild(path[n]) in s.performed
  }

  lemma ChainReady(s: State, s': State, stack: seq<Frame>, path: seq<nat>)
    requires Grew(s, s') && Chain(s, stack, path) && path != []
    ensures ReadyAt(s', stack, path)
  {
    ChainGrows(s, s', stack, path);
    ChainPrefix(s', stack, path, |path| - 1);
  }

  lemma ChainReplace(s: State, stack: seq<Frame>, path: seq<nat>, frame: Frame)
    requires |stack| == |path| > 0 && ReadyAt(s, stack, path) && FrameOf(s, frame, path[|path| - 1])
    ensures Chain(s, stack[..|stack| - 1] + [frame], path)
  {
    var n := |path| - 1;
    assert n > 0 ==> path[..n][n - 1] == path[n - 1];
    ChainPush(s, stack[..n], path[..n], frame, path[n]);
    assert path[..n] + [path[n]] == path;
  }

  /** The thread performs the last entry it holds, and enters a child scope if that is what it says. */
  lemma RunLastOnPath(s: State, stack: seq<Frame>, path: seq<nat>)
    requires |stack| == |path| > 0 && ReadyAt(s, stack, path) && Top(stack).Running? && Top(stack).rest != []
    requires Top(stack).rest[|Top(stack).rest| - 1] in s.performed
    ensures OnPath(s, RunLast(stack))
  {
    var n, rest := |stack| - 1, Top(stack).rest;
    var e, frame := rest[|rest| - 1], Running(rest[..|rest| - 1]);
    assert e in rest;
    ChainReplace(s, stack, path, frame);
    if e.CloseChild? {
      ChainPush(s, stack[..n] + [frame], path, Enter(e.scope), e.scope);
    }
  }

  lemma StepChain(s: State, t: nat, fails: bool, path: seq<nat>)
    requires Inv(s) && HomesInv(s) && CanStep(s, t) && Chain(s, s.threads[t], path)
    ensures OnPath(DoStep(s, t, fails), DoStep(s, t, fails).threads[t])
  {
    var s', stack := DoStep(s, t, fails), s.threads[t];
    var n := |stack| - 1;
    ActGrows(s, Step(t, fails));
    ChainReady(s, s', stack, path);
    match Top(stack) {
      case Enter(i) =>
        assert FrameOf(s, stack[n], path[n]);
        var frame := Running(s.scopes[i].cleanups);
        FrameGrows(s, s', frame, i);
        ChainReplace(s', stack, path, frame);
      case Running(rest) =>
        if rest != [] {
          assert s'.performed[|s.performed|] == rest[|rest| - 1];
          RunLastOnPath(s', stack, path);
        }
    }
  }

  lemma LatecomerGrows(s: State, s': State, stack: seq<Frame>)
    requires Grew(s, s') && Latecomer(s, stack)
    ensures Latecomer(s', stack)
  {
    if stack != [] && stack[0].Running? {
      forall e | e in stack[0].rest
        ensures e.Func? && RegisteredIn(s', e, 0)
      {
        assert RegisteredIn(s, e, 0);
      }
    }
  }

  /** A latecomer stays one, unless it is the first to close the root. */
  lemma LatecomerSteps(s: State, t: nat, fails: bool)
    requires Inv(s) && HomesInv(s) && CanStep(s, t) && Latecomer(s, s.threads[t])
    requires s.scopes[0].cancelled || Top(s.threads[t]).Running?
    ensures Latecomer(DoStep(s, t, fails), DoStep(s, t, fails).threads[t])
  {
    var s', stack := DoStep(s, t, fails), s.threads[t];
    ActGrows(s, Step(t, fails));
    LatecomerGrows(s, s', stack);
    assert stack[..0] == [];
    if stack[0].Enter? {
      assert s'.threads[t] == [Running(s.scopes[0].cleanups)];
      forall e | e in s.scopes[0].cleanups
        ensures e.Func? && RegisteredIn(s', e, 0)
      {
        assert ScopeShape(s, 0) && EntryShape(s, 0, e) && RegisteredIn(s, e, 0);
      }
    } else if stack[0].rest == [] {
      assert s'.threads[t] == [];
    } else {
      var rest := stack[0].rest;
      assert rest[|rest| - 1] in rest;
      assert s'.threads[t] == [Running(rest[..|rest| - 1])];
    }
  }

  /** No child scope is closed but by its parent: a call of `Close` from outside is on the root. */
  ghost predicate Rooted(a: Action) {
    a.CallClose? ==> a.scope == 0
  }

  lemma OthersKept(s: State, a: Action, main: nat, t: nat)
    requires CanAct(s, a) && MainInv(s, main) && t < |s.threads| && !(a.Step? && a.t == t)
    ensures t < |Act(s, a).threads| && Act(s, a).threads[t] == s.threads[t]
    ensures t != main ==> Latecomer(Act(s, a), s.threads[t])
    ensures t == main ==> OnPath(Act(s, a), s.threads[t])
  {
    ActGrows(s, a);
    if t == main {
      var path :| Chain(s, s.threads[t], path);
      ChainGrows(s, Act(s, a), s.threads[t], path);
    } else {
      LatecomerGrows(s, Act(s, a), s.threads[t]);
    }
  }

  /** Which thread is the main one after a step: the first to close the root becomes it. */
  function MainAfter(s: State, a: Action, main: nat): nat
    requires CanAct(s, a)
  {
    if main < |s.threads| then main
    else if a.CallClose? then |s.threads| + 1
    else if a.Step? && Top(s.threads[a.t]).Enter? && s.scopes != [] && !s.scopes[0].cancelled then a.t
    else |s.threads|
  }

  lemma MainSteps(s: State, t: nat, fails: bool, main: nat)
    requires Inv(s) && HomesInv(s) && CanStep(s, t) && MainInv(s, main)
    ensures var s', main' := DoStep(s, t, fails), MainAfter(s, Step(t, fails), main);
            if t == main' then s'.scopes[0].cancelled && OnPath(s', s'.threads[t]) else Latecomer(s', s'.threads[t])
  {
    ActGrows(s, Step(t, fails));
    if t == MainAfter(s, Step(t, fails), main) {
      if main >= |s.threads| {
        assert Chain(s, s.threads[t], [0]);
      }
      var path :| Chain(s, s.threads[t], path);
      StepChain(s, t, fails, path);
    } else {
      LatecomerSteps(s, t, fails);
    }
  }

  lemma ActKeepsThreads(s: State, a: Action)
    requires Inv(s) && HomesInv(s) && ThreadsInv(s) && CanAct(s, a) && Rooted(a)
    ensures ThreadsInv(Act(s, a))
  {
    var main: nat :| MainInv(s, main);
    var s', main' := Act(s, a), MainAfter(s, a, main);
    ActGrows(s, a);
    if a.Step? {
      MainSteps(s, a.t, a.fails, main);
    }
    forall t | 0 <= t < |s'.threads|
      ensures if t == main' then OnPath(s', s'.threads[t]) else Latecomer(s', s'.threads[t])
    {
      if t < |s.threads| && !(a.Step? && a.t == t) {
        OthersKept(s, a, main, t);
      }
    }
    assert MainInv(s', main');
  }

  // ----- What a thread has left behind it -----

  lemma {:induction false} PathAscends(s: State, stack: seq<Frame>, path: seq<nat>, k: nat, n: nat)
    requires Chain(s, stack, path) && k <= n < |path|
    ensures path[k] <= path[n]
    decreases n
  {
    if k == n {
    } else {
      PathAscends(s, stack, path, k, n - 1);
      assert RegisteredIn(s, CloseChild(path[n]), path[n - 1]);
    }
  }

  lemma {:induction false} HeldWhere(e: Entry, stack: seq<Frame>)
    requires HeldIn(e, stack) > 0
    ensures exists k :: 0 <= k < |stack| && stack[k].Running? && e in stack[k].rest
  {
    var n := |stack| - 1;
    if HeldBy(e, stack[n]) > 0 {
      assert stack[n].Running? && e in stack[n].rest;
    } else {
      HeldWhere(e, stack[..n]);
      var k :| 0 <= k < |stack[..n]| && stack[..n][k].Running? && e in stack[..n][k].rest;
      assert stack[k] == stack[..n][k];
    }
  }

  lemma {:induction false} HeldNowhere(e: Entry, threads: seq<seq<Frame>>)
    requires forall t :: 0 <= t < |threads| ==> HeldIn(e, threads[t]) == 0
    ensures Held(e, threads) == 0
  {
    if threads == [] {
    } else {
      HeldNowhere(e, threads[1..]);
    }
  }

  lemma NotOnPath(s: State, stack: seq<Frame>, path: seq<nat>, e: Entry, i: nat)
    requires Chain(s, stack, path) && path != [] && RegisteredIn(s, e, i) && path[|path| - 1] < i
    ensures HeldIn(e, stack) == 0
  {
    if HeldIn(e, stack) > 0 {
      HeldWhere(e, stack);
      var k :| 0 <= k < |stack| && stack[k].Running? && e in stack[k].rest;
      assert FrameOf(s, stack[k], path[k]);
      PathAscends(s, stack, path, k, |path| - 1);
    }
  }

  lemma NotWithLatecomer(s: State, stack: seq<Frame>, e: Entry, i: nat)
    requires Latecomer(s, stack) && RegisteredIn(s, e, i) && 0 < i
    ensures HeldIn(e, stack) == 0
  {
    if HeldIn(e, stack) > 0 {
      HeldWhere(e, stack);
    }
  }

  /** The main thread is in the scope at the end of `path`, about to perform an entry. */
  ghost predicate Working(s: State, main: nat, path: seq<nat>) {
    && MainInv(s, main) && main < |s.threads| && path != []
    && Chain(s, s.threads[main], path) && Top(s.threads[main]).Running?
  }

  /** Then no thread holds anything registered in a scope created after that one. */
  lemma NotHeldFurtherDown(s: State, main: nat, path: seq<nat>, e: Entry, i: nat)
    requires Working(s, main, path) && RegisteredIn(s, e, i) && path[|path| - 1] < i
    ensures Held(e, s.threads) == 0
  {
    forall t | 0 <= t < |s.threads|
      ensures HeldIn(e, s.threads[t]) == 0
    {
      if t == main {
        NotOnPath(s, s.threads[t], path, e, i);
      } else {
        NotWithLatecomer(s, s.threads[t], e, i);
      }
    }
    HeldNowhere(e, s.threads);
  }

  /** And no thread is about to enter a scope other than the root. */
  lemma NotEntering(s: State, main: nat, path: seq<nat>, c: nat)
    requires Working(s, main, path) && 0 < c
    ensures !Entering(s, c)
  {
  }

  lemma RegisteredOnce(s: State, e: Entry, i: nat)
    requires Inv(s) && HomesInv(s) && i < |s.scopes| && RegisteredIn(s, e, i) && Held(e, s.threads) == 0
    ensures e in s.scopes[i].cleanups || e in s.performed
  {
    assert Conserved(s, e) && Unique(s, e);
    if Pending(e, s.scopes) > 0 {
      PendingWhere(e, s.scopes);
      var j :| 0 <= j < |s.scopes| && e in s.scopes[j].cleanups;
      assert RegisteredIn(s, e, j);
    } else {
      assert Count(e, s.performed) > 0;
    }
  }

  /** The thread is back in the parent of `b` after it has closed `b`: everything below `b` is closed. */
  lemma {:induction false} SubtreeClosed(s: State, main: nat, path: seq<nat>, b: nat, x: nat)
    requires Inv(s) && HomesInv(s) && Working(s, main, path)
    requires path[|path| - 1] < b && CloseChild(b) in s.performed
    requires x < |s.scopes| && Below(s, x, b)
    ensures s.scopes[x].cancelled
    decreases x
  {
    BelowIsLater(s, x, b);
    NotEntering(s, main, path, x);
    assert Entered(s, x);
    if x == b {
    } else {
      var p := s.scopes[x].parent;
      SubtreeClosed(s, main, path, b, p);
      BelowIsLater(s, p, b);
      NotHeldFurtherDown(s, main, path, CloseChild(x), p);
      RegisteredOnce(s, CloseChild(x), p);
      assert ScopeShape(s, p);
      assert CloseChild(x) in s.scopes[p].cleanups ==> EntryShape(s, p, CloseChild(x));
    }
  }

  /** Then also every cleanup below `b` that was added in time has been performed. */
  lemma SubtreePerformed(s: State, main: nat, path: seq<nat>, b: nat, h: nat)
    requires Inv(s) && HomesInv(s) && Working(s, main, path)
    requires path[|path| - 1] < b && CloseChild(b) in s.performed
    requires h < |s.homes| && h !in s.late && s.homes[h] < |s.scopes| && Below(s, s.homes[h], b)
    ensures Func(h) in s.performed
  {
    var x := s.homes[h];
    SubtreeClosed(s, main, path, b, x);
    BelowIsLater(s, x, b);
    NotHeldFurtherDown(s, main, path, Func(h), x);
    RegisteredOnce(s, Func(h), x);
    assert ScopeShape(s, x);
    assert Func(h) in s.scopes[x].cleanups ==> EntryShape(s, x, Func(h));
  }

  /** A scope above the one the thread is in is on its path. */
  lemma {:induction false} AboveIsOnPath(s: State, stack: seq<Frame>, path: seq<nat>, k: nat, a: nat)
    requires Chain(s, stack, path) && k < |path| && 0 < a && Below(s, path[k], a)
    ensures CloseChild(a) in s.performed
    decreases k
  {
    if k == 0 {
    } else if path[k] == a {
    } else {
      assert RegisteredIn(s, CloseChild(path[k]), path[k - 1]);
      AboveIsOnPath(s, stack, path, k - 1, a);
    }
  }

  // ----- The order of subtrees -----

  /** When the turn of `a` comes, its later sibling `b` is done: everything below `b` is closed, and every cleanup there
      that was added in time had been performed before. */
  ghost predicate Done(s: State, a: nat, b: nat) {
    && (forall x :: 0 <= x < |s.scopes| && Below(s, x, b) ==> s.scopes[x].cancelled)
    && (forall h :: 0 <= h < |s.homes| && h !in s.late && Below(s, s.homes[h], b) ==>
          PerformedFirst(s.performed, CloseChild(a), Func(h)))
  }

  ghost predicate SiblingInv(s: State, a: nat, b: nat) {
    Siblings(s, a, b) ==>
      Ordered(s, CloseChild(a), CloseChild(b)) && (CloseChild(a) in s.performed ==> Done(s, a, b))
  }

  /** A cleanup below `a` is performed only after the turn of `a` has come. */
  ghost predicate TurnFirst(s: State, a: nat, g: nat) {
    0 < a < |s.scopes| && g < |s.homes| && Below(s, s.homes[g], a) && Func(g) in s.performed ==>
      PerformedFirst(s.performed, Func(g), CloseChild(a))
  }

  ghost predicate TreeInv(s: State) {
    && Inv(s) && HomesInv(s) && ThreadsInv(s)
    && (forall g :: 0 <= g < |s.homes| ==> s.homes[g] < |s.scopes|)
    && (forall c :: Attached(s, c))
    && (forall a, b :: SiblingInv(s, a, b))
    && (forall a, g :: TurnFirst(s, a, g))
  }

  /** Nothing can be created below a scope that is closed. */
  lemma ClosedStays(s: State, act: Action, b: nat, x: nat)
    requires CanAct(s, act) && forall y :: 0 <= y < |s.scopes| && Below(s, y, b) ==> s.scopes[y].cancelled
    requires b < |s.scopes| && x < |Act(s, act).scopes| && Below(Act(s, act), x, b)
    ensures Act(s, act).scopes[x].cancelled
  {
    var s' := Act(s, act);
    ActGrows(s, act);
    BelowGrows(s, s', if x < |s.scopes| then x else s'.scopes[x].parent, b);
  }

  /** Nor can anything be added there in time. */
  lemma PerformedStays(s: State, act: Action, a: nat, b: nat, h: nat)
    requires TreeInv(s) && CanAct(s, act) && Siblings(s, a, b) && Done(s, a, b)
    requires var s' := Act(s, act); h < |s'.homes| && h !in s'.late && Below(s', s'.homes[h], b)
    ensures PerformedFirst(Act(s, act).performed, CloseChild(a), Func(h))
  {
    var s' := Act(s, act);
    ActGrows(s, act);
    BelowGrows(s, s', s'.homes[h], b);
    PerformedGrows(s, s', CloseChild(a), Func(h));
  }

  lemma DoneStays(s: State, act: Action, a: nat, b: nat)
    requires TreeInv(s) && CanAct(s, act) && Siblings(s, a, b) && CloseChild(a) in s.performed
    ensures Done(Act(s, act), a, b)
  {
    var s' := Act(s, act);
    assert SiblingInv(s, a, b);
    forall x | 0 <= x < |s'.scopes| && Below(s', x, b)
      ensures s'.scopes[x].cancelled
    {
      ClosedStays(s, act, b, x);
    }
    forall h | 0 <= h < |s'.homes| && h !in s'.late && Below(s', s'.homes[h], b)
      ensures PerformedFirst(s'.performed, CloseChild(a), Func(h))
    {
      PerformedStays(s, act, a, b, h);
    }
  }

  /** After the turn of `a`, its scope gets no further child. */
  lemma NoNewSibling(s: State, act: Action, a: nat, b: nat)
    requires TreeInv(s) && CanAct(s, act) && Siblings(Act(s, act), a, b) && CloseChild(a) in s.performed
    ensures Siblings(s, a, b)
  {
    ActGrows(s, act);
    PerformedParentIsClosed(s, a);
  }

  lemma SiblingsOrdered(s: State, act: Action, a: nat, b: nat)
    requires TreeInv(s) && CanAct(s, act) && Siblings(Act(s, act), a, b)
    ensures Ordered(Act(s, act), CloseChild(a), CloseChild(b))
  {
    var s' := Act(s, act);
    ActGrows(s, act);
    if b < |s.scopes| {
      assert SiblingInv(s, a, b);
      ActKeepsOrder(s, act, CloseChild(a), CloseChild(b));
    } else {
      assert Attached(s, a);
      var p := s.scopes[a].parent;
      var entries := s.scopes[p].cleanups;
      var k :| 0 <= k < |entries| && entries[k] == CloseChild(a);
      assert s'.scopes[p].cleanups == entries + [CloseChild(b)];
      assert s'.scopes[p].cleanups[k] == CloseChild(a) && s'.scopes[p].cleanups[|entries|] == CloseChild(b);
    }
  }

  /** What the thread performs in a step, if anything. */
  ghost predicate Performs(s: State, act: Action, e: Entry)
    requires CanAct(s, act)
  {
    act.Step? && Top(s.threads[act.t]).Running? &&
    var rest := Top(s.threads[act.t]).rest;
    rest != [] && rest[|rest| - 1] == e
  }

  lemma PerformedNow(s: State, act: Action, e: Entry)
    requires Inv(s) && CanAct(s, act)
    ensures e in Act(s, act).performed <==> e in s.performed || Performs(s, act, e)
    ensures Performs(s, act, e) ==> e !in s.performed
  {
    if Performs(s, act, e) {
      var k := |s.threads[act.t]| - 1;
      HeldIsNotPerformed(s, act.t, k, e);
      assert Act(s, act).performed[|s.performed|] == e;
    }
  }

  lemma FirstThenNow(s: State, act: Action, e: Entry, f: Entry)
    requires CanAct(s, act) && f in s.performed && e !in s.performed
    ensures PerformedFirst(Act(s, act).performed, e, f)
  {
    var k :| 0 <= k < |s.performed| && s.performed[k] == f;
    assert PerformedFirst(s.performed, e, f);
    ActGrows(s, act);
    PerformedGrows(s, Act(s, act), e, f);
  }

  /** The turn of `a` comes. */
  lemma TurnComes(s: State, act: Action, a: nat, b: nat)
    requires TreeInv(s) && CanAct(s, act) && Siblings(s, a, b) && Performs(s, act, CloseChild(a))
    ensures Done(Act(s, act), a, b)
  {
    var s', stack := Act(s, act), s.threads[act.t];
    var main: nat :| MainInv(s, main);
    assert CloseChild(a) in Top(stack).rest;
    assert act.t != main ==> Latecomer(s, stack);
    var path :| Chain(s, stack, path);
    var n := |path| - 1;
    assert FrameOf(s, stack[n], path[n]);
    PerformedNow(s, act, CloseChild(a));
    PerformedNow(s, act, CloseChild(b));
    SiblingsOrdered(s, act, a, b);
    ActKeepsInv(s, act);
    NotWaiting(s', CloseChild(a), CloseChild(b));
    ActGrows(s, act);
    forall x | 0 <= x < |s'.scopes| && Below(s', x, b)
      ensures s'.scopes[x].cancelled
    {
      BelowGrows(s, s', x, b);
      SubtreeClosed(s, main, path, b, x);
    }
    forall h | 0 <= h < |s'.homes| && h !in s'.late && Below(s', s'.homes[h], b)
      ensures PerformedFirst(s'.performed, CloseChild(a), Func(h))
    {
      BelowGrows(s, s', s.homes[h], b);
      SubtreePerformed(s, main, path, b, h);
      FirstThenNow(s, act, CloseChild(a), Func(h));
    }
  }

  lemma ActKeepsSiblings(s: State, act: Action, a: nat, b: nat)
    requires TreeInv(s) && CanAct(s, act)
    ensures SiblingInv(Act(s, act), a, b)
  {
    var s' := Act(s, act);
    if Siblings(s', a, b) {
      SiblingsOrdered(s, act, a, b);
      if CloseChild(a) in s'.performed {
        PerformedNow(s, act, CloseChild(a));
        ActGrows(s, act);
        if CloseChild(a) in s.performed {
          NoNewSibling(s, act, a, b);
          DoneStays(s, act, a, b);
        } else {
          TurnComes(s, act, a, b);
        }
      }
    }
  }

  /** A cleanup below `a` is performed by the main thread, on its way down through `a`. */
  lemma TurnHasCome(s: State, act: Action, a: nat, g: nat)
    requires TreeInv(s) && CanAct(s, act) && Performs(s, act, Func(g)) && 0 < a && g < |s.homes|
    requires Below(Act(s, act), s.homes[g], a)
    ensures CloseChild(a) in s.performed
  {
    var stack := s.threads[act.t];
    var main: nat :| MainInv(s, main);
    assert Func(g) in Top(stack).rest;
    ActGrows(s, act);
    BelowGrows(s, Act(s, act), s.homes[g], a);
    if act.t == main {
      var path :| Chain(s, stack, path);
      var n := |path| - 1;
      assert FrameOf(s, stack[n], path[n]);
      AboveIsOnPath(s, stack, path, n, a);
    }
  }

  lemma ActKeepsTurns(s: State, act: Action, a: nat, g: nat)
    requires TreeInv(s) && CanAct(s, act)
    ensures TurnFirst(Act(s, act), a, g)
  {
    var s' := Act(s, act);
    if 0 < a < |s'.scopes| && g < |s'.homes| && Below(s', s'.homes[g], a) && Func(g) in s'.performed {
      ActGrows(s, act);
      PerformedNow(s, act, Func(g));
      assert Conserved(s, Func(g)) && Unique(s, Func(g));
      if Func(g) in s.performed {
        assert Count(Func(g), s.performed) > 0;
        BelowGrows(s, s', s.homes[g], a);
        BelowIsLater(s', s.homes[g], a);
        assert TurnFirst(s, a, g);
        PerformedGrows(s, s', Func(g), CloseChild(a));
      } else {
        TurnHasCome(s, act, a, g);
        FirstThenNow(s, act, Func(g), CloseChild(a));
      }
    }
  }

  lemma ActKeepsTree(s: State, act: Action)
    requires TreeInv(s) && CanAct(s, act) && Rooted(act)
    ensures TreeInv(Act(s, act))
  {
    var s' := Act(s, act);
    ActKeepsInv(s, act);
    ActKeepsHomes(s, act);
    ActKeepsThreads(s, act);
    forall c
      ensures Attached(s', c)
    {
      ActKeepsAttached(s, act, c);
    }
    forall a, b
      ensures SiblingInv(s', a, b)
    {
      ActKeepsSiblings(s, act, a, b);
    }
    forall a, g
      ensures TurnFirst(s', a, g)
    {
      ActKeepsTurns(s, act, a, g);
    }
  }

  /** Nothing but the root is closed from outside. */
  ghost predicate ClosesOnlyRoot(run: seq<Action>) {
    forall k :: 0 <= k < |run| ==> Rooted(run[k])
  }

  lemma {:induction false} RunKeepsTree(s: State, run: seq<Action>)
    requires TreeInv(s) && Possible(s, run) && ClosesOnlyRoot(run)
    ensures TreeInv(After(s, run))
    decreases |run|
  {
    if run == [] {
    } else {
      ActKeepsTree(s, run[0]);
      RunKeepsTree(Act(s, run[0]), run[1..]);
    }
  }

  lemma StartTree()
    ensures TreeInv(START)
  {
    forall e
      ensures Conserved(START, e)
    {
      assert Pending(e, START.scopes[1..]) == 0;
    }
    assert MainInv(START, 0);
  }

  lemma InTurn(done: seq<Entry>, h: Entry, turn: Entry, g: Entry)
    requires PerformedFirst(done, turn, h) && PerformedFirst(done, g, turn) && g in done && h != turn && turn != g
    ensures exists j, k :: 0 <= j < k < |done| && done[j] == h && done[k] == g
  {
    var j :| 0 <= j < |done| && done[j] == h && turn !in done[..j];
    var t :| 0 <= t < |done| && done[t] == turn && g !in done[..t];
    var k :| 0 <= k < |done| && done[k] == g;
    assert j < t < k;
  }

  /** In a run in which only the root is closed, by any number of calls: if `b` was first started after its sibling `a`,
      then every cleanup below `b` that was added in time has been performed before any cleanup below `a` is. */
  lemma SubtreesInReverse(run: seq<Action>, a: nat, b: nat, g: nat, h: nat)
    requires Possible(START, run) && ClosesOnlyRoot(run)
    requires var s := After(START, run);
             && Siblings(s, a, b) && g < |s.homes| && h < |s.homes| && h !in s.late
             && Below(s, s.homes[g], a) && Below(s, s.homes[h], b) && Func(g) in s.performed
    ensures var done := After(START, run).performed;
            exists j, k :: 0 <= j < k < |done| && done[j] == Func(h) && done[k] == Func(g)
  {
    StartTree();
    RunKeepsTree(START, run);
    var s := After(START, run);
    assert TurnFirst(s, a, g) && SiblingInv(s, a, b);
    InTurn(s.performed, Func(h), CloseChild(a), Func(g));
  }
}
