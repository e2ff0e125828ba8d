/**
 A tree of cleanup scopes used by many threads at once.  Adding a cleanup, the locked part of starting a component and
 the locked part of closing a scope are single steps; a closing thread then runs what it took one cleanup at a time,
 and a cleanup that closes a child scope makes it close that one first.
 */
module ScopeConcurrency {
  import opened Prelude

  datatype Entry = Func(id: nat) | CloseChild(scope: nat)

  /** Scope 0 is the root.  `children` is `None` once the map has been set to nil. */
  datatype ScopeState = ScopeState(parent: nat, cleanups: seq<Entry>, children: Option<map<nat, nat>>, cancelled: bool)

  /** A call of `Close` in progress: about to lock the scope, or running what it took from it. */
  datatype Frame = Enter(scope: nat) | Running(rest: seq<Entry>)

  /** `threads` holds the nested calls of every closing thread; `homes` are the scopes in which cleanups were added, the
      one numbered `id` in scope `homes[id]`; `registered`, `performed` and `failed` are the history, `late` the
      cleanups that were added to a scope already closed. */
  datatype State = State(
    scopes: seq<ScopeState>,
    outerDone: bool,
    threads: seq<seq<Frame>>,
    homes: seq<nat>,
    registered: multiset<Entry>,
    performed: seq<Entry>,
    failed: seq<Entry>,
    late: set<nat>,
    panicked: bool)

  const OPEN_SCOPE := ScopeState(0, [], Some(map[]), false)

  const START := State([OPEN_SCOPE], false, [], [], multiset{}, [], [], {}, false)

  /** A scope's context is done when it or a context above it has been cancelled. */
  predicate ContextDone(s: State, scope: nat)
    decreases scope
  {
    scope < |s.scopes| &&
    (s.outerDone || s.scopes[scope].cancelled ||
     (s.scopes[scope].parent < scope && ContextDone(s, s.scopes[scope].parent)))
  }

  datatype Action =
    | Add(scope: nat)
    | Start(scope: nat, comp: nat)
    | CancelOuter
    | CallClose(scope: nat)
    | Step(t: nat, fails: bool)

  predicate CanAct(s: State, a: Action) {
    match a
    case Add(scope) => scope < |s.scopes|
    case Start(scope, _) => scope < |s.scopes|
    case CancelOuter => true
    case CallClose(scope) => scope < |s.scopes|
    case Step(t, _) => CanStep(s, t)
  }

  predicate CanStep(s: State, t: nat) {
    t < |s.threads| && s.threads[t] != [] && (Top(s.threads[t]).Enter? ==> Top(s.threads[t]).scope < |s.scopes|)
  }

  function Top(stack: seq<Frame>): Frame
    requires stack != []
  {
    stack[|stack| - 1]
  }

  function Register(s: State, scope: nat, e: Entry): State
    requires scope < |s.scopes|
  {
    s.(scopes := s.scopes[scope := s.scopes[scope].(cleanups := s.scopes[scope].cleanups + [e])],
       registered := s.registered + multiset{e})
  }

  function DoAdd(s: State, scope: nat): State
    requires scope < |s.scopes|
  {
    Register(s, scope, Func(|s.homes|)).(
      homes := s.homes + [scope],
      late := if s.scopes[scope].cancelled then s.late + {|s.homes|} else s.late)
  }

  /** The locked part of starting a component; writing to a nil map of children would panic. */
  function DoStart(s: State, scope: nat, comp: nat): State
    requires scope < |s.scopes|
  {
    if ContextDone(s, scope) then s
    else if s.scopes[scope].children.None? then s.(panicked := true)
    else if comp in s.scopes[scope].children.value then s
    else
      var child := |s.scopes|;
      var parent := s.scopes[scope].(children := Some(s.scopes[scope].children.value[comp := child]));
      Register(s.(scopes := s.scopes[scope := parent] + [OPEN_SCOPE.(parent := scope)]), scope, CloseChild(child))
  }

  function Replace(s: State, t: nat, stack: seq<Frame>): State
    requires t < |s.threads|
  {
    s.(threads := s.threads[t := stack])
  }

  /** A thread with something left to run takes the last entry, and enters a child scope if that is what it says. */
  function RunLast(stack: seq<Frame>): seq<Frame>
    requires stack != [] && Top(stack).Running? && Top(stack).rest != []
  {
    var rest := Top(stack).rest;
    var e := rest[|rest| - 1];
    var running := stack[..|stack| - 1] + [Running(rest[..|rest| - 1])];
    if e.CloseChild? then running + [Enter(e.scope)] else running
  }

  /** One step of a closing thread, in which a cleanup may fail; what is run next does not depend on it. */
  function DoStep(s: State, t: nat, fails: bool): State
    requires CanStep(s, t)
  {
    var stack := s.threads[t];
    match Top(stack)
    case Enter(scope) =>
      var taken := s.scopes[scope];
      Replace(s, t, stack[..|stack| - 1] + [Running(taken.cleanups)]).(
        scopes := s.scopes[scope := taken.(cleanups := [], children := None, cancelled := true)])
    case Running(rest) =>
      if rest == [] then Replace(s, t, stack[..|stack| - 1])
      else
        var e := rest[|rest| - 1];
        Replace(s, t, RunLast(stack)).(
          performed := s.performed + [e],
          failed := if fails then s.failed + [e] else s.failed)
  }

  function Act(s: State, a: Action): State
    requires CanAct(s, a)
  {
    match a
    case Add(scope) => DoAdd(s, scope)
    case Start(scope, comp) => DoStart(s, scope, comp)
    case CancelOuter => s.(outerDone := true)
    case CallClose(scope) => s.(threads := s.threads + [[Enter(scope)]])
    case Step(t, fails) => DoStep(s, t, fails)
  }

  predicate Possible(s: State, run: seq<Action>)
    decreases |run|
  {
    run == [] || (CanAct(s, run[0]) && Possible(Act(s, run[0]), run[1..]))
  }

  function After(s: State, run: seq<Action>): State
    requires Possible(s, run)
    decreases |run|
  {
    if run == [] then s else After(Act(s, run[0]), run[1..])
  }

  ghost predicate Reachable(s: State) {
    exists run :: Possible(START, run) && After(START, run) == s
  }

  // ----- Conservation -----

  /** How often an entry occurs in a list of cleanups, in what a thread holds, and so on. */
  function Count(e: Entry, entries: seq<Entry>): nat {
    multiset(entries)[e]
  }

  lemma CountOne(e: Entry, entries: seq<Entry>, last: Entry)
    ensures Count(e, entries + [last]) == Count(e, entries) + if e == last then 1 else 0
  {
  }

  function Pending(e: Entry, scopes: seq<ScopeState>): nat {
    if scopes == [] then 0 else Count(e, scopes[0].cleanups) + Pending(e, scopes[1..])
  }

  function HeldBy(e: Entry, frame: Frame): nat {
    if frame.Running? then Count(e, frame.rest) else 0
  }

  function HeldIn(e: Entry, stack: seq<Frame>): nat {
    if stack == [] then 0 else HeldIn(e, stack[..|stack| - 1]) + HeldBy(e, Top(stack))
  }

  function Held(e: Entry, threads: seq<seq<Frame>>): nat {
    if threads == [] then 0 else HeldIn(e, threads[0]) + Held(e, threads[1..])
  }

  /** Everything registered is waiting in a scope, in the hands of a closing thread, or has been performed. */
  ghost predicate Conserved(s: State, e: Entry) {
    s.registered[e] == Pending(e, s.scopes) + Held(e, s.threads) + Count(e, s.performed)
  }

  lemma {:induction false} PendingUpdate(e: Entry, scopes: seq<ScopeState>, i: nat, scope: ScopeState)
    requires i < |scopes|
    ensures Pending(e, scopes[i := scope]) ==
              Pending(e, scopes) - Count(e, scopes[i].cleanups) + Count(e, scope.cleanups)
  {
    if i == 0 {
      assert scopes[i := scope][1..] == scopes[1..];
    } else {
      assert scopes[i := scope][1..] == scopes[1..][i - 1 := scope];
      PendingUpdate(e, scopes[1..], i - 1, scope);
    }
  }

  lemma {:induction false} PendingAppend(e: Entry, scopes: seq<ScopeState>, scope: ScopeState)
    ensures Pending(e, scopes + [scope]) == Pending(e, scopes) + Count(e, scope.cleanups)
  {
    if scopes == [] {
      assert scopes + [scope] == [scope];
    } else {
      assert (scopes + [scope])[1..] == scopes[1..] + [scope];
      PendingAppend(e, scopes[1..], scope);
    }
  }

  lemma {:induction false} HeldUpdate(e: Entry, threads: seq<seq<Frame>>, t: nat, stack: seq<Frame>)
    requires t < |threads|
    ensures Held(e, threads[t := stack]) == Held(e, threads) - HeldIn(e, threads[t]) + HeldIn(e, stack)
  {
    if t == 0 {
      assert threads[t := stack][1..] == threads[1..];
    } else {
      assert threads[t := stack][1..] == threads[1..][t - 1 := stack];
      HeldUpdate(e, threads[1..], t - 1, stack);
    }
  }

  lemma {:induction false} HeldAppend(e: Entry, threads: seq<seq<Frame>>, stack: seq<Frame>)
    ensures Held(e, threads + [stack]) == Held(e, threads) + HeldIn(e, stack)
  {
    if threads == [] {
      assert threads + [stack] == [stack];
    } else {
      assert (threads + [stack])[1..] == threads[1..] + [stack];
      HeldAppend(e, threads[1..], stack);
    }
  }

  lemma Pushed(e: Entry, stack: seq<Frame>, frame: Frame)
    ensures HeldIn(e, stack + [frame]) == HeldIn(e, stack) + HeldBy(e, frame)
  {
    assert (stack + [frame])[..|stack|] == stack;
  }

  lemma RegisterConserves(s: State, scope: nat, r: Entry, e: Entry)
    requires Conserved(s, e) && scope < |s.scopes|
    ensures Conserved(Register(s, scope, r), e)
  {
    var before := s.scopes[scope];
    CountOne(e, before.cleanups, r);
    PendingUpdate(e, s.scopes, scope, before.(cleanups := before.cleanups + [r]));
  }

  lemma StartConserves(s: State, scope: nat, comp: nat, e: Entry)
    requires Conserved(s, e) && scope < |s.scopes|
    ensures Conserved(DoStart(s, scope, comp), e)
  {
    if !ContextDone(s, scope) && s.scopes[scope].children.Some? && comp !in s.scopes[scope].children.value {
      var child := |s.scopes|;
      var parent := s.scopes[scope].(children := Some(s.scopes[scope].children.value[comp := child]));
      var s' := s.(scopes := s.scopes[scope := parent] + [OPEN_SCOPE.(parent := scope)]);
      PendingUpdate(e, s.scopes, scope, parent);
      PendingAppend(e, s.scopes[scope := parent], OPEN_SCOPE.(parent := scope));
      RegisterConserves(s', scope, CloseChild(child), e);
    }
  }

  lemma CallConserves(s: State, scope: nat, e: Entry)
    requires Conserved(s, e)
    ensures Conserved(s.(threads := s.threads + [[Enter(scope)]]), e)
  {
    HeldAppend(e, s.threads, [Enter(scope)]);
    Pushed(e, [], Enter(scope));
    assert [] + [Enter(scope)] == [Enter(scope)];
  }

  lemma EnterConserves(s: State, t: nat, fails: bool, e: Entry)
    requires Conserved(s, e) && CanStep(s, t) && Top(s.threads[t]).Enter?
    ensures Conserved(DoStep(s, t, fails), e)
  {
    var stack := s.threads[t];
    var below, scope := stack[..|stack| - 1], Top(stack).scope;
    var taken := s.scopes[scope];
    Pushed(e, below, Running(taken.cleanups));
    HeldUpdate(e, s.threads, t, below + [Running(taken.cleanups)]);
    PendingUpdate(e, s.scopes, scope, taken.(cleanups := [], children := None, cancelled := true));
  }

  lemma RunLastHeld(e: Entry, stack: seq<Frame>)
    requires stack != [] && Top(stack).Running? && Top(stack).rest != []
    ensures var rest := Top(stack).rest;
            HeldIn(e, stack) == HeldIn(e, RunLast(stack)) + if e == rest[|rest| - 1] then 1 else 0
  {
    var below, rest := stack[..|stack| - 1], Top(stack).rest;
    var last := rest[|rest| - 1];
    assert rest[..|rest| - 1] + [last] == rest;
    CountOne(e, rest[..|rest| - 1], last);
    Pushed(e, below, Running(rest[..|rest| - 1]));
    if last.CloseChild? {
      Pushed(e, below + [Running(rest[..|rest| - 1])], Enter(last.scope));
    }
  }

  lemma RunConserves(s: State, t: nat, fails: bool, e: Entry)
    requires Conserved(s, e) && CanStep(s, t) && Top(s.threads[t]).Running?
    ensures Conserved(DoStep(s, t, fails), e)
  {
    var stack := s.threads[t];
    var rest := Top(stack).rest;
    if rest == [] {
      HeldUpdate(e, s.threads, t, stack[..|stack| - 1]);
    } else {
      RunLastHeld(e, stack);
      CountOne(e, s.performed, rest[|rest| - 1]);
      HeldUpdate(e, s.threads, t, RunLast(stack));
    }
  }

  lemma ActConserves(s: State, a: Action, e: Entry)
    requires Conserved(s, e) && CanAct(s, a)
    ensures Conserved(Act(s, a), e)
  {
    match a
    case Add(scope) => RegisterConserves(s, scope, Func(|s.homes|), e);
    case Start(scope, comp) => StartConserves(s, scope, comp, e);
    case CancelOuter =>
    case CallClose(scope) => CallConserves(s, scope, e);
    case Step(t, fails) =>
      if Top(s.threads[t]).Enter? {
        EnterConserves(s, t, fails, e);
      } else {
        RunConserves(s, t, fails, e);
      }
  }

  /** Every cleanup is registered under a number of its own, every child scope has one closing entry. */
  ghost predicate Unique(s: State, e: Entry) {
    s.registered[e] ==
      match e
      case Func(id) => if id < |s.homes| then 1 else 0
      case CloseChild(scope) => if 0 < scope < |s.scopes| then 1 else 0
  }

  lemma ActUnique(s: State, a: Action, e: Entry)
    requires Unique(s, e) && CanAct(s, a) && s.scopes != []
    ensures Unique(Act(s, a), e)
  {
  }
}
