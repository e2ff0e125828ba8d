/** Also when many threads close scopes at once, the cleanups of a scope run in reverse order of registration. */
module ScopeOrder {
  import opened ScopeConcurrency
  import opened ScopeTheorems

  /** `e` comes before `f` in a list of cleanups. */
  ghost predicate Ahead(entries: seq<Entry>, e: Entry, f: Entry) {
    exists p, q :: 0 <= p < q < |entries| && entries[p] == e && entries[q] == f
  }

  ghost predicate AheadIn(frame: Frame, e: Entry, f: Entry) {
    frame.Running? && Ahead(frame.rest, e, f)
  }

  ghost predicate WaitsInScope(s: State, e: Entry, f: Entry) {
    exists i :: 0 <= i < |s.scopes| && Ahead(s.scopes[i].cleanups, e, f)
  }

  ghost predicate WaitsInThread(s: State, e: Entry, f: Entry) {
    exists t, k :: 0 <= t < |s.threads| && 0 <= k < |s.threads[t]| && AheadIn(s.threads[t][k], e, f)
  }

  /** `f` has been performed at a moment when `e` had not been. */
  ghost predicate PerformedFirst(performed: seq<Entry>, e: Entry, f: Entry) {
    exists a :: 0 <= a < |performed| && performed[a] == f && e !in performed[..a]
  }

  /** Both wait in the same place, or `f` has been performed first. */
  ghost predicate Ordered(s: State, e: Entry, f: Entry) {
    WaitsInScope(s, e, f) || WaitsInThread(s, e, f) || PerformedFirst(s.performed, e, f)
  }

  lemma AheadMore(entries: seq<Entry>, e: Entry, f: Entry, more: seq<Entry>)
    requires Ahead(entries, e, f)
    ensures Ahead(entries + more, e, f)
  {
    var p, q :| 0 <= p < q < |entries| && entries[p] == e && entries[q] == f;
    assert (entries + more)[p] == e && (entries + more)[q] == f;
  }

  lemma PerformedMore(performed: seq<Entry>, e: Entry, f: Entry, more: seq<Entry>)
    requires PerformedFirst(performed, e, f)
    ensures PerformedFirst(performed + more, e, f)
  {
    var a :| 0 <= a < |performed| && performed[a] == f && e !in performed[..a];
    assert (performed + more)[a] == f && (performed + more)[..a] == performed[..a];
  }

  /** Registering, starting and closing never reorder what waits in a scope. */
  lemma ScopeKeepsOrder(s: State, a: Action, i: nat, e: Entry, f: Entry)
    requires CanAct(s, a) && i < |s.scopes| && Ahead(s.scopes[i].cleanups, e, f)
    ensures WaitsInScope(Act(s, a), e, f) || WaitsInThread(Act(s, a), e, f)
  {
    var s' := Act(s, a);
    if a.Step? && Top(s.threads[a.t]) == Enter(i) {
      var k := |s.threads[a.t]| - 1;
      assert AheadIn(s'.threads[a.t][k], e, f);
    } else {
      assert i < |s'.scopes| && s.scopes[i].cleanups <= s'.scopes[i].cleanups;
      var more := s'.scopes[i].cleanups[|s.scopes[i].cleanups|..];
      assert s'.scopes[i].cleanups == s.scopes[i].cleanups + more;
      AheadMore(s.scopes[i].cleanups, e, f, more);
    }
  }

  /** A thread performs the last of what it holds. */
  lemma LastFirst(rest: seq<Entry>, e: Entry, f: Entry)
    requires Ahead(rest, e, f)
    ensures rest != [] && e in rest && (Ahead(rest[..|rest| - 1], e, f) || rest[|rest| - 1] == f)
  {
    var p, q :| 0 <= p < q < |rest| && rest[p] == e && rest[q] == f;
    if q < |rest| - 1 {
      assert rest[..|rest| - 1][p] == e && rest[..|rest| - 1][q] == f;
    }
  }

  lemma {:induction false} HeldByFrame(e: Entry, stack: seq<Frame>, k: nat)
    requires k < |stack|
    ensures HeldIn(e, stack) >= HeldBy(e, stack[k])
  {
    if k == |stack| - 1 {
    } else {
      HeldByFrame(e, stack[..|stack| - 1], k);
    }
  }

  /** What a thread holds has not been performed. */
  lemma HeldIsNotPerformed(s: State, t: nat, k: nat, e: Entry)
    requires Inv(s) && t < |s.threads| && k < |s.threads[t]| && s.threads[t][k].Running? && e in s.threads[t][k].rest
    ensures e !in s.performed
  {
    HeldByFrame(e, s.threads[t], k);
    HeldAtLeast(e, s.threads, t);
    assert Conserved(s, e) && Unique(s, e);
    assert Count(e, s.threads[t][k].rest) > 0;
    assert Count(e, s.performed) == 0;
  }

  lemma PendingIsNotPerformed(s: State, i: nat, e: Entry)
    requires Inv(s) && i < |s.scopes| && e in s.scopes[i].cleanups
    ensures e !in s.performed
  {
    PendingAtLeast(e, s.scopes, i);
    assert Conserved(s, e) && Unique(s, e);
    assert Count(e, s.scopes[i].cleanups) > 0;
    assert Count(e, s.performed) == 0;
  }

  lemma StepKeepsOrder(s: State, t: nat, fails: bool, k: nat, e: Entry, f: Entry)
    requires Inv(s) && CanStep(s, t) && k < |s.threads[t]| && AheadIn(s.threads[t][k], e, f)
    ensures Ordered(DoStep(s, t, fails), e, f)
  {
    var s', stack := DoStep(s, t, fails), s.threads[t];
    if k < |stack| - 1 {
      assert s'.threads[t][k] == stack[k];
    } else {
      var rest := stack[k].rest;
      LastFirst(rest, e, f);
      HeldIsNotPerformed(s, t, k, e);
      if rest[|rest| - 1] == f {
        assert s'.performed[|s.performed|] == f && s'.performed[..|s.performed|] == s.performed;
      } else {
        assert s'.threads[t][k] == Running(rest[..|rest| - 1]);
      }
    }
  }

  lemma ThreadKeepsOrder(s: State, a: Action, t: nat, k: nat, e: Entry, f: Entry)
    requires Inv(s) && CanAct(s, a) && t < |s.threads| && k < |s.threads[t]| && AheadIn(s.threads[t][k], e, f)
    ensures Ordered(Act(s, a), e, f)
  {
    if a.Step? && a.t == t {
      StepKeepsOrder(s, t, a.fails, k, e, f);
    } else {
      assert Act(s, a).threads[t] == s.threads[t];
    }
  }

  lemma ActKeepsOrder(s: State, a: Action, e: Entry, f: Entry)
    requires Inv(s) && CanAct(s, a) && Ordered(s, e, f)
    ensures Ordered(Act(s, a), e, f)
  {
    if i :| 0 <= i < |s.scopes| && Ahead(s.scopes[i].cleanups, e, f) {
      ScopeKeepsOrder(s, a, i, e, f);
    } else if t, k :| 0 <= t < |s.threads| && 0 <= k < |s.threads[t]| && AheadIn(s.threads[t][k], e, f) {
      ThreadKeepsOrder(s, a, t, k, e, f);
    } else {
      var performed := Act(s, a).performed;
      assert s.performed <= performed;
      assert performed == s.performed + performed[|s.performed|..];
      PerformedMore(s.performed, e, f, performed[|s.performed|..]);
    }
  }

  lemma {:induction false} RunKeepsOrder(s: State, run: seq<Action>, e: Entry, f: Entry)
    requires Inv(s) && Possible(s, run) && Ordered(s, e, f)
    ensures Inv(After(s, run)) && Ordered(After(s, run), e, f)
    decreases |run|
  {
    if run == [] {
    } else {
      ActKeepsInv(s, run[0]);
      ActKeepsOrder(s, run[0], e, f);
      RunKeepsOrder(Act(s, run[0]), run[1..], e, f);
    }
  }

  /** What has been performed waits nowhere. */
  lemma NotWaiting(s: State, e: Entry, f: Entry)
    requires Inv(s) && e in s.performed
    ensures !WaitsInScope(s, e, f) && !WaitsInThread(s, e, f)
  {
    if i :| 0 <= i < |s.scopes| && Ahead(s.scopes[i].cleanups, e, f) {
      LastFirst(s.scopes[i].cleanups, e, f);
      PendingIsNotPerformed(s, i, e);
    }
    if t, k :| 0 <= t < |s.threads| && 0 <= k < |s.threads[t]| && AheadIn(s.threads[t][k], e, f) {
      LastFirst(s.threads[t][k].rest, e, f);
      HeldIsNotPerformed(s, t, k, e);
    }
  }

  /** No entry is registered twice. */
  lemma AheadOfAnother(s: State, i: nat, e: Entry, f: Entry)
    requires Inv(s) && i < |s.scopes| && Ahead(s.scopes[i].cleanups, e, f)
    ensures e != f
  {
    var entries := s.scopes[i].cleanups;
    var p, q :| 0 <= p < q < |entries| && entries[p] == e && entries[q] == f;
    assert entries == entries[..q] + entries[q..];
    assert entries[..q][p] == e && entries[q..][0] == f;
    assert Count(e, entries) == Count(e, entries[..q]) + Count(e, entries[q..]);
    PendingAtLeast(e, s.scopes, i);
    assert Conserved(s, e) && Unique(s, e);
  }

  /** If `f` was registered in a scope after `e`, then whatever threads add, start and close from there on, once `e`
      has been performed `f` has been performed before it. */
  lemma ReverseUnderConcurrency(s: State, run: seq<Action>, i: nat, e: Entry, f: Entry)
    requires Reachable(s) && Possible(s, run) && i < |s.scopes| && Ahead(s.scopes[i].cleanups, e, f)
    ensures var done := After(s, run).performed;
            e in done ==> exists a, b :: 0 <= a < b < |done| && done[a] == f && done[b] == e
  {
    ReachableInv(s);
    AheadOfAnother(s, i, e, f);
    RunKeepsOrder(s, run, e, f);
    var s' := After(s, run);
    if e in s'.performed {
      NotWaiting(s', e, f);
      var a :| 0 <= a < |s'.performed| && s'.performed[a] == f && e !in s'.performed[..a];
      var b :| 0 <= b < |s'.performed| && s'.performed[b] == e;
      assert a <= b;
    }
  }
}
