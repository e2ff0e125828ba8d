/**
 Cleanup scopes: a scope collects cleanups and starts components, each of which gets a child scope that is closed as
 one of the parent's cleanups.
 */
module CleanupScope {
  /** Whatever has a lifecycle: the components started in a scope. */
  type Component = nat

  /** A scope as the cleanups registered in it, oldest first; a component's child scope stands where it was first
      started. */
  datatype Node = Leaf(id: nat) | Child(comp: Component, nodes: seq<Node>)

  /** What happens when scopes are closed: a component's turn begins, a cleanup runs. */
  datatype Mark = Turn(comp: Component) | Run(id: nat)

  // ----- The order of closing -----

  function CloseOrder(nodes: seq<Node>): seq<Mark>
    decreases nodes, 0
  {
    if nodes == [] then [] else CloseOrder(nodes[1..]) + CloseNode(nodes[0])
  }

  function CloseNode(node: Node): seq<Mark>
    decreases node, 1
  {
    match node
    case Leaf(id) => [Run(id)]
    case Child(comp, nodes) => [Turn(comp)] + CloseOrder(nodes)
  }

  /** The tree written out in place, in the order of registration. */
  function Flatten(nodes: seq<Node>): seq<Mark>
    decreases nodes, 0
  {
    if nodes == [] then [] else FlattenNode(nodes[0]) + Flatten(nodes[1..])
  }

  function FlattenNode(node: Node): seq<Mark>
    decreases node, 1
  {
    match node
    case Leaf(id) => [Run(id)]
    case Child(comp, nodes) => Flatten(nodes) + [Turn(comp)]
  }

  function Reverse<T>(s: seq<T>): seq<T> {
    if s == [] then [] else Reverse(s[1..]) + [s[0]]
  }

  lemma {:induction false} ReverseConcat<T>(s: seq<T>, t: seq<T>)
    ensures Reverse(s + t) == Reverse(t) + Reverse(s)
  {
    if s == [] {
      assert s + t == t;
    } else {
      assert (s + t)[1..] == s[1..] + t;
      ReverseConcat(s[1..], t);
    }
  }

  /** Closing a scope runs everything below it in exactly the reverse of the order of registration, with the
      cleanups of a component kept together wherever and whenever they were registered. */
  lemma {:induction false} CloseReversesRegistration(nodes: seq<Node>)
    ensures CloseOrder(nodes) == Reverse(Flatten(nodes))
    decreases nodes, 0
  {
    if nodes == [] {
    } else {
      CloseNodeReverses(nodes[0]);
      CloseReversesRegistration(nodes[1..]);
      ReverseConcat(FlattenNode(nodes[0]), Flatten(nodes[1..]));
    }
  }

  lemma {:induction false} CloseNodeReverses(node: Node)
    ensures CloseNode(node) == Reverse(FlattenNode(node))
    decreases node, 1
  {
    match node
    case Leaf(id) =>
      assert [Run(id)][1..] == [];
    case Child(comp, nodes) =>
      CloseReversesRegistration(nodes);
      ReverseConcat(Flatten(nodes), [Turn(comp)]);
      assert [Turn(comp)][1..] == [];
  }

  // ----- What a component does when it is started -----

  /** A component registers cleanups in its scope and starts further components in it; `interrupted` says that a
      context above has been cancelled by then. */
  datatype Act = Add(id: nat) | Start(comp: Component, interrupted: bool, body: seq<Act>)

  /** Where the child scope of `comp` stands, if it has been started; `|nodes|` otherwise. */
  function Find(nodes: seq<Node>, comp: Component): (i: nat)
    ensures i <= |nodes|
    ensures i < |nodes| ==> nodes[i].Child? && nodes[i].comp == comp
    ensures forall j :: 0 <= j < i ==> !(nodes[j].Child? && nodes[j].comp == comp)
  {
    if nodes == [] || (nodes[0].Child? && nodes[0].comp == comp) then 0 else 1 + Find(nodes[1..], comp)
  }

  function Grow(nodes: seq<Node>, acts: seq<Act>): seq<Node>
    decreases acts, 0
  {
    if acts == [] then nodes else Grow(GrowOne(nodes, acts[0]), acts[1..])
  }

  function GrowOne(nodes: seq<Node>, act: Act): seq<Node>
    decreases act, 1
  {
    match act
    case Add(id) => nodes + [Leaf(id)]
    case Start(comp, interrupted, body) =>
      if interrupted then nodes else
      var i := Find(nodes, comp);
      if i < |nodes| then nodes[i := Child(comp, Grow(nodes[i].nodes, body))]
      else nodes + [Child(comp, Grow([], body))]
  }

  /** Nothing but the child scope itself, if it was not there. */
  lemma GrowEmpty(nodes: seq<Node>, comp: Component)
    ensures var i := Find(nodes, comp);
            GrowOne(nodes, Start(comp, false, [])) == if i < |nodes| then nodes else nodes + [Child(comp, [])]
  {
    assert Grow([], []) == [];
    var i := Find(nodes, comp);
    if i < |nodes| {
      assert nodes[i := Child(comp, nodes[i].nodes)] == nodes;
    }
  }

  /** To start a component is to give it an empty child scope, if it has none, and let it work there. */
  lemma GrowVia(nodes: seq<Node>, comp: Component, body: seq<Act>)
    ensures var nodes' := GrowOne(nodes, Start(comp, false, []));
            var k := Find(nodes', comp);
            && k < |nodes'|
            && GrowOne(nodes, Start(comp, false, body)) == nodes'[k := Child(comp, Grow(nodes'[k].nodes, body))]
  {
    GrowEmpty(nodes, comp);
    var i := Find(nodes, comp);
    if i == |nodes| {
      var nodes' := nodes + [Child(comp, [])];
      assert nodes'[i] == Child(comp, []);
      assert Find(nodes', comp) == i;
    }
  }

  // ----- Nothing is lost -----

  /** How often cleanup `id` is registered by some acts, in any component that is really started. */
  function Added(acts: seq<Act>, id: nat): nat
    decreases acts, 0
  {
    if acts == [] then 0 else AddedBy(acts[0], id) + Added(acts[1..], id)
  }

  function AddedBy(act: Act, id: nat): nat
    decreases act, 1
  {
    match act
    case Add(other) => if other == id then 1 else 0
    case Start(_, interrupted, body) => if interrupted then 0 else Added(body, id)
  }

  /** How often it is run when the scope is closed. */
  function Runs(marks: seq<Mark>, id: nat): nat {
    multiset(marks)[Run(id)]
  }

  lemma RunsConcat(a: seq<Mark>, b: seq<Mark>, id: nat)
    ensures Runs(a + b, id) == Runs(a, id) + Runs(b, id)
  {
  }

  lemma {:induction false} RunsAfterChange(nodes: seq<Node>, i: nat, node: Node, id: nat)
    requires i < |nodes|
    ensures Runs(CloseOrder(nodes[i := node]), id) ==
              Runs(CloseOrder(nodes), id) - Runs(CloseNode(nodes[i]), id) + Runs(CloseNode(node), id)
  {
    RunsConcat(CloseOrder(nodes[1..]), CloseNode(nodes[0]), id);
    if i == 0 {
      assert nodes[i := node][1..] == nodes[1..];
      RunsConcat(CloseOrder(nodes[1..]), CloseNode(node), id);
    } else {
      assert nodes[i := node][1..] == nodes[1..][i - 1 := node];
      RunsAfterChange(nodes[1..], i - 1, node, id);
      RunsConcat(CloseOrder(nodes[1..][i - 1 := node]), CloseNode(nodes[0]), id);
    }
  }

  lemma {:induction false} RunsAppended(nodes: seq<Node>, node: Node, id: nat)
    ensures Runs(CloseOrder(nodes + [node]), id) == Runs(CloseOrder(nodes), id) + Runs(CloseNode(node), id)
  {
    if nodes == [] {
      assert nodes + [node] == [node] && [node][1..] == [];
      assert CloseOrder([node]) == [] + CloseNode(node) == CloseNode(node);
    } else {
      assert (nodes + [node])[1..] == nodes[1..] + [node];
      RunsAppended(nodes[1..], node, id);
      RunsConcat(CloseOrder(nodes[1..] + [node]), CloseNode(nodes[0]), id);
      RunsConcat(CloseOrder(nodes[1..]), CloseNode(nodes[0]), id);
    }
  }

  lemma RunsOfChild(comp: Component, nodes: seq<Node>, id: nat)
    ensures Runs(CloseNode(Child(comp, nodes)), id) == Runs(CloseOrder(nodes), id)
  {
    RunsConcat([Turn(comp)], CloseOrder(nodes), id);
  }

  /** Whatever is registered in a scope or below it is run when the scope is closed, as often as it was registered. */
  lemma {:induction false} RunsAreAdded(nodes: seq<Node>, acts: seq<Act>, id: nat)
    ensures Runs(CloseOrder(Grow(nodes, acts)), id) == Runs(CloseOrder(nodes), id) + Added(acts, id)
    decreases acts, 0
  {
    if acts == [] {
    } else {
      RunsAreAddedBy(nodes, acts[0], id);
      RunsAreAdded(GrowOne(nodes, acts[0]), acts[1..], id);
    }
  }

  lemma {:induction false} RunsAreAddedBy(nodes: seq<Node>, act: Act, id: nat)
    ensures Runs(CloseOrder(GrowOne(nodes, act)), id) == Runs(CloseOrder(nodes), id) + AddedBy(act, id)
    decreases act, 1
  {
    match act
    case Add(other) => RunsAppended(nodes, Leaf(other), id);
    case Start(comp, interrupted, body) =>
      if !interrupted {
        var i := Find(nodes, comp);
        if i < |nodes| {
          RunsAreAdded(nodes[i].nodes, body, id);
          RunsOfChild(comp, nodes[i].nodes, id);
          RunsOfChild(comp, Grow(nodes[i].nodes, body), id);
          RunsAfterChange(nodes, i, Child(comp, Grow(nodes[i].nodes, body)), id);
        } else {
          RunsAreAdded([], body, id);
          RunsOfChild(comp, Grow([], body), id);
          RunsAppended(nodes, Child(comp, Grow([], body)), id);
        }
      }
  }

  // ----- What was started first is closed last -----

  /** The place of a cleanup or of a component's child scope never changes. */
  predicate SamePlaces(nodes: seq<Node>, nodes': seq<Node>) {
    && |nodes| <= |nodes'|
    && forall k :: 0 <= k < |nodes| ==>
         if nodes[k].Leaf? then nodes'[k] == nodes[k] else nodes'[k].Child? && nodes'[k].comp == nodes[k].comp
  }

  lemma {:induction false} GrowKeepsPlaces(nodes: seq<Node>, acts: seq<Act>)
    ensures SamePlaces(nodes, Grow(nodes, acts))
    decreases acts
  {
    if acts == [] {
    } else {
      assert SamePlaces(nodes, GrowOne(nodes, acts[0]));
      GrowKeepsPlaces(GrowOne(nodes, acts[0]), acts[1..]);
    }
  }

  lemma SameFind(nodes: seq<Node>, nodes': seq<Node>, comp: Component)
    requires SamePlaces(nodes, nodes')
    ensures if Find(nodes, comp) < |nodes| then Find(nodes', comp) == Find(nodes, comp)
            else Find(nodes', comp) >= |nodes|
  {
    var i, j := Find(nodes, comp), Find(nodes', comp);
    if i < |nodes| {
      assert nodes'[i].Child? && nodes'[i].comp == comp;
      assert j <= i;
      assert nodes[j].Child? && nodes[j].comp == comp;
    }
  }

  /** Some marks, then those of `late`, and only later those of `early`. */
  ghost predicate Apart(marks: seq<Mark>, late: seq<Mark>, early: seq<Mark>) {
    exists x, y, z :: marks == x + late + y + early + z
  }

  lemma {:induction false} HasPart(nodes: seq<Node>, k: nat) returns (x: seq<Mark>, y: seq<Mark>)
    requires k < |nodes|
    ensures CloseOrder(nodes) == x + CloseNode(nodes[k]) + y
  {
    if k == 0 {
      x, y := CloseOrder(nodes[1..]), [];
    } else {
      x, y := HasPart(nodes[1..], k - 1);
      y := y + CloseNode(nodes[0]);
    }
  }

  lemma {:induction false} PartsApart(nodes: seq<Node>, i: nat, j: nat)
    requires i < j < |nodes|
    ensures Apart(CloseOrder(nodes), CloseNode(nodes[j]), CloseNode(nodes[i]))
  {
    if i == 0 {
      var x, y := HasPart(nodes[1..], j - 1);
      assert CloseOrder(nodes) == x + CloseNode(nodes[j]) + y + CloseNode(nodes[0]) + [];
    } else {
      PartsApart(nodes[1..], i - 1, j - 1);
      var x, y, z :| CloseOrder(nodes[1..]) == x + CloseNode(nodes[j]) + y + CloseNode(nodes[i]) + z;
      assert CloseOrder(nodes) == x + CloseNode(nodes[j]) + y + CloseNode(nodes[i]) + (z + CloseNode(nodes[0]));
    }
  }

  /** If `a` had been started and `b` had not, then whatever happens afterwards, once `b` has been started too all of
      it is closed before anything of `a`, even what `a` registered later still. */
  lemma EarlierStartedClosesLater(acts: seq<Act>, more: seq<Act>, a: Component, b: Component)
    requires var nodes := Grow([], acts); Find(nodes, a) < |nodes| && Find(nodes, b) == |nodes|
    requires var nodes := Grow(Grow([], acts), more); Find(nodes, b) < |nodes|
    ensures var nodes := Grow(Grow([], acts), more);
            && Find(nodes, a) < Find(nodes, b)
            && Apart(CloseOrder(nodes), CloseNode(nodes[Find(nodes, b)]), CloseNode(nodes[Find(nodes, a)]))
  {
    var before := Grow([], acts);
    var nodes := Grow(before, more);
    GrowKeepsPlaces(before, more);
    SameFind(before, nodes, a);
    SameFind(before, nodes, b);
    PartsApart(nodes, Find(nodes, a), Find(nodes, b));
  }

  // ----- Failures -----

  /** How a cleanup ends; an error that only says that something was closed or cancelled is not reported. */
  datatype Outcome = Fine | Broken | AlreadyClosed | Cancelled

  /** An error of a cleanup, or the errors of a child scope wrapped in one. */
  datatype Failure = OfCleanup(id: nat) | OfChild(comp: Component, below: seq<Failure>)

  /** The cleanups behind a list of errors. */
  function Causes(failures: seq<Failure>): seq<nat>
    decreases failures, 0
  {
    if failures == [] then [] else CausesOf(failures[0]) + Causes(failures[1..])
  }

  function CausesOf(failure: Failure): seq<nat>
    decreases failure, 1
  {
    match failure
    case OfCleanup(id) => [id]
    case OfChild(_, below) => Causes(below)
  }

  predicate Kept(failure: Failure, outcomes: nat -> Outcome) {
    failure.OfCleanup? ==> outcomes(failure.id) != AlreadyClosed && outcomes(failure.id) != Cancelled
  }

  function Filtered(failures: seq<Failure>, outcomes: nat -> Outcome): seq<Failure> {
    if failures == [] then [] else KeptOf(failures[0], outcomes) + Filtered(failures[1..], outcomes)
  }

  function KeptOf(failure: Failure, outcomes: nat -> Outcome): seq<Failure> {
    if Kept(failure, outcomes) then [failure] else []
  }

  lemma Assoc<T>(a: seq<T>, b: seq<T>, c: seq<T>)
    ensures a + b + c == a + (b + c)
  {
  }

  /** The cleanups that broke, in the order in which they ran. */
  function Reported(ran: seq<Mark>, outcomes: nat -> Outcome): seq<nat> {
    if ran == [] then []
    else (if ran[0].Run? && outcomes(ran[0].id) == Broken then [ran[0].id] else []) + Reported(ran[1..], outcomes)
  }

  lemma {:induction false} CausesConcat(a: seq<Failure>, b: seq<Failure>)
    ensures Causes(a + b) == Causes(a) + Causes(b)
  {
    if a == [] {
      assert a + b == b;
    } else {
      assert (a + b)[0] == a[0] && (a + b)[1..] == a[1..] + b;
      CausesConcat(a[1..], b);
      Assoc(CausesOf(a[0]), Causes(a[1..]), Causes(b));
    }
  }

  lemma {:induction false} FilteredConcat(a: seq<Failure>, b: seq<Failure>, outcomes: nat -> Outcome)
    ensures Filtered(a + b, outcomes) == Filtered(a, outcomes) + Filtered(b, outcomes)
  {
    if a == [] {
      assert a + b == b;
    } else {
      assert (a + b)[0] == a[0] && (a + b)[1..] == a[1..] + b;
      FilteredConcat(a[1..], b, outcomes);
      Assoc(KeptOf(a[0], outcomes), Filtered(a[1..], outcomes), Filtered(b, outcomes));
    }
  }

  lemma {:induction false} ReportedConcat(a: seq<Mark>, b: seq<Mark>, outcomes: nat -> Outcome)
    ensures Reported(a + b, outcomes) == Reported(a, outcomes) + Reported(b, outcomes)
  {
    if a == [] {
      assert a + b == b;
    } else {
      assert (a + b)[1..] == a[1..] + b;
      ReportedConcat(a[1..], b, outcomes);
    }
  }

  /** What is reported: exactly the cleanups that ran and broke. */
  lemma {:induction false} ReportedExactly(ran: seq<Mark>, outcomes: nat -> Outcome, id: nat)
    ensures id in Reported(ran, outcomes) <==> Run(id) in ran && outcomes(id) == Broken
  {
    if ran == [] {
    } else {
      ReportedExactly(ran[1..], outcomes, id);
      assert ran == [ran[0]] + ran[1..];
    }
  }

  lemma CausesOfOne(failure: Failure)
    ensures Causes([failure]) == CausesOf(failure)
  {
    assert [failure][1..] == [];
  }

  lemma MoreReported(ran: seq<Mark>, marks: seq<Mark>, failures: seq<Failure>, more: seq<Failure>,
                     outcomes: nat -> Outcome)
    requires Causes(Filtered(failures, outcomes)) == Reported(ran, outcomes)
    requires Causes(Filtered(more, outcomes)) == Reported(marks, outcomes)
    ensures Causes(Filtered(failures + more, outcomes)) == Reported(ran + marks, outcomes)
  {
    FilteredConcat(failures, more, outcomes);
    CausesConcat(Filtered(failures, outcomes), Filtered(more, outcomes));
    ReportedConcat(ran, marks, outcomes);
  }

  // ----- The scope object -----

  datatype Entry = Func(id: nat) | CloseChild(comp: Component, child: Scope)

  class Scope {
    var cleanups: seq<Entry>
    var children: map<Component, Scope>
    var childrenNil: bool
    var cancelled: bool
    ghost var tree: seq<Node>
    ghost var Repr: set<object>

    /** The entry and the node at the same place say the same; a child scope is valid, open and part of this one. */
    ghost predicate EntryValid(e: Entry, node: Node)
      reads this, Repr
      decreases Repr, 0
    {
      this in Repr &&
      match e
      case Func(id) => node == Leaf(id)
      case CloseChild(comp, child) =>
        && child in Repr && child.Repr <= Repr && this !in child.Repr
        && child.Valid() && !child.cancelled && node == Child(comp, child.tree)
        && comp in children && children[comp] == child
    }

    ghost predicate Valid()
      reads this, Repr
      decreases Repr, 1
    {
      && this in Repr
      && (cancelled <==> childrenNil)
      && (childrenNil ==> children == map[])
      && |tree| == |cleanups|
      && (forall i :: 0 <= i < |cleanups| ==> EntryValid(cleanups[i], tree[i]))
      && (forall comp :: comp in children ==> CloseChild(comp, children[comp]) in cleanups)
      && (forall i, j :: 0 <= i < j < |cleanups| && cleanups[i].CloseChild? && cleanups[j].CloseChild? ==>
            cleanups[i].comp != cleanups[j].comp && cleanups[i].child.Repr !! cleanups[j].child.Repr)
    }

    constructor ()
      ensures Valid() && fresh(Repr) && tree == [] && !cancelled
    {
      cleanups, children, childrenNil, cancelled := [], map[], false, false;
      tree, Repr := [], {this};
    }

    method AddCleanup(id: nat)
      requires Valid()
      modifies this
      ensures Valid() && Repr == old(Repr) && cancelled == old(cancelled)
      ensures tree == old(tree) + [Leaf(id)]
    {
      cleanups := cleanups + [Func(id)];
      tree := tree + [Leaf(id)];
    }

    /** Closes the scope, once or again; returns what ran, in order, and the failures that it reports.  Every cleanup is
        run, whatever became of those before it. */
    method Close(outcomes: nat -> Outcome) returns (ran: seq<Mark>, failures: seq<Failure>)
      requires Valid()
      modifies Repr
      ensures ran == CloseOrder(old(tree))
      ensures Causes(failures) == Reported(ran, outcomes)
      ensures forall id :: id in Causes(failures) <==> Run(id) in ran && outcomes(id) == Broken
      ensures Valid() && Repr == old(Repr) && cancelled && tree == []
      decreases Repr, 2
    {
      var taken := cleanups;
      ghost var nodes := tree;
      cancelled, childrenNil, cleanups, children := true, true, [], map[];
      tree := [];
      ran, failures := RunBackwards(taken, nodes, outcomes);
      forall id: nat
        ensures id in Causes(failures) <==> Run(id) in ran && outcomes(id) == Broken
      {
        ReportedExactly(ran, outcomes, id);
      }
    }

    /** What an entry may change when it is run. */
    static ghost function Footprint(e: Entry): set<object>
      reads if e.CloseChild? then {e.child} else {}
    {
      if e.CloseChild? then e.child.Repr else {}
    }

    /** As `EntryValid`, for an entry that has been taken out of its scope. */
    static ghost predicate Ready(e: Entry, node: Node)
      reads if e.CloseChild? then {e.child} + e.child.Repr else {}
    {
      if e.Func? then node == Leaf(e.id) else e.child.Valid() && node == Child(e.comp, e.child.tree)
    }

    /** Runs what has been taken out of the scope, last registered first. */
    method RunBackwards(taken: seq<Entry>, ghost nodes: seq<Node>, outcomes: nat -> Outcome)
      returns (ran: seq<Mark>, failures: seq<Failure>)
      requires this in Repr && |taken| == |nodes|
      requires forall j :: 0 <= j < |taken| ==> Ready(taken[j], nodes[j]) && Footprint(taken[j]) <= Repr - {this}
      requires forall j, k :: 0 <= j < k < |taken| ==> Footprint(taken[j]) !! Footprint(taken[k])
      modifies Repr - {this}
      ensures ran == CloseOrder(nodes) && Causes(failures) == Reported(ran, outcomes)
      decreases Repr, 1
    {
      ran := [];
      var collected := [];
      var i := |taken|;
      while i > 0
        invariant 0 <= i <= |taken|
        invariant forall j :: 0 <= j < i ==>
                    Ready(taken[j], nodes[j]) && Footprint(taken[j]) == old(Footprint(taken[j]))
        invariant ran == CloseOrder(nodes[i..]) && Causes(Filtered(collected, outcomes)) == Reported(ran, outcomes)
      {
        i := i - 1;
        assert nodes[i..][1..] == nodes[i + 1..];
        var marks, failure := RunEntry(taken[i], nodes[i], outcomes);
        MoreReported(ran, marks, collected, failure, outcomes);
        ran := ran + marks;
        collected := collected + failure;
      }
      failures := Filtered(collected, outcomes);
    }

    /** Runs one cleanup, or closes one child scope; its error is wrapped if there is one. */
    static method RunEntry(e: Entry, ghost node: Node, outcomes: nat -> Outcome)
      returns (marks: seq<Mark>, failure: seq<Failure>)
      requires Ready(e, node)
      modifies Footprint(e)
      ensures marks == CloseNode(node) && Causes(Filtered(failure, outcomes)) == Reported(marks, outcomes)
      ensures e.CloseChild? ==> e.child.Valid() && e.child.Repr == old(e.child.Repr)
      decreases Footprint(e), 3
    {
      failure := [];
      match e {
        case Func(id) =>
          marks := [Run(id)];
          if outcomes(id) != Fine {
            failure := [OfCleanup(id)];
          }
          CausesOfOne(OfCleanup(id));
        case CloseChild(comp, child) =>
          var below, failures := child.Close(outcomes);
          marks := [Turn(comp)] + below;
          if failures != [] {
            failure := [OfChild(comp, failures)];
          }
          assert marks[1..] == below;
          CausesOfOne(OfChild(comp, failures));
      }
    }

    /** A new child scope is entered for a component that has none. */
    method Enter(comp: Component, child: Scope)
      requires Valid() && !cancelled && comp !in children
      requires child.Valid() && !child.cancelled && child.tree == [] && child.Repr !! Repr
      modifies this
      ensures Valid() && Repr == old(Repr) + child.Repr && !cancelled
      ensures comp in children && children[comp] == child
      ensures tree == old(tree) + [Child(comp, [])]
    {
      children := children[comp := child];
      cleanups := cleanups + [CloseChild(comp, child)];
      tree := tree + [Child(comp, [])];
      Repr := Repr + child.Repr;
      forall i | 0 <= i < |cleanups|
        ensures EntryValid(cleanups[i], tree[i])
      {
        assert i < old(|cleanups|) ==> old(EntryValid(cleanups[i], tree[i]));
      }
    }

    /** A component has been started here exactly when its child scope stands in the tree. */
    lemma KnownComponent(comp: Component)
      requires Valid()
      ensures comp in children <==> Find(tree, comp) < |tree|
    {
      if comp in children {
        var j :| 0 <= j < |cleanups| && cleanups[j] == CloseChild(comp, children[comp]);
        assert EntryValid(cleanups[j], tree[j]);
      }
    }

    /** Finds or creates the child scope of a component. */
    method ChildOf(comp: Component) returns (child: Scope)
      requires Valid() && !cancelled
      modifies this
      ensures Valid() && fresh(Repr - old(Repr)) && old(Repr) <= Repr && !cancelled
      ensures comp in children && children[comp] == child
      ensures tree == GrowOne(old(tree), Start(comp, false, []))
    {
      KnownComponent(comp);
      GrowEmpty(tree, comp);
      if comp in children {
        child := children[comp];
      } else {
        child := new Scope();
        Enter(comp, child);
      }
    }

    /** A component has changed its own child scope; everything else in this scope is as it was. */
    ghost method Absorb(k: nat, comp: Component, child: Scope)
      requires this in Repr && !cancelled && !childrenNil
      requires k < |cleanups| == |tree| && cleanups[k] == CloseChild(comp, child)
      requires child.Valid() && !child.cancelled && this !in child.Repr && child in Repr
      requires comp in children && children[comp] == child
      requires forall i :: 0 <= i < |cleanups| && i != k ==> EntryValid(cleanups[i], tree[i])
      requires forall i :: 0 <= i < |cleanups| && i != k && cleanups[i].CloseChild? ==>
                 cleanups[i].child.Repr !! child.Repr
      requires forall c :: c in children ==> CloseChild(c, children[c]) in cleanups
      requires forall i, j :: 0 <= i < j < |cleanups| && cleanups[i].CloseChild? && cleanups[j].CloseChild? ==>
                 && cleanups[i].comp != cleanups[j].comp
                 && (i != k && j != k ==> cleanups[i].child.Repr !! cleanups[j].child.Repr)
      modifies this`tree, this`Repr
      ensures Valid() && Repr == old(Repr) + child.Repr
      ensures tree == old(tree)[k := Child(comp, child.tree)]
    {
      tree := tree[k := Child(comp, child.tree)];
      Repr := Repr + child.Repr;
    }

    /** The component at `k` works in its own child scope. */
    method RunChild(ghost k: nat, comp: Component, child: Scope, body: seq<Act>)
      requires Valid() && !cancelled && k < |cleanups| && cleanups[k] == CloseChild(comp, child) && tree[k].Child?
      modifies Repr
      ensures Valid() && fresh(Repr - old(Repr)) && !cancelled
      ensures tree == old(tree)[k := Child(comp, Grow(old(tree)[k].nodes, body))]
      decreases body, 1
    {
      assert EntryValid(cleanups[k], tree[k]);
      child.Perform(body);
      forall i | 0 <= i < |cleanups| && i != k
        ensures EntryValid(cleanups[i], tree[i])
        ensures cleanups[i].CloseChild? ==>
                  cleanups[i].child.Repr !! child.Repr && cleanups[i].child.Repr == old(cleanups[i].child.Repr)
      {
        assert old(EntryValid(cleanups[i], tree[i]));
        if cleanups[i].CloseChild? {
          var other := cleanups[i].child;
          assert old(other.Valid());
          assert old(other in other.Repr && other.Repr !! child.Repr);
          assert other.Valid();
        }
      }
      Absorb(k, comp, child);
    }

    /** Starts a component in this scope: it gets its child scope, unless a context has been cancelled. */
    method StartComponent(comp: Component, interrupted: bool, body: seq<Act>) returns (invoked: bool)
      requires Valid()
      modifies Repr
      ensures Valid() && fresh(Repr - old(Repr)) && cancelled == old(cancelled)
      ensures invoked <==> !(old(cancelled) || interrupted)
      ensures tree == if invoked then GrowOne(old(tree), Start(comp, false, body)) else old(tree)
      decreases body, 2
    {
      if cancelled || interrupted {
        return false;
      }
      var child := ChildOf(comp);
      GrowVia(old(tree), comp, body);
      assert CloseChild(comp, child) in cleanups;
      ghost var k := Find(tree, comp);
      assert EntryValid(cleanups[k], tree[k]);
      RunChild(k, comp, child, body);
      invoked := true;
    }

    method Perform(acts: seq<Act>)
      requires Valid() && !cancelled
      modifies Repr
      ensures Valid() && fresh(Repr - old(Repr)) && !cancelled
      ensures tree == Grow(old(tree), acts)
      decreases acts, 0
    {
      if acts != [] {
        match acts[0] {
          case Add(id) => AddCleanup(id);
          case Start(comp, interrupted, body) => var _ := StartComponent(comp, interrupted, body);
        }
        Perform(acts[1..]);
      }
    }
  }
}
