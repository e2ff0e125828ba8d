/** Which node carries the traffic of a tag: the walk through outbound groups and their current selections. */
module GroupWalk {
  import opened Prelude

  /** An outbound is a node of some protocol, or a group with a pick for each network. */
  datatype Outbound = Node(kind: string) | Group(tcp: Option<string>, udp: Option<string>)

  /** What a look-up sees at one moment; a manager that does not exist has nothing. Endpoints map to their types. */
  datatype World = World(outbounds: map<string, Outbound>, endpoints: map<string, string>)

  datatype Resolved = Found(tag: string, kind: string) | NotFound

  /** The tag a group points at: the TCP pick, else the UDP one, else empty. */
  function GroupNow(group: Outbound): (tag: string)
    requires group.Group?
    ensures Some(tag) == group.tcp ||
            (group.tcp.None? && (Some(tag) == group.udp || (group.udp.None? && tag == "")))
  {
    if group.tcp.Some? then group.tcp.value else if group.udp.Some? then group.udp.value else ""
  }

  /** A tag is a leaf with a type, a group or unknown; outbounds come before endpoints. */
  predicate IsGroup(w: World, tag: string) {
    tag in w.outbounds && w.outbounds[tag].Group?
  }

  function LeafKind(w: World, tag: string): Option<string> {
    if tag in w.outbounds then (if w.outbounds[tag].Node? then Some(w.outbounds[tag].kind) else None)
    else if tag in w.endpoints then Some(w.endpoints[tag])
    else None
  }

  predicate Unknown(w: World, tag: string) {
    tag !in w.outbounds && tag !in w.endpoints
  }

  // ----- Following selections -----

  /** The tag after `n` selections, the one numbered `i` read from `ws(i)`; none if an earlier tag was not a group. */
  function At(ws: nat -> World, start: string, n: nat): Option<string> {
    if n == 0 then Some(start)
    else
      match At(ws, start, n - 1)
      case Some(tag) => if IsGroup(ws(n - 1), tag) then Some(GroupNow(ws(n - 1).outbounds[tag])) else None
      case None => None
  }

  /** No tag comes twice within the first `n` selections. */
  ghost predicate Fresh(ws: nat -> World, start: string, n: nat) {
    forall i, j :: 0 <= i < j <= n ==> At(ws, start, i) != At(ws, start, j)
  }

  /** The walk ends after `n` selections, at a tag that it has not seen and that is not a group. */
  ghost predicate Arrives(ws: nat -> World, start: string, n: nat) {
    Fresh(ws, start, n) && At(ws, start, n).Some? && !IsGroup(ws(n), At(ws, start, n).value)
  }

  /** The walk comes back to a tag with selection `n`, and not before. */
  ghost predicate Circles(ws: nat -> World, start: string, n: nat) {
    && n > 0 && Fresh(ws, start, n - 1) && At(ws, start, n).Some?
    && exists i :: 0 <= i < n && At(ws, start, i) == At(ws, start, n)
  }

  /** What the walk returns, and the number of tags it has looked up. */
  ghost predicate Outcome(ws: nat -> World, start: string, r: Resolved, rounds: nat) {
    match r
    case Found(tag, kind) =>
      && rounds > 0 && Arrives(ws, start, rounds - 1)
      && At(ws, start, rounds - 1) == Some(tag) && LeafKind(ws(rounds - 1), tag) == Some(kind)
    case NotFound =>
      || Circles(ws, start, rounds)
      || (rounds > 0 && Arrives(ws, start, rounds - 1) && Unknown(ws(rounds - 1), At(ws, start, rounds - 1).value))
  }

  /** Only so many tags are known as outbounds, whatever the groups select. */
  ghost predicate Within(ws: nat -> World, known: set<string>) {
    forall i: nat :: ws(i).outbounds.Keys <= known
  }

  /** The tags so far, all different. */
  ghost predicate Trail(ws: nat -> World, start: string, trail: seq<string>) {
    && (forall i {:trigger trail[i]} :: 0 <= i < |trail| ==> At(ws, start, i) == Some(trail[i]))
    && forall i, j :: 0 <= i < j < |trail| ==> trail[i] != trail[j]
  }

  lemma TrailIsFresh(ws: nat -> World, start: string, trail: seq<string>)
    requires Trail(ws, start, trail) && trail != []
    ensures Fresh(ws, start, |trail| - 1)
  {
    forall i, j | 0 <= i < j < |trail|
      ensures At(ws, start, i) != At(ws, start, j)
    {
      assert trail[i] != trail[j];
    }
  }

  lemma TrailMore(ws: nat -> World, start: string, trail: seq<string>, tag: string)
    requires Trail(ws, start, trail) && At(ws, start, |trail|) == Some(tag) && tag !in trail
    ensures Trail(ws, start, trail + [tag])
  {
  }

  /** A group, and the tag it points at. */
  predicate Follows(w: World, tag: string, next: string) {
    && tag in w.outbounds && w.outbounds[tag].Group?
    && var (tcp, udp) := (w.outbounds[tag].tcp, w.outbounds[tag].udp);
    if tcp.Some? then next == tcp.value else if udp.Some? then next == udp.value else next == ""
  }

  /** A look-up of the last tag of a trail decides the walk unless it is a group. */
  function LookedUp(w: World, tag: string): Resolved
    requires !IsGroup(w, tag)
  {
    if LeafKind(w, tag).Some? then Found(tag, LeafKind(w, tag).value) else NotFound
  }

  lemma TrailEnds(ws: nat -> World, start: string, trail: seq<string>)
    requires Trail(ws, start, trail) && trail != [] && !IsGroup(ws(|trail| - 1), trail[|trail| - 1])
    ensures Outcome(ws, start, LookedUp(ws(|trail| - 1), trail[|trail| - 1]), |trail|)
  {
    TrailIsFresh(ws, start, trail);
  }

  lemma TrailCircles(ws: nat -> World, start: string, trail: seq<string>, tag: string)
    requires Trail(ws, start, trail) && At(ws, start, |trail|) == Some(tag) && tag in trail
    ensures Outcome(ws, start, NotFound, |trail|)
  {
    TrailIsFresh(ws, start, trail);
    var i :| 0 <= i < |trail| && trail[i] == tag;
    assert At(ws, start, i) == At(ws, start, |trail|);
  }

  /** The walk ends within one round more than there are outbounds, even if groups change their selection meanwhile.
      What it finds is an outbound with its own type, or else an endpoint with its type. */
  method ResolveNode(ws: nat -> World, start: string, ghost known: set<string>) returns (r: Resolved, rounds: nat)
    requires Within(ws, known)
    ensures Outcome(ws, start, r, rounds)
    ensures 0 < rounds <= |known| + 1
    ensures r.Found? ==>
              var w := ws(rounds - 1);
              if r.tag in w.outbounds then w.outbounds[r.tag] == Node(r.kind)
              else r.tag in w.endpoints && w.endpoints[r.tag] == r.kind
  {
    var tag, seen := start, {};
    ghost var trail := [];
    rounds := 0;
    while tag !in seen
      invariant At(ws, start, rounds) == Some(tag)
      invariant Trail(ws, start, trail) && |trail| == rounds
      invariant forall t :: t in seen <==> t in trail
      invariant seen <= known && |seen| == rounds <= |known|
      decreases |known| - |seen|
    {
      TrailMore(ws, start, trail, tag);
      var w := ws(rounds);
      rounds := rounds + 1;
      seen, trail := seen + {tag}, trail + [tag];
      if !IsGroup(w, tag) {
        TrailEnds(ws, start, trail);
      }
      if tag !in w.outbounds {
        if tag in w.endpoints {
          return Found(tag, w.endpoints[tag]), rounds;
        }
        return NotFound, rounds;
      }
      if w.outbounds[tag].Node? {
        return Found(tag, w.outbounds[tag].kind), rounds;
      }
      Fits(seen, known);
      tag := GroupNow(w.outbounds[tag]);
    }
    TrailCircles(ws, start, trail, tag);
    r := NotFound;
  }

  lemma Fits(s: set<string>, known: set<string>)
    requires s <= known
    ensures |s| <= |known|
  {
    assert |known| == |s| + |known - s| by {
      assert known == s + (known - s);
    }
  }

  // ----- The outcome is determined -----

  /** A walk that has got somewhere has passed only groups. */
  lemma {:induction false} PassedGroups(ws: nat -> World, start: string, i: nat, n: nat)
    requires i < n && At(ws, start, n).Some?
    ensures At(ws, start, i).Some? && IsGroup(ws(i), At(ws, start, i).value)
    decreases n
  {
    if i == n - 1 {
    } else {
      PassedGroups(ws, start, i, n - 1);
    }
  }

  lemma StepFollows(ws: nat -> World, start: string, i: nat)
    requires At(ws, start, i + 1).Some?
    ensures At(ws, start, i).Some? && Follows(ws(i), At(ws, start, i).value, At(ws, start, i + 1).value)
  {
  }

  lemma {:induction false} SomeBefore(ws: nat -> World, start: string, i: nat, n: nat)
    requires i <= n && At(ws, start, n).Some?
    ensures At(ws, start, i).Some?
    decreases n
  {
    if i == n {
    } else {
      SomeBefore(ws, start, i, n - 1);
    }
  }

  /** The tags a walk has looked up: they start with the given one, every tag but the last was a group pointing at the
      next one, and none comes twice.  A node found is the last one.  If nothing is found, the last one is not known, or
      it is a group that points back. */
  lemma WalkedTrail(ws: nat -> World, start: string, r: Resolved, rounds: nat) returns (trail: seq<string>)
    requires Outcome(ws, start, r, rounds)
    ensures |trail| == rounds > 0 && trail[0] == start && forall i, j :: 0 <= i < j < rounds ==> trail[i] != trail[j]
    ensures forall i :: 0 <= i < rounds - 1 ==> Follows(ws(i), trail[i], trail[i + 1])
    ensures var w, last := ws(rounds - 1), trail[rounds - 1];
            match r
            case Found(tag, kind) =>
              tag == last && if tag in w.outbounds then w.outbounds[tag] == Node(kind)
                             else tag in w.endpoints && w.endpoints[tag] == kind
            case NotFound =>
              || (last !in w.outbounds && last !in w.endpoints)
              || exists back :: 0 <= back < rounds && Follows(w, last, trail[back])
  {
    SomeBefore(ws, start, rounds - 1, if Circles(ws, start, rounds) then rounds else rounds - 1);
    forall i | 0 <= i < rounds
      ensures At(ws, start, i).Some?
    {
      SomeBefore(ws, start, i, rounds - 1);
    }
    trail := seq(rounds, i requires 0 <= i < rounds => At(ws, start, i).value);
    TrailFollows(ws, start, trail);
    assert Fresh(ws, start, rounds - 1);
    forall i, j | 0 <= i < j < rounds
      ensures trail[i] != trail[j]
    {
      assert At(ws, start, i) != At(ws, start, j);
    }
    if Circles(ws, start, rounds) {
      StepFollows(ws, start, rounds - 1);
      var back :| 0 <= back < rounds && At(ws, start, back) == At(ws, start, rounds);
      assert Follows(ws(rounds - 1), trail[rounds - 1], trail[back]);
    }
  }

  lemma TrailFollows(ws: nat -> World, start: string, trail: seq<string>)
    requires forall i :: 0 <= i < |trail| ==> At(ws, start, i) == Some(trail[i])
    ensures forall i :: 0 <= i < |trail| - 1 ==> Follows(ws(i), trail[i], trail[i + 1])
  {
    forall i | 0 <= i < |trail| - 1
      ensures Follows(ws(i), trail[i], trail[i + 1])
    {
      StepFollows(ws, start, i);
    }
  }

  /** The walk ends in one way only, so each clause of the outcome holds exactly when its result is returned. */
  lemma OneOutcome(ws: nat -> World, start: string, r: Resolved, n: nat, q: Resolved, m: nat)
    requires Outcome(ws, start, r, n) && Outcome(ws, start, q, m) && n <= m
    ensures r == q && n == m
  {
    if Arrives(ws, start, n - 1) && n < m {
      PassedGroups(ws, start, n - 1, if Circles(ws, start, m) then m else m - 1);
    }
  }

  // ----- A fixed selection -----

  function Fixed(w: World): nat -> World {
    (i: nat) => w
  }

  /** The same tag again leads to the same tags again. */
  lemma {:induction false} Repeats(w: World, start: string, i: nat, j: nat, d: nat)
    requires At(Fixed(w), start, i) == At(Fixed(w), start, j)
    ensures At(Fixed(w), start, i + d) == At(Fixed(w), start, j + d)
    decreases d
  {
    if d == 0 {
    } else {
      Repeats(w, start, i, j, d - 1);
    }
  }

  /** A walk that comes back to a tag goes round for ever. */
  lemma {:induction false} Endless(w: World, start: string, i: nat, j: nat, n: nat)
    requires i < j && At(Fixed(w), start, i) == At(Fixed(w), start, j) && At(Fixed(w), start, j).Some?
    ensures At(Fixed(w), start, n).Some? && IsGroup(w, At(Fixed(w), start, n).value)
    decreases n
  {
    if n < j {
      PassedGroups(Fixed(w), start, n, j);
    } else {
      Repeats(w, start, i, j, n - j);
      Endless(w, start, i, j, n - (j - i));
    }
  }

  ghost predicate ReachesLeaf(w: World, start: string, n: nat) {
    At(Fixed(w), start, n).Some? && LeafKind(w, At(Fixed(w), start, n).value).Some?
  }

  ghost predicate ReachesUnknown(w: World, start: string, n: nat) {
    At(Fixed(w), start, n).Some? && Unknown(w, At(Fixed(w), start, n).value)
  }

  ghost predicate ComesBack(w: World, start: string, i: nat, j: nat) {
    i < j && At(Fixed(w), start, i).Some? && At(Fixed(w), start, i) == At(Fixed(w), start, j)
  }

  /** Something that is not a group is reached without coming to a tag twice. */
  lemma ReachedIsFresh(w: World, start: string, n: nat)
    requires ReachesLeaf(w, start, n) || ReachesUnknown(w, start, n)
    ensures Arrives(Fixed(w), start, n)
  {
    forall i, j | 0 <= i < j <= n
      ensures At(Fixed(w), start, i) != At(Fixed(w), start, j)
    {
      if At(Fixed(w), start, i) == At(Fixed(w), start, j) {
        if j < n {
          PassedGroups(Fixed(w), start, j, n);
        }
        Endless(w, start, i, j, n);
      }
    }
  }

  /** On a fixed selection the walk finds a node exactly if following selections reaches one, and nothing exactly if
      that reaches an unknown tag or goes round. */
  lemma FixedSelection(w: World, start: string, r: Resolved, rounds: nat)
    requires Outcome(Fixed(w), start, r, rounds)
    ensures r.Found? <==> exists n :: ReachesLeaf(w, start, n)
    ensures r == NotFound <==> (exists n :: ReachesUnknown(w, start, n)) || (exists i, j :: ComesBack(w, start, i, j))
    ensures forall n :: ReachesLeaf(w, start, n) ==>
              r.Found? && Some(r.tag) == At(Fixed(w), start, n) && Some(r.kind) == LeafKind(w, r.tag)
  {
    var ws := Fixed(w);
    forall n: nat | ReachesLeaf(w, start, n)
      ensures r.Found? && Some(r.tag) == At(ws, start, n) && Some(r.kind) == LeafKind(w, r.tag)
    {
      var tag := At(ws, start, n).value;
      ReachedIsFresh(w, start, n);
      Same(ws, start, r, rounds, Found(tag, LeafKind(w, tag).value), n + 1);
    }
    forall n: nat | ReachesUnknown(w, start, n)
      ensures r == NotFound
    {
      ReachedIsFresh(w, start, n);
      Same(ws, start, r, rounds, NotFound, n + 1);
    }
    forall i: nat, j: nat | ComesBack(w, start, i, j)
      ensures r == NotFound
    {
      if r.Found? {
        Endless(w, start, i, j, rounds - 1);
      }
    }
    if r.Found? {
      assert ReachesLeaf(w, start, rounds - 1);
    } else if Circles(ws, start, rounds) {
      var i :| 0 <= i < rounds && At(ws, start, i) == At(ws, start, rounds);
      assert ComesBack(w, start, i, rounds);
    } else {
      assert ReachesUnknown(w, start, rounds - 1);
    }
  }

  lemma Same(ws: nat -> World, start: string, r: Resolved, n: nat, q: Resolved, m: nat)
    requires Outcome(ws, start, r, n) && Outcome(ws, start, q, m)
    ensures r == q
  {
    if n <= m {
      OneOutcome(ws, start, r, n, q, m);
    } else {
      OneOutcome(ws, start, q, m, r, n);
    }
  }
}
