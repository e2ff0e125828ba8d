/** The ring that keeps the last log lines. */
module LogRing {

  /** The last `n` elements, or all if there are fewer; none if `n` is not positive. */
  function Last<T>(s: seq<T>, n: int): seq<T> {
    if n <= 0 then [] else if |s| <= n then s else s[|s| - n..]
  }

  /** Dropping old lines early or late makes no difference. */
  lemma LastAgain<T>(s: seq<T>, more: seq<T>, n: int)
    ensures Last(Last(s, n) + more, n) == Last(s + more, n)
  {
  }

  /** The slice of entries and the position of the oldest one. */
  datatype Lines<T> = Lines(entries: seq<T>, start: nat)

  /** The ring never outgrows its bound, and the oldest entry is not the first only when it is full. */
  predicate Shaped<T>(l: Lines<T>, maxLines: int) {
    && |l.entries| <= (if maxLines <= 0 then 0 else maxLines)
    && (l.start != 0 ==> l.start < |l.entries| == maxLines)
  }

  function Pushed<T>(l: Lines<T>, maxLines: int, entry: T): Lines<T>
    requires Shaped(l, maxLines)
  {
    if maxLines <= 0 then l
    else if |l.entries| < maxLines then l.(entries := l.entries + [entry])
    else Lines(l.entries[l.start := entry], if l.start + 1 == |l.entries| then 0 else l.start + 1)
  }

  function Listed<T>(l: Lines<T>): seq<T>
    requires l.start <= |l.entries|
  {
    l.entries[l.start..] + l.entries[..l.start]
  }

  /** One push drops the oldest entry of a full ring and adds the new one at the end. */
  lemma PushedAtTheEnd<T>(l: Lines<T>, maxLines: int, entry: T)
    requires Shaped(l, maxLines)
    ensures Shaped(Pushed(l, maxLines, entry), maxLines)
    ensures Listed(Pushed(l, maxLines, entry)) == Last(Listed(l) + [entry], maxLines)
  {
    if |l.entries| == maxLines > 0 {
      var next := Pushed(l, maxLines, entry);
      assert Last(Listed(l) + [entry], maxLines) == l.entries[l.start + 1..] + l.entries[..l.start] + [entry];
      assert next.entries[l.start + 1..] == l.entries[l.start + 1..];
      assert next.entries[..l.start + 1] == l.entries[..l.start] + [entry];
    }
  }

  // ----- Any sequence of operations -----

  datatype Op<T> = Push(entry: T) | Reset

  /** The ring after some operations on an empty one. */
  function Run<T>(ops: seq<Op<T>>, maxLines: int): (l: Lines<T>)
    ensures Shaped(l, maxLines)
  {
    if ops == [] then Lines([], 0)
    else
      var before := Run(ops[..|ops| - 1], maxLines);
      match ops[|ops| - 1]
      case Push(entry) => PushedAtTheEnd(before, maxLines, entry); Pushed(before, maxLines, entry)
      case Reset => Lines([], 0)
  }

  /** The entries pushed since the last reset, without a bound. */
  function SinceReset<T>(ops: seq<Op<T>>): seq<T> {
    if ops == [] then []
    else
      match ops[|ops| - 1]
      case Push(entry) => SinceReset(ops[..|ops| - 1]) + [entry]
      case Reset => []
  }

  /** The ring refines a plain sequence: it lists the last entries pushed since the last reset, oldest first. */
  lemma {:induction false} RingKeepsTheLast<T>(ops: seq<Op<T>>, maxLines: int)
    ensures Listed(Run(ops, maxLines)) == Last(SinceReset(ops), maxLines)
  {
    if ops == [] || ops[|ops| - 1].Reset? {
    } else {
      var before, entry := ops[..|ops| - 1], ops[|ops| - 1].entry;
      RingKeepsTheLast(before, maxLines);
      PushedAtTheEnd(Run(before, maxLines), maxLines, entry);
      LastAgain(SinceReset(before), [entry], maxLines);
    }
  }

  // ----- The object -----

  /** The object; `done` are the operations performed on it. */
  class Ring<T> {
    const maxLines: int
    var entries: seq<T>
    var start: nat
    ghost var done: seq<Op<T>>

    ghost predicate Valid()
      reads this
    {
      Lines(entries, start) == Run(done, maxLines)
    }

    constructor (maxLines: int)
      ensures Valid() && done == [] && this.maxLines == maxLines
    {
      this.maxLines := maxLines;
      entries, start, done := [], 0, [];
    }

    method PushEntry(entry: T)
      requires Valid()
      modifies this
      ensures Valid() && done == old(done) + [Push(entry)]
    {
      done := done + [Push(entry)];
      if maxLines <= 0 {
        return;
      }
      if |entries| < maxLines {
        entries := entries + [entry];
        return;
      }
      entries := entries[start := entry];
      start := start + 1;
      if start == |entries| {
        start := 0;
      }
    }

    /** The last lines pushed since the last reset, oldest first. */
    method Array() returns (result: seq<T>)
      requires Valid()
      ensures result == Last(SinceReset(done), maxLines)
    {
      result := [];
      result := result + entries[start..];
      result := result + entries[..start];
      RingKeepsTheLast(done, maxLines);
    }

    method ResetAll()
      requires Valid()
      modifies this
      ensures Valid() && done == old(done) + [Reset]
    {
      done := done + [Reset];
      entries := [];
      start := 0;
    }
  }
}
