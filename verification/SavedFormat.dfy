/** The bytes of the cache file's format, one by one, and what a reader makes of any bytes. */
module SavedFormat {
  import opened Prelude
  import opened Varint
  import opened SavedBinary

  /** `n` shifted right by `k` groups, `base` being the size of a group. */
  function Shr(n: nat, k: nat, base: nat): nat
    requires base > 0
    decreases k
  {
    if k == 0 then n else Shr(n / base, k - 1, base)
  }

  // ----- Writing -----

  /** Byte `k` of a varint holds the bits from 7 * `k` on, and all bytes but the last have the high bit; no shorter one
      would do. */
  lemma {:induction false} UvarintBytes(n: nat, k: nat)
    requires k < |Uvarint(n)|
    ensures Uvarint(n)[k] == Shr(n, k, 128) % 128 + if k < |Uvarint(n)| - 1 then 128 else 0
    ensures Shr(n, |Uvarint(n)|, 128) == 0 && (k > 0 ==> Shr(n, k, 128) > 0)
    decreases n
  {
    var rest := Uvarint(n / 128);
    if n < 128 {
    } else if k == 0 {
      UvarintBytes(n / 128, 0);
    } else {
      UvarintBytes(n / 128, k - 1);
      assert Uvarint(n)[k] == rest[k - 1];
      if k == 1 {
        assert Shr(n, 1, 128) == Shr(n / 128, 0, 128) == n / 128;
      }
    }
  }

  lemma {:induction false} BigEndianBytes(u: nat, size: nat, k: nat)
    requires k < size
    ensures |BigEndian(u, size)| == size && BigEndian(u, size)[k] == Shr(u, size - 1 - k, 256) % 256
    decreases size
  {
    if k == size - 1 {
      BigEndianSize(u, size);
    } else {
      BigEndianBytes(u / 256, size - 1, k);
    }
  }

  lemma {:induction false} BigEndianSize(u: nat, size: nat)
    ensures |BigEndian(u, size)| == size
  {
    if size == 0 {
    } else {
      BigEndianSize(u / 256, size - 1);
    }
  }

  /** Seconds are written as eight bytes, the highest first, in two's complement. */
  lemma Int64Bytes(v: int, k: nat)
    requires -TWO_63 <= v < TWO_63 && k < 8
    ensures |Int64(v)| == 8
    ensures Int64(v)[k] == Shr(if v < 0 then v + 0x1_0000_0000_0000_0000 else v, 7 - k, 256) % 256
  {
    BigEndianBytes(if v < 0 then v + TWO_64 else v, 8, k);
  }

  // ----- Reading -----

  /** The first byte without the high bit is number `k`. */
  predicate EndsAt(data: seq<byte>, k: nat) {
    k < |data| && data[k] < 128 && forall j :: 0 <= j < k ==> data[j] >= 128
  }

  predicate AllHigh(data: seq<byte>, n: nat) {
    n <= |data| && forall j :: 0 <= j < n ==> data[j] >= 128
  }

  /** A varint that ends soon enough is read to its end, and its bytes hold the bits of the value. */
  lemma {:induction false} ReadsToTheEnd(data: seq<byte>, i: nat, k: nat)
    requires EndsAt(data, k) && (i + k < 9 || (i + k == 9 && data[k] <= 1))
    ensures var r := ReadUvarintFrom(data, i);
            && r.Got? && r.rest == data[k + 1..] && Shr(r.value, k + 1, 128) == 0
            && forall j :: 0 <= j <= k ==> Shr(r.value, j, 128) % 128 == data[j] % 128
    decreases k
  {
    if k == 0 {
      assert Shr(data[0], 1, 128) == Shr(data[0] / 128, 0, 128);
    } else {
      ReadsToTheEnd(data[1..], i + 1, k - 1);
      var r, high := ReadUvarintFrom(data, i), ReadUvarintFrom(data[1..], i + 1).value;
      assert r.value / 128 == high && data[1..][k..] == data[k + 1..];
      forall j | 0 <= j <= k
        ensures Shr(r.value, j, 128) % 128 == data[j] % 128
      {
        if j > 0 {
          assert data[1..][j - 1] == data[j];
        }
      }
    }
  }

  lemma {:induction false} RunsOut(data: seq<byte>, i: nat)
    requires AllHigh(data, |data|) && i + |data| < 10
    ensures ReadUvarintFrom(data, i) == Failed(if i == 0 && data == [] then Eof else UnexpectedEof, [])
    decreases |data|
  {
    if data == [] {
    } else {
      RunsOut(data[1..], i + 1);
    }
  }

  lemma {:induction false} TooLong(data: seq<byte>, i: nat)
    requires i < 10 <= i + |data| && AllHigh(data, 9 - i) && data[9 - i] > 1
    ensures ReadUvarintFrom(data, i) == Failed(Overflow, data[10 - i..])
    decreases 10 - i
  {
    if i == 9 {
      if data[0] >= 128 {
        assert ReadUvarintFrom(data[1..], 10) == Failed(Overflow, data[1..]);
      }
    } else {
      assert data[1..][9 - (i + 1)] == data[9 - i];
      TooLong(data[1..], i + 1);
      assert data[1..][10 - (i + 1)..] == data[10 - i..];
    }
  }

  /** What a reader makes of any bytes where a varint should be: its value if it ends within ten bytes and fits in 64
      bits; no input if there is none; an unexpected end if it breaks off before; and an overflow otherwise. */
  lemma UvarintExactly(data: seq<byte>, k: nat)
    ensures EndsAt(data, k) && (k < 9 || (k == 9 && data[9] <= 1)) ==>
              var r := ReadUvarint(data);
              && r.Got? && r.rest == data[k + 1..] && Shr(r.value, k + 1, 128) == 0
              && forall j :: 0 <= j <= k ==> Shr(r.value, j, 128) % 128 == data[j] % 128
    ensures AllHigh(data, |data|) && |data| < 10 ==>
              ReadUvarint(data) == Failed(if data == [] then Eof else UnexpectedEof, [])
    ensures |data| >= 10 && AllHigh(data, 9) && data[9] > 1 ==> ReadUvarint(data) == Failed(Overflow, data[10..])
  {
    if EndsAt(data, k) && (k < 9 || (k == 9 && data[9] <= 1)) {
      ReadsToTheEnd(data, 0, k);
    }
    if AllHigh(data, |data|) && |data| < 10 {
      RunsOut(data, 0);
    }
    if |data| >= 10 && AllHigh(data, 9) && data[9] > 1 {
      TooLong(data, 0);
    }
  }

  /** One of these is always the case. */
  lemma {:induction false} OneOfThese(data: seq<byte>, i: nat) returns (k: nat)
    requires i <= 9
    ensures || (EndsAt(data, k) && (i + k < 9 || (i + k == 9 && data[k] <= 1)))
            || (AllHigh(data, |data|) && i + |data| < 10)
            || (i + |data| >= 10 && AllHigh(data, 9 - i) && data[9 - i] > 1)
    decreases 9 - i
  {
    k := 0;
    if data != [] && data[0] >= 128 && i < 9 {
      var rest := OneOfThese(data[1..], i + 1);
      k := rest + 1;
      assert forall j :: 0 < j < |data| ==> data[j] == data[1..][j - 1];
    }
  }

  lemma {:induction false} FromBytes(bytes: seq<byte>, k: nat)
    requires k < |bytes|
    ensures Shr(FromBigEndian(bytes), |bytes| - 1 - k, 256) % 256 == bytes[k]
    decreases |bytes|
  {
    var n := |bytes| - 1;
    if k == n {
    } else {
      FromBytes(bytes[..n], k);
    }
  }

  lemma {:induction false} FromBytesFits(bytes: seq<byte>)
    ensures FromBigEndian(bytes) < Pow256(|bytes|)
  {
    if bytes == [] {
    } else {
      FromBytesFits(bytes[..|bytes| - 1]);
    }
  }

  /** Eight bytes are read as a signed integer, the highest first; with fewer there is no value. */
  lemma Int64Exactly(data: seq<byte>)
    ensures data == [] ==> ReadInt64(data) == Failed(Eof, [])
    ensures 0 < |data| < 8 ==> ReadInt64(data) == Failed(UnexpectedEof, [])
    ensures |data| >= 8 ==>
              var r := ReadInt64(data);
              && r.Got? && r.rest == data[8..]
              && -0x8000_0000_0000_0000 <= r.value < 0x8000_0000_0000_0000
              && forall k :: 0 <= k < 8 ==>
                   Shr(if r.value < 0 then r.value + 0x1_0000_0000_0000_0000 else r.value, 7 - k, 256) % 256 == data[k]
  {
    if |data| >= 8 {
      assert Pow256(8) == TWO_64 by {
        assert Pow256(4) == 0x1_0000_0000;
      }
      FromBytesFits(data[..8]);
      forall k | 0 <= k < 8
        ensures Shr(FromBigEndian(data[..8]), 7 - k, 256) % 256 == data[k]
      {
        FromBytes(data[..8], k);
      }
    }
  }

  /** A length that goes beyond the end is rejected, and nothing is taken. */
  lemma TooLongIsRejected(n: nat, rest: seq<byte>)
    requires |rest| < n < TWO_64
    ensures ReadBlock(Uvarint(n) + rest) == Failed(InvalidLength(n), rest)
  {
    LimitOfAll();
    UvarintReadsBack(n, rest, 0);
  }

  // ----- Files of any version -----

  /** The version decides only whether a hash follows: below 2 the receiver's hash stays, from 2 on it is read. */
  lemma AnyVersion(receiver: Saved, version: byte, s: Saved, rest: seq<byte>)
    requires Storable(s)
    ensures var file := [version] + (Block(s.content) + (Int64(s.lastUpdated.seconds) + (Block(s.lastEtag) + rest)));
            var read := Saved(s.content, Time(s.lastUpdated.seconds, 0), s.lastEtag, receiver.urlHash);
            && (version < 2 ==> Decode(receiver, file) == Outcome(read, None, rest, |s.content| + |s.lastEtag|))
            && (version >= 2 ==>
                  forall hash: seq<byte>, more: seq<byte> :: |hash| < TWO_63 && rest == Block(hash) + more ==>
                    Decode(receiver, file) ==
                      Outcome(read.(urlHash := hash), None, more, |s.content| + |s.lastEtag| + |hash|))
  {
    var file := [version] + CommonFields(s, rest);
    assert file[1..] == CommonFields(s, rest);
    CommonReadsBack(receiver, version, s, rest);
    forall hash: seq<byte>, more: seq<byte> | |hash| < TWO_63 && rest == Block(hash) + more
      ensures ReadBlock(rest) == Got(hash, more)
    {
      BlockReadsBack(hash, more);
    }
  }

  /** A damaged file gives the receiver at most the fields before the damage. */
  lemma DamageKeepsTheRest(receiver: Saved, data: seq<byte>)
    requires Decode(receiver, data).error.Some?
    ensures var o := Decode(receiver, data);
            && o.saved.urlHash == receiver.urlHash
            && (o.saved.lastEtag != receiver.lastEtag ==> data[0] >= 2)
            && o.taken <= |data|
            && (o.error.value.InvalidLength? ==> o.error.value.length > |o.rest|)
            && (o.error.value.Eof? || o.error.value.UnexpectedEof? ==> o.rest == [])
  {
    DecodeInBounds(receiver, data);
    if data != [] {
      BlockDamage(data[1..]);
      var content := ReadBlock(data[1..]);
      if content.Got? && ReadInt64(content.rest).Got? {
        var rest := ReadInt64(content.rest).rest;
        BlockDamage(rest);
        if ReadBlock(rest).Got? {
          BlockDamage(ReadBlock(rest).rest);
        }
      }
    }
  }

  lemma BlockDamage(data: seq<byte>)
    ensures var r := ReadBlock(data);
            r.Failed? ==>
              && (r.error.InvalidLength? ==> r.error.length > |r.rest|)
              && (r.error.Eof? || r.error.UnexpectedEof? ==> r.rest == [])
  {
    var k := OneOfThese(data, 0);
    UvarintExactly(data, k);
  }
}
