/** Base-128 variable-length integers and big-endian 64-bit integers, as the cache file's binary format uses them. */
module Varint {
  type byte = x: int | 0 <= x < 256

  const MAX_VARINT_LEN := 10
  const TWO_63 := 0x8000_0000_0000_0000
  const TWO_64 := 0x1_0000_0000_0000_0000

  datatype Error = Eof | UnexpectedEof | Overflow | InvalidLength(length: nat)

  /** The outcome of reading from a reader: a value or an error, and the bytes that the reader has left then. */
  datatype Read<+T> = Got(value: T, rest: seq<byte>) | Failed(error: Error, rest: seq<byte>)

  // ----- Unsigned varints -----

  function Uvarint(n: nat): seq<byte> {
    if n < 128 then [n] else [n % 128 + 128] + Uvarint(n / 128)
  }

  /** Reads the rest of a varint of which `i` bytes have been read. */
  function ReadUvarintFrom(data: seq<byte>, i: nat): Read<nat>
    requires i <= MAX_VARINT_LEN
    decreases MAX_VARINT_LEN - i
  {
    if i == MAX_VARINT_LEN then Failed(Overflow, data)
    else if data == [] then Failed(if i > 0 then UnexpectedEof else Eof, [])
    else if data[0] < 128 then
      if i == MAX_VARINT_LEN - 1 && data[0] > 1 then Failed(Overflow, data[1..]) else Got(data[0], data[1..])
    else
      match ReadUvarintFrom(data[1..], i + 1)
      case Got(high, rest) => Got(data[0] - 128 + 128 * high, rest)
      case Failed(error, rest) => Failed(error, rest)
  }

  function ReadUvarint(data: seq<byte>): Read<nat> {
    ReadUvarintFrom(data, 0)
  }

  /** The values that still fit when `i` bytes have been read: 2 to the power of 64 - 7 * i. */
  function Limit(i: nat): (limit: nat)
    requires i < MAX_VARINT_LEN
    ensures limit >= 2
    decreases MAX_VARINT_LEN - i
  {
    if i == MAX_VARINT_LEN - 1 then 2 else 128 * Limit(i + 1)
  }

  lemma LimitOfAll()
    ensures Limit(0) == TWO_64
  {
    assert Limit(8) == 256 && Limit(7) == 32768 && Limit(6) == 4194304 && Limit(5) == 536870912;
    assert Limit(4) == 68719476736 && Limit(3) == 8796093022208 && Limit(2) == 1125899906842624;
    assert Limit(1) == 144115188075855872;
  }

  /** A varint is read back, whatever follows it. */
  lemma {:induction false} UvarintReadsBack(n: nat, rest: seq<byte>, i: nat)
    requires i < MAX_VARINT_LEN && n < Limit(i)
    ensures ReadUvarintFrom(Uvarint(n) + rest, i) == Got(n, rest)
    decreases n
  {
    var data := Uvarint(n) + rest;
    if n < 128 {
      assert data[1..] == rest;
    } else {
      assert data[1..] == Uvarint(n / 128) + rest;
      UvarintReadsBack(n / 128, rest, i + 1);
    }
  }

  /** What is read lies within the data and fits in 64 bits. */
  lemma {:induction false} UvarintInBounds(data: seq<byte>, i: nat)
    requires i < MAX_VARINT_LEN
    ensures var r := ReadUvarintFrom(data, i);
            |r.rest| <= |data| && (r.Got? ==> |r.rest| < |data| && r.value < Limit(i))
    decreases MAX_VARINT_LEN - i
  {
    if i == MAX_VARINT_LEN - 1 {
    } else {
      assert Limit(i) == 128 * Limit(i + 1);
      if data != [] && data[0] >= 128 {
        UvarintInBounds(data[1..], i + 1);
      }
    }
  }

  lemma TailThen(data: seq<byte>, more: seq<byte>)
    requires data != []
    ensures (data + more)[0] == data[0] && (data + more)[1..] == data[1..] + more
  {
  }

  /** A successful reading does not depend on what follows. */
  lemma {:induction false} UvarintExtends(data: seq<byte>, more: seq<byte>, i: nat)
    requires i <= MAX_VARINT_LEN && ReadUvarintFrom(data, i).Got?
    ensures var r := ReadUvarintFrom(data, i); ReadUvarintFrom(data + more, i) == Got(r.value, r.rest + more)
    decreases MAX_VARINT_LEN - i
  {
    TailThen(data, more);
    if data[0] < 128 {
    } else {
      UvarintExtends(data[1..], more, i + 1);
    }
  }

  method WriteUvarint(buffer: seq<byte>, n: nat) returns (buffer': seq<byte>)
    ensures buffer' == buffer + Uvarint(n)
  {
    buffer' := buffer;
    var rest := n;
    while rest >= 128
      invariant buffer' + Uvarint(rest) == buffer + Uvarint(n)
    {
      assert Uvarint(rest) == [rest % 128 + 128] + Uvarint(rest / 128);
      assert buffer' + Uvarint(rest) == buffer' + [rest % 128 + 128] + Uvarint(rest / 128);
      buffer' := buffer' + [rest % 128 + 128];
      rest := rest / 128;
    }
    buffer' := buffer' + [rest];
  }

  /** `v` shifted left by `i` groups of seven bits. */
  function Shifted(v: int, i: nat): int {
    if i == 0 then v else 128 * Shifted(v, i - 1)
  }

  lemma {:induction false} ShiftedSum(v: int, w: int, i: nat)
    ensures Shifted(v + 128 * w, i) == Shifted(v, i) + Shifted(w, i + 1)
  {
    if i == 0 {
      assert Shifted(w, 1) == 128 * Shifted(w, 0);
    } else {
      ShiftedSum(v, w, i - 1);
    }
  }

  /** Reads the rest of a varint of which `i` bytes have been read and added up to `x`. */
  function Scanned(data: seq<byte>, i: nat, x: int): Read<int>
    requires i <= MAX_VARINT_LEN
    decreases MAX_VARINT_LEN - i
  {
    if i == MAX_VARINT_LEN then Failed(Overflow, data)
    else if data == [] then Failed(if i > 0 then UnexpectedEof else Eof, [])
    else if data[0] < 128 then
      if i == MAX_VARINT_LEN - 1 && data[0] > 1 then Failed(Overflow, data[1..])
      else Got(x + Shifted(data[0], i), data[1..])
    else Scanned(data[1..], i + 1, x + Shifted(data[0] - 128, i))
  }

  /** Adding up from the lowest byte gives the value that is defined from the highest one. */
  lemma {:induction false} ScannedIsRead(data: seq<byte>, i: nat, x: int)
    requires i <= MAX_VARINT_LEN
    ensures var r := ReadUvarintFrom(data, i);
            Scanned(data, i, x) == if r.Got? then Got(x + Shifted(r.value, i), r.rest) else r
    decreases MAX_VARINT_LEN - i
  {
    if i == MAX_VARINT_LEN || data == [] || data[0] < 128 {
    } else {
      ScannedIsRead(data[1..], i + 1, x + Shifted(data[0] - 128, i));
      var r := ReadUvarintFrom(data[1..], i + 1);
      if r.Got? {
        ShiftedSum(data[0] - 128, r.value, i);
      }
    }
  }

  /** The loop that adds up the bytes. */
  method Scan(data: seq<byte>) returns (r: Read<int>)
    ensures r == Scanned(data, 0, 0)
  {
    var x: int := 0;
    var rest, i := data, 0;
    while i < MAX_VARINT_LEN
      invariant 0 <= i <= MAX_VARINT_LEN
      invariant Scanned(rest, i, x) == Scanned(data, 0, 0)
    {
      if rest == [] {
        return Failed(if i > 0 then UnexpectedEof else Eof, rest);
      }
      var b: int := rest[0];
      if b < 128 {
        if i == MAX_VARINT_LEN - 1 && b > 1 {
          return Failed(Overflow, rest[1..]);
        }
        return Got(x + Shifted(b, i), rest[1..]);
      }
      x := x + Shifted(b - 128, i);
      rest, i := rest[1..], i + 1;
    }
    r := Failed(Overflow, rest);
  }

  /** A varint read like that; the sum never leaves 64 bits. */
  method ScanUvarint(data: seq<byte>) returns (r: Read<nat>)
    ensures r == ReadUvarint(data)
    ensures r.Got? ==> r.value < TWO_64
  {
    LimitOfAll();
    UvarintInBounds(data, 0);
    ScannedIsRead(data, 0, 0);
    r := Scan(data);
  }

  // ----- Big-endian integers -----

  function BigEndian(u: nat, k: nat): seq<byte> {
    if k == 0 then [] else BigEndian(u / 256, k - 1) + [u % 256]
  }

  function FromBigEndian(bytes: seq<byte>): nat {
    if bytes == [] then 0 else 256 * FromBigEndian(bytes[..|bytes| - 1]) + bytes[|bytes| - 1]
  }

  function Pow256(k: nat): nat {
    if k == 0 then 1 else 256 * Pow256(k - 1)
  }

  lemma {:induction false} BigEndianReadsBack(u: nat, k: nat)
    requires u < Pow256(k)
    ensures |BigEndian(u, k)| == k && FromBigEndian(BigEndian(u, k)) == u
  {
    if k == 0 {
    } else {
      BigEndianReadsBack(u / 256, k - 1);
      assert BigEndian(u, k)[..k - 1] == BigEndian(u / 256, k - 1);
    }
  }

  /** A signed 64-bit integer in two's complement. */
  function Int64(v: int): seq<byte>
    requires -TWO_63 <= v < TWO_63
  {
    BigEndian(if v < 0 then v + TWO_64 else v, 8)
  }

  function Signed(u: nat): int {
    if u < TWO_63 then u else u - TWO_64
  }

  function ReadInt64(data: seq<byte>): Read<int> {
    if data == [] then Failed(Eof, [])
    else if |data| < 8 then Failed(UnexpectedEof, [])
    else Got(Signed(FromBigEndian(data[..8])), data[8..])
  }

  lemma Int64ReadsBack(v: int, rest: seq<byte>)
    requires -TWO_63 <= v < TWO_63
    ensures |Int64(v)| == 8 && ReadInt64(Int64(v) + rest) == Got(v, rest)
  {
    assert Pow256(8) == TWO_64 by {
      assert Pow256(4) == 0x1_0000_0000;
    }
    BigEndianReadsBack(if v < 0 then v + TWO_64 else v, 8);
    assert (Int64(v) + rest)[..8] == Int64(v) && (Int64(v) + rest)[8..] == rest;
  }
}
