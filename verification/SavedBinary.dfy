/** The binary form of a saved rule set in the cache file. */
module SavedBinary {
  import opened Prelude
  import opened Varint

  /** A point in time: seconds since the Unix epoch and nanoseconds within the second. */
  datatype Time = Time(seconds: int, nanos: nat)

  datatype Saved = Saved(content: seq<byte>, lastUpdated: Time, lastEtag: seq<byte>, urlHash: seq<byte>)

  /** What Go's types allow: lengths are non-negative `int`s, seconds an `int64`. */
  predicate Storable(s: Saved) {
    && |s.content| < TWO_63 && |s.lastEtag| < TWO_63 && |s.urlHash| < TWO_63
    && -TWO_63 <= s.lastUpdated.seconds < TWO_63
  }

  function Block(bytes: seq<byte>): seq<byte> {
    Uvarint(|bytes|) + bytes
  }

  /** The fields of both versions of the format, and then `rest`. */
  function CommonFields(s: Saved, rest: seq<byte>): seq<byte>
    requires Storable(s)
  {
    Block(s.content) + (Int64(s.lastUpdated.seconds) + (Block(s.lastEtag) + rest))
  }

  function Encode(s: Saved): seq<byte>
    requires Storable(s)
  {
    [2] + CommonFields(s, Block(s.urlHash))
  }

  /** Version 1 had no hash of the URL. */
  function EncodeV1(s: Saved): seq<byte>
    requires Storable(s)
  {
    [1] + CommonFields(s, [])
  }

  // ----- Decoding -----

  function ReadBlock(data: seq<byte>): Read<seq<byte>> {
    match ReadUvarint(data)
    case Failed(error, rest) => Failed(error, rest)
    case Got(length, rest) =>
      if length > |rest| then Failed(InvalidLength(length), rest) else Got(rest[..length], rest[length..])
  }

  /** The outcome of decoding into a receiver: its fields then, the error if any, the bytes left unread and the
      number of bytes allocated. */
  datatype Outcome = Outcome(saved: Saved, error: Option<Error>, rest: seq<byte>, taken: nat)

  function Decode(saved: Saved, data: seq<byte>): Outcome {
    if data == [] then Outcome(saved, Some(Eof), [], 0) else DecodeContent(saved, data[0], data[1..])
  }

  function DecodeContent(saved: Saved, version: byte, data: seq<byte>): Outcome {
    match ReadBlock(data)
    case Failed(error, rest) => Outcome(saved, Some(error), rest, 0)
    case Got(content, rest) => DecodeTime(saved.(content := content), version, rest, |content|)
  }

  function DecodeTime(saved: Saved, version: byte, data: seq<byte>, taken: nat): Outcome {
    match ReadInt64(data)
    case Failed(error, rest) => Outcome(saved, Some(error), rest, taken)
    case Got(seconds, rest) => DecodeEtag(saved.(lastUpdated := Time(seconds, 0)), version, rest, taken)
  }

  function DecodeEtag(saved: Saved, version: byte, data: seq<byte>, taken: nat): Outcome {
    match ReadBlock(data)
    case Failed(error, rest) => Outcome(saved, Some(error), rest, taken)
    case Got(etag, rest) =>
      if version < 2 then Outcome(saved.(lastEtag := etag), None, rest, taken + |etag|)
      else DecodeHash(saved.(lastEtag := etag), rest, taken + |etag|)
  }

  function DecodeHash(saved: Saved, data: seq<byte>, taken: nat): Outcome {
    match ReadBlock(data)
    case Failed(error, rest) => Outcome(saved, Some(error), rest, taken)
    case Got(hash, rest) => Outcome(saved.(urlHash := hash), None, rest, taken + |hash|)
  }

  // ----- The object -----

  lemma Assembled(a: seq<byte>, b: seq<byte>, c: seq<byte>, d: seq<byte>, e: seq<byte>, f: seq<byte>, g: seq<byte>)
    ensures [2] + a + b + c + d + e + f + g == [2] + ((a + b) + (c + ((d + e) + (f + g))))
  {
  }

  class SavedBinaryFile {
    var content: seq<byte>
    var lastUpdated: Time
    var lastEtag: seq<byte>
    var urlHash: seq<byte>

    constructor (s: Saved)
      ensures Value() == s
    {
      content, lastUpdated, lastEtag, urlHash := s.content, s.lastUpdated, s.lastEtag, s.urlHash;
    }

    function Value(): Saved
      reads this
    {
      Saved(content, lastUpdated, lastEtag, urlHash)
    }

    method MarshalBinary() returns (buffer: seq<byte>)
      requires Storable(Value())
      ensures buffer == Encode(Value())
      ensures buffer == [2] + Uvarint(|content|) + content + Int64(lastUpdated.seconds) + Uvarint(|lastEtag|) + lastEtag
                        + Uvarint(|urlHash|) + urlHash
    {
      buffer := [2];
      buffer := WriteUvarint(buffer, |content|);
      buffer := buffer + content;
      buffer := buffer + Int64(lastUpdated.seconds);
      buffer := WriteUvarint(buffer, |lastEtag|);
      buffer := buffer + lastEtag;
      buffer := WriteUvarint(buffer, |urlHash|);
      buffer := buffer + urlHash;
      Assembled(Uvarint(|content|), content, Int64(lastUpdated.seconds), Uvarint(|lastEtag|), lastEtag,
                Uvarint(|urlHash|), urlHash);
    }

    /** Reads a length and then that many bytes, unless there are fewer. */
    static method ReadBytes(data: seq<byte>) returns (r: Read<seq<byte>>)
      ensures r == ReadBlock(data)
    {
      var length := ScanUvarint(data);
      if length.Failed? {
        return Failed(length.error, length.rest);
      }
      if length.value > |length.rest| {
        return Failed(InvalidLength(length.value), length.rest);
      }
      r := Got(length.rest[..length.value], length.rest[length.value..]);
    }

    /** Fills in the fields one after the other; an error leaves those that had been read. */
    method UnmarshalBinary(data: seq<byte>) returns (error: Option<Error>, rest: seq<byte>, taken: nat)
      modifies this
      ensures Outcome(Value(), error, rest, taken) == Decode(old(Value()), data)
    {
      rest, taken := data, 0;
      if rest == [] {
        return Some(Eof), rest, taken;
      }
      var version := rest[0];
      rest := rest[1..];
      var block := ReadBytes(rest);
      if block.Failed? {
        return Some(block.error), block.rest, taken;
      }
      content, rest, taken := block.value, block.rest, |block.value|;
      var seconds := ReadInt64(rest);
      if seconds.Failed? {
        return Some(seconds.error), seconds.rest, taken;
      }
      lastUpdated, rest := Time(seconds.value, 0), seconds.rest;
      block := ReadBytes(rest);
      if block.Failed? {
        return Some(block.error), block.rest, taken;
      }
      lastEtag, rest, taken := block.value, block.rest, taken + |block.value|;
      if version < 2 {
        return None, rest, taken;
      }
      block := ReadBytes(rest);
      if block.Failed? {
        return Some(block.error), block.rest, taken;
      }
      urlHash, rest, taken := block.value, block.rest, taken + |block.value|;
      error := None;
    }
  }

  // ----- Round trips -----

  lemma BlockReadsBack(bytes: seq<byte>, rest: seq<byte>)
    requires |bytes| < TWO_63
    ensures ReadBlock(Block(bytes) + rest) == Got(bytes, rest)
  {
    LimitOfAll();
    assert Block(bytes) + rest == Uvarint(|bytes|) + (bytes + rest);
    UvarintReadsBack(|bytes|, bytes + rest, 0);
    assert (bytes + rest)[..|bytes|] == bytes && (bytes + rest)[|bytes|..] == rest;
  }

  function WholeSeconds(s: Saved): Saved {
    s.(lastUpdated := Time(s.lastUpdated.seconds, 0))
  }

  /** The common fields are read back from a file of either version. */
  lemma CommonReadsBack(receiver: Saved, version: byte, s: Saved, rest: seq<byte>)
    requires Storable(s)
    ensures var read, taken := WholeSeconds(s).(urlHash := receiver.urlHash), |s.content| + |s.lastEtag|;
            DecodeContent(receiver, version, CommonFields(s, rest)) ==
              if version < 2 then Outcome(read, None, rest, taken) else DecodeHash(read, rest, taken)
  {
    BlockReadsBack(s.content, Int64(s.lastUpdated.seconds) + (Block(s.lastEtag) + rest));
    Int64ReadsBack(s.lastUpdated.seconds, Block(s.lastEtag) + rest);
    BlockReadsBack(s.lastEtag, rest);
  }

  lemma CommonThen(s: Saved, rest: seq<byte>, more: seq<byte>)
    requires Storable(s)
    ensures CommonFields(s, rest) + more == CommonFields(s, rest + more)
  {
  }

  /** Decoding undoes encoding, whatever the receiver held and whatever follows: everything is as it was, except that
      the time has lost its fraction of a second. */
  lemma DecodeUndoesEncode(receiver: Saved, s: Saved, more: seq<byte>)
    requires Storable(s)
    ensures Decode(receiver, Encode(s) + more) ==
              Outcome(WholeSeconds(s), None, more, |s.content| + |s.lastEtag| + |s.urlHash|)
  {
    CommonThen(s, Block(s.urlHash), more);
    assert (Encode(s) + more)[1..] == CommonFields(s, Block(s.urlHash)) + more;
    CommonReadsBack(receiver, 2, s, Block(s.urlHash) + more);
    BlockReadsBack(s.urlHash, more);
  }

  /** A file of version 1 yields the same fields and leaves the hash alone. */
  lemma DecodeReadsVersion1(receiver: Saved, s: Saved, more: seq<byte>)
    requires Storable(s)
    ensures Decode(receiver, EncodeV1(s) + more) ==
              Outcome(WholeSeconds(s).(urlHash := receiver.urlHash), None, more, |s.content| + |s.lastEtag|)
  {
    CommonThen(s, [], more);
    assert [] + more == more;
    assert (EncodeV1(s) + more)[1..] == CommonFields(s, []) + more;
    CommonReadsBack(receiver, 1, s, more);
  }

  /** Different contents have different encodings. */
  lemma EncodeIsInjective(s: Saved, t: Saved)
    requires Storable(s) && Storable(t) && Encode(s) == Encode(t)
    ensures WholeSeconds(s) == WholeSeconds(t)
  {
    DecodeUndoesEncode(s, s, []);
    DecodeUndoesEncode(s, t, []);
  }

  // ----- Damaged files -----

  lemma BlockInBounds(data: seq<byte>)
    ensures var r := ReadBlock(data); |r.rest| <= |data| && (r.Got? ==> |r.value| + |r.rest| < |data|)
  {
    UvarintInBounds(data, 0);
  }

  /** Whatever the bytes, decoding allocates no more than it has read, and reads no more than there is. */
  lemma DecodeInBounds(receiver: Saved, data: seq<byte>)
    ensures Decode(receiver, data).taken + |Decode(receiver, data).rest| <= |data|
  {
    if data != [] {
      BlockInBounds(data[1..]);
      var content := ReadBlock(data[1..]);
      if content.Got? && ReadInt64(content.rest).Got? {
        var rest := ReadInt64(content.rest).rest;
        BlockInBounds(rest);
        if ReadBlock(rest).Got? {
          BlockInBounds(ReadBlock(rest).rest);
        }
      }
    }
  }

  lemma BlockExtends(data: seq<byte>, more: seq<byte>)
    requires ReadBlock(data).Got?
    ensures ReadBlock(data + more) == Got(ReadBlock(data).value, ReadBlock(data).rest + more)
  {
    UvarintExtends(data, more, 0);
    var length, rest := ReadUvarint(data).value, ReadUvarint(data).rest;
    assert (rest + more)[..length] == rest[..length] && (rest + more)[length..] == rest[length..] + more;
  }

  lemma Int64Extends(data: seq<byte>, more: seq<byte>)
    requires ReadInt64(data).Got?
    ensures ReadInt64(data + more) == Got(ReadInt64(data).value, ReadInt64(data).rest + more)
  {
    assert (data + more)[..8] == data[..8] && (data + more)[8..] == data[8..] + more;
  }

  /** A file that decodes decodes to the same with anything after it. */
  lemma DecodeExtends(receiver: Saved, data: seq<byte>, more: seq<byte>)
    requires Decode(receiver, data).error == None
    ensures var o := Decode(receiver, data); Decode(receiver, data + more) == o.(rest := o.rest + more)
  {
    assert (data + more)[1..] == data[1..] + more;
    BlockExtends(data[1..], more);
    var rest := ReadBlock(data[1..]).rest;
    Int64Extends(rest, more);
    rest := ReadInt64(rest).rest;
    BlockExtends(rest, more);
    if data[0] >= 2 {
      BlockExtends(ReadBlock(rest).rest, more);
    }
  }

  lemma CutIsRejected(receiver: Saved, cut: seq<byte>, more: seq<byte>)
    requires more != []
    requires var o := Decode(receiver, cut + more); o.error == None && o.rest == []
    ensures Decode(receiver, cut).error.Some?
  {
    if Decode(receiver, cut).error == None {
      DecodeExtends(receiver, cut, more);
    }
  }

  /** A file that was cut short anywhere is rejected. */
  lemma PrefixIsRejected(receiver: Saved, s: Saved, k: nat)
    requires Storable(s) && k < |Encode(s)|
    ensures Decode(receiver, Encode(s)[..k]).error.Some?
  {
    var data := Encode(s);
    DecodeUndoesEncode(receiver, s, []);
    assert data[..k] + data[k..] == data == data + [];
    CutIsRejected(receiver, data[..k], data[k..]);
  }
}
