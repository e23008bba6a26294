/** Account bytes: little-endian numbers, slices, writing in place and reading in sequence. */
module Bytes {
  import opened Options
  import opened Numbers
  import opened Digits

  function FromLe(bytes: seq<Byte>): nat {
    if bytes == [] then 0 else bytes[0] + 256 * FromLe(bytes[1..])
  }

  /** The low `k` bytes of a number, low byte first; higher bits are dropped, as the typed writers do. */
  function ToLe(v: nat, k: nat): (bytes: seq<Byte>)
    ensures |bytes| == k
  {
    if k == 0 then [] else [v % 256] + ToLe(v / 256, k - 1)
  }

  lemma {:induction false} FromLeBelow(bytes: seq<Byte>)
    ensures FromLe(bytes) < Pow(256, |bytes|)
  {
    if bytes != [] { FromLeBelow(bytes[1..]); }
  }

  /** A number survives exactly when it fits. */
  lemma {:induction false} LeRoundTrip(v: nat, k: nat)
    ensures FromLe(ToLe(v, k)) == v <==> v < Pow(256, k)
    decreases k
  {
    FromLeBelow(ToLe(v, k));
    if k > 0 {
      LeRoundTrip(v / 256, k - 1);
      assert ToLe(v, k)[1..] == ToLe(v / 256, k - 1);
      Division(v, 256);
    }
  }

  lemma {:induction false} LeBytesRoundTrip(bytes: seq<Byte>)
    ensures ToLe(FromLe(bytes), |bytes|) == bytes
  {
    if bytes != [] {
      LeBytesRoundTrip(bytes[1..]);
      assert bytes == [bytes[0]] + bytes[1..];
    }
  }

  /** Low byte first: byte `i` is the `i`-th base-256 digit. */
  lemma {:induction false} LowByteFirst(v: nat, k: nat, i: nat)
    requires i < k
    ensures ToLe(v, k)[i] == Shifted(v, i) % 256
  {
    if i > 0 { LowByteFirst(v / 256, k - 1, i - 1); }
  }

  /** `v` without its low `i` bytes. */
  function Shifted(v: nat, i: nat): nat {
    if i == 0 then v else Shifted(v / 256, i - 1)
  }

  /** The number a byte sequence stands for is its value by position, read from the high byte down. */
  lemma {:induction false} LowByteLast(bytes: seq<Byte>)
    ensures FromLe(bytes) == Value(Reversed(bytes), 256)
  {
    if bytes != [] {
      LowByteLast(bytes[1..]);
      assert Reversed(bytes)[..|bytes| - 1] == Reversed(bytes[1..]);
    }
  }

  function Reversed(bytes: seq<Byte>): (r: seq<nat>)
    ensures |r| == |bytes|
  {
    seq(|bytes|, i requires 0 <= i < |bytes| => bytes[|bytes| - 1 - i])
  }

  lemma Widths()
    ensures Pow(256, 1) == 256 && Pow(256, 2) == 65536 && Pow(256, 8) == U64_MODULUS
  {
    assert Pow(256, 4) == 0x1_0000_0000;
  }

  function Slice(bytes: seq<Byte>, offset: nat, length: nat): (s: seq<Byte>)
    requires offset + length <= |bytes|
    ensures |s| == length
  {
    bytes[offset..offset + length]
  }

  function Written(bytes: seq<Byte>, offset: nat, val: seq<Byte>): (after: seq<Byte>)
    requires offset + |val| <= |bytes|
    ensures |after| == |bytes|
  {
    bytes[..offset] + val + bytes[offset + |val|..]
  }

  /** A write is read back, and leaves every other range alone. */
  lemma SliceWritten(bytes: seq<Byte>, offset: nat, val: seq<Byte>, o: nat, n: nat)
    requires offset + |val| <= |bytes| && o + n <= |bytes|
    ensures o == offset && n == |val| ==> Slice(Written(bytes, offset, val), o, n) == val
    ensures o + n <= offset || offset + |val| <= o ==> Slice(Written(bytes, offset, val), o, n) == Slice(bytes, o, n)
  {
  }

  /** Where a field lies in its account. */
  datatype Span = Span(offset: nat, width: nat)

  predicate Apart(s: Span, t: Span) {
    s.offset + s.width <= t.offset || t.offset + t.width <= s.offset
  }

  function At(bytes: seq<Byte>, s: Span): (field: seq<Byte>)
    requires s.offset + s.width <= |bytes|
    ensures |field| == s.width
  {
    Slice(bytes, s.offset, s.width)
  }

  /** Writing one field reads back there and leaves a field apart from it alone. */
  lemma AtWritten(bytes: seq<Byte>, s: Span, val: seq<Byte>, t: Span)
    requires s.offset + s.width <= |bytes| && t.offset + t.width <= |bytes| && |val| == s.width
    requires t == s || Apart(s, t)
    ensures t == s ==> At(Written(bytes, s.offset, val), t) == val
    ensures Apart(s, t) ==> At(Written(bytes, s.offset, val), t) == At(bytes, t)
  {
    SliceWritten(bytes, s.offset, val, t.offset, t.width);
  }

  /** `copy_from_slice` into a range of the account. */
  method CopyInto(data: array<Byte>, offset: nat, val: seq<Byte>)
    requires offset + |val| <= data.Length
    modifies data
    ensures data[..] == Written(old(data[..]), offset, val)
  {
    for i := 0 to |val|
      invariant forall k :: 0 <= k < data.Length ==>
                  data[k] == if offset <= k < offset + i then val[k - offset] else old(data[k])
    {
      data[offset + i] := val[i];
    }
  }

  /** Reads fields one after the other; `None` where the code throws. */
  class ByteReader {
    const bytes: seq<Byte>
    var offset: nat

    constructor (bytes: seq<Byte>)
      ensures this.bytes == bytes && offset == 0
    {
      this.bytes, offset := bytes, 0;
    }

    method U8() returns (v: Option<Byte>)
      modifies this
      ensures v == if old(offset) < |bytes| then Some(bytes[old(offset)]) else None
      ensures offset == if v.Some? then old(offset) + 1 else old(offset)
    {
      if offset >= |bytes| {
        return None;
      }
      v := Some(bytes[offset]);
      offset := offset + 1;
    }

    method Bool() returns (v: Option<bool>)
      modifies this
      ensures v == if old(offset) < |bytes| then Some(bytes[old(offset)] != 0) else None
      ensures offset == if v.Some? then old(offset) + 1 else old(offset)
    {
      var b := U8();
      v := if b.Some? then Some(b.value != 0) else None;
    }

    /** The little-endian number in the next `k` bytes: `u16` and `u64` for 2 and 8. */
    method Le(k: nat) returns (v: Option<nat>)
      modifies this
      ensures v == if old(offset) + k <= |bytes| then Some(FromLe(Slice(bytes, old(offset), k))) else None
      ensures offset == if v.Some? then old(offset) + k else old(offset)
    {
      if offset + k > |bytes| {
        return None;
      }
      v := Some(FromLe(Slice(bytes, offset, k)));
      offset := offset + k;
    }

    /** The next 32 bytes: a key or a root. */
    method Bytes32() returns (v: Option<seq<Byte>>)
      modifies this
      ensures v == if old(offset) + 32 <= |bytes| then Some(Slice(bytes, old(offset), 32)) else None
      ensures v.Some? ==> offset == old(offset) + 32
    {
      if offset + 32 > |bytes| {
        return None;
      }
      v := Some(Slice(bytes, offset, 32));
      offset := offset + 32;
    }
  }
}
