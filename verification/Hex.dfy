/** Hexadecimal keys in log lines, and field elements as 32 big-endian bytes. */
module Hex {
  import opened Options
  import opened Numbers
  import opened Digits

  /** The two hex digits of each byte. */
  function Nibbles(bytes: seq<Byte>): (ds: seq<nat>)
    ensures |ds| == 2 * |bytes| && AllBelow(ds, 16)
  {
    seq(2 * |bytes|, i requires 0 <= i < 2 * |bytes| => if i % 2 == 0 then bytes[i / 2] / 16 else bytes[i / 2] % 16)
  }

  /** The bytes of pairs of hex digits; an odd digit at the end is not part of any. */
  function Paired(ds: seq<nat>): (bytes: seq<Byte>)
    requires AllBelow(ds, 16)
    ensures |bytes| == |ds| / 2
  {
    seq(|ds| / 2, i requires 0 <= i < |ds| / 2 => 16 * ds[2 * i] + ds[2 * i + 1])
  }

  lemma PairedNibbles(bytes: seq<Byte>)
    ensures Paired(Nibbles(bytes)) == bytes
  {
  }

  lemma NibblesPaired(ds: seq<nat>)
    requires AllBelow(ds, 16) && |ds| % 2 == 0
    ensures Nibbles(Paired(ds)) == ds
  {
    forall i | 0 <= i < |ds| ensures Nibbles(Paired(ds))[i] == ds[i] {
      var k := i / 2;
      assert Paired(ds)[k] == 16 * ds[2 * k] + ds[2 * k + 1];
      assert i == 2 * k || i == 2 * k + 1;
    }
  }

  function HexText(bytes: seq<Byte>): (s: string)
    ensures |s| == 2 * |bytes|
  {
    Render(Nibbles(bytes))
  }

  // ---------------------------------------------------------------------
  // The program's hex writer and the client's reader
  // ---------------------------------------------------------------------

  /** Writes the hex text into the log buffer, as many whole bytes as fit. */
  method WriteHex(key: seq<Byte>, buffer: array<char>) returns (written: nat)
    modifies buffer
    ensures written == if 2 * |key| <= buffer.Length then 2 * |key| else buffer.Length / 2 * 2
    ensures buffer[..written] == HexText(key)[..written]
    ensures buffer[written..] == old(buffer[written..])
  {
    written := 0;
    for i := 0 to |key|
      invariant written == 2 * i <= buffer.Length
      invariant buffer[..written] == HexText(key)[..written]
      invariant buffer[written..] == old(buffer[..])[written..]
    {
      if written + 2 > buffer.Length {
        break;
      }
      buffer[written] := DigitChar(key[i] / 16);
      buffer[written + 1] := DigitChar(key[i] % 16);
      written := written + 2;
    }
  }

  /** How many disjoint pairs of hex characters a left-to-right search finds. */
  function PairMatches(s: string): nat {
    if |s| < 2 then 0
    else if CharValue(s[0], 16).Some? && CharValue(s[1], 16).Some? then 1 + PairMatches(s[2..])
    else PairMatches(s[1..])
  }

  lemma {:induction false} AllPairsMatch(s: string)
    ensures 2 * PairMatches(s) <= |s|
    ensures |s| % 2 == 0 ==> (2 * PairMatches(s) == |s| <==> AllDigits(s, 16))
  {
    if |s| >= 2 {
      if CharValue(s[0], 16).Some? && CharValue(s[1], 16).Some? {
        AllPairsMatch(s[2..]);
        if AllDigits(s[2..], 16) {
          forall i | 0 <= i < |s| ensures CharValue(s[i], 16).Some? { if i >= 2 { assert s[i] == s[2..][i - 2]; } }
        } else {
          var i :| 0 <= i < |s[2..]| && CharValue(s[2..][i], 16).None?;
          assert CharValue(s[i + 2], 16).None?;
        }
      } else {
        AllPairsMatch(s[1..]);
      }
    }
  }

  /** The client's reader of a 64-character hex key. */
  method HexPubkeyToBytes(hex: string) returns (bytes: Option<seq<Byte>>)
    ensures bytes.Some? <==> |hex| == 64 && AllDigits(hex, 16)
    ensures bytes.Some? ==> bytes.value == Paired(ReadDigits(hex, 16))
  {
    AllPairsMatch(hex);
    if |hex| != 64 || PairMatches(hex) != 32 {
      return None;
    }
    var read: seq<Byte> := [];
    for i := 0 to 32
      invariant read == Paired(ReadDigits(hex, 16))[..i]
    {
      var high, low := CharValue(hex[2 * i], 16), CharValue(hex[2 * i + 1], 16);
      read := read + [16 * high.value + low.value];
    }
    return Some(read);
  }

  /** What the program writes reads back as the key it came from. */
  lemma HexRoundTrip(key: seq<Byte>)
    ensures AllDigits(HexText(key), 16) && Paired(ReadDigits(HexText(key), 16)) == key
  {
    ReadRendered(Nibbles(key), 16);
    PairedNibbles(key);
  }

  // ---------------------------------------------------------------------
  // Field elements
  // ---------------------------------------------------------------------

  /** `value.toString(16).padStart(64, "0")`, cut into 32 pairs. */
  function BigintToBytes32BE(value: nat): (bytes: seq<Byte>)
    ensures |bytes| == 32
  {
    Paired(PadStart(DigitsOf(value, 16), 64)[..64])
  }

  function Bytes32BEToBigint(bytes: seq<Byte>): nat {
    Value(Nibbles(bytes), 16)
  }

  /** Big-endian: the number is the value of its bytes by position, first byte highest. */
  lemma {:induction false} HighByteFirst(bytes: seq<Byte>)
    ensures Bytes32BEToBigint(bytes) == Value(ByteDigits(bytes), 256)
  {
    if bytes != [] {
      var n := |bytes| - 1;
      HighByteFirst(bytes[..n]);
      LastNibbles(bytes[..n], bytes[n]);
      assert bytes == bytes[..n] + [bytes[n]];
      assert ByteDigits(bytes) == ByteDigits(bytes[..n]) + [bytes[n] as nat];
      hide Nibbles, ByteDigits, Value;
      ValueLast(Nibbles(bytes[..n]), bytes[n] / 16, 16);
      ValueLast(Nibbles(bytes[..n]) + [bytes[n] / 16], bytes[n] % 16, 16);
      ValueLast(ByteDigits(bytes[..n]), bytes[n], 256);
    }
  }

  lemma LastNibbles(bytes: seq<Byte>, last: Byte)
    ensures Nibbles(bytes + [last]) == Nibbles(bytes) + [last / 16] + [last % 16]
  {
  }

  function ByteDigits(bytes: seq<Byte>): (ds: seq<nat>)
    ensures |ds| == |bytes|
  {
    seq(|bytes|, i requires 0 <= i < |bytes| => bytes[i] as nat)
  }

  /** Two lowercase digits a byte, the high half first. */
  lemma HexInPairs(bytes: seq<Byte>, i: nat)
    requires i < |bytes|
    ensures HexText(bytes)[2 * i] == "0123456789abcdef"[bytes[i] / 16]
    ensures HexText(bytes)[2 * i + 1] == "0123456789abcdef"[bytes[i] % 16]
  {
  }

  lemma BytesRoundTrip(bytes: seq<Byte>)
    requires |bytes| == 32
    ensures BigintToBytes32BE(Bytes32BEToBigint(bytes)) == bytes
  {
    var ds := Nibbles(bytes);
    var n := Value(ds, 16);
    ValueBelow(ds, 16);
    DigitsLength(n, 16, 64);
    var own := DigitsOf(n, 16);
    DigitsValue(n, 16);
    LeadingZeros(64 - |own|, own, 16);
    ValueInjective(PadStart(own, 64), ds, 16);
    PairedNibbles(bytes);
    assert PadStart(own, 64)[..64] == PadStart(own, 64);
  }

  /** A number survives exactly when it is below 2^256. */
  lemma BigintRoundTrip(value: nat)
    ensures Bytes32BEToBigint(BigintToBytes32BE(value)) == value <==> value < Pow(16, 64)
  {
    var own := DigitsOf(value, 16);
    var padded := PadStart(own, 64);
    DigitsLength(value, 16, 64);
    DigitsValue(value, 16);
    NibblesPaired(padded[..64]);
    ValueBelow(padded[..64], 16);
    if value < Pow(16, 64) {
      LeadingZeros(64 - |own|, own, 16);
      assert padded[..64] == padded;
    }
  }
}
