/** UTF-16 encoding of a string as RFC 2781 section 2.1 describes it, and
    its little-endian byte serialisation without a byte order mark: the
    input the login hash is computed over. */
module Utf16 {
  import opened Wrappers
  import opened Text

  /** A 16-bit code unit. */
  type Unit = x: int | 0 <= x < 0x1_0000

  predicate IsHighSurrogate(u: int) { 0xD800 <= u < 0xDC00 }
  predicate IsLowSurrogate(u: int) { 0xDC00 <= u < 0xE000 }

  /** Whether `c` lies outside the Basic Multilingual Plane. */
  predicate IsSupplementary(c: char) { c as int >= 0x1_0000 }

  /** The code units of one Unicode scalar value: itself below U+10000,
      otherwise a high surrogate carrying the upper ten bits of `c - 0x10000`
      followed by a low surrogate carrying the lower ten. */
  function EncodeChar(c: char): (r: seq<Unit>)
    ensures |r| == if IsSupplementary(c) then 2 else 1
    ensures |r| == 1 ==> r[0] == c as int && !IsHighSurrogate(r[0]) && !IsLowSurrogate(r[0])
    ensures |r| == 2 ==> IsHighSurrogate(r[0]) && IsLowSurrogate(r[1])
    ensures |r| == 2 ==> 0x1_0000 + (r[0] as int - 0xD800) * 0x400 + (r[1] as int - 0xDC00) == c as int
  {
    var v := c as int;
    if v < 0x1_0000 then [v]
    else
      var w := v - 0x1_0000;
      [0xD800 + w / 0x400, 0xDC00 + w % 0x400]
  }

  /** The code units of a string, character after character. */
  function Encode(s: string): seq<Unit> {
    if s == [] then [] else EncodeChar(s[0]) + Encode(s[1..])
  }

  /** The number of characters of `s` that need a surrogate pair. */
  function SupplementaryCount(s: string): nat {
    if s == [] then 0 else (if IsSupplementary(s[0]) then 1 else 0) + SupplementaryCount(s[1..])
  }

  /** One code unit per character, plus one more for every surrogate pair. */
  lemma {:induction false} EncodeLength(s: string)
    ensures |Encode(s)| == |s| + SupplementaryCount(s)
  {
    if s != [] {
      EncodeLength(s[1..]);
    }
  }

  /** Encoding distributes over concatenation. */
  lemma {:induction false} EncodeAppend(s: string, t: string)
    ensures Encode(s + t) == Encode(s) + Encode(t)
  {
    if s == [] {
      assert s + t == t;
    } else {
      assert (s + t)[1..] == s[1..] + t;
      EncodeAppend(s[1..], t);
    }
  }

  /** RFC 2781 section 2.2 decoding: the reference the encoder is checked against.
      An unpaired surrogate makes the sequence undecodable. */
  function DecodeUnits(u: seq<Unit>): Option<string>
    decreases |u|
  {
    if u == [] then Some([])
    else if !IsHighSurrogate(u[0]) && !IsLowSurrogate(u[0]) then
      match DecodeUnits(u[1..])
      case Some(rest) => Some([u[0] as char] + rest)
      case None => None
    else if IsHighSurrogate(u[0]) && |u| >= 2 && IsLowSurrogate(u[1]) then
      match DecodeUnits(u[2..])
      case Some(rest) => Some([(0x1_0000 + (u[0] as int - 0xD800) * 0x400 + (u[1] as int - 0xDC00)) as char] + rest)
      case None => None
    else None
  }

  /** Decoding the encoding gives back the string: the encoder loses nothing. */
  lemma {:induction false} DecodeEncode(s: string)
    ensures DecodeUnits(Encode(s)) == Some(s)
  {
    if s != [] {
      var head := EncodeChar(s[0]);
      var u := Encode(s);
      assert u == head + Encode(s[1..]);
      DecodeEncode(s[1..]);
      if |head| == 1 {
        assert u[1..] == Encode(s[1..]);
        assert u[0] == head[0] && u[0] as char == s[0];
        assert DecodeUnits(u) == Some([u[0] as char] + s[1..]);
        assert [s[0]] + s[1..] == s;
      } else {
        assert u[2..] == Encode(s[1..]);
        assert u[0] == head[0] && u[1] == head[1];
        assert (0x1_0000 + (u[0] as int - 0xD800) * 0x400 + (u[1] as int - 0xDC00)) as char == s[0];
        assert DecodeUnits(u) == Some([s[0]] + s[1..]);
        assert [s[0]] + s[1..] == s;
      }
    }
  }

  /** Each code unit becomes its low byte followed by its high byte. */
  function LittleEndian(u: seq<Unit>): (r: seq<Byte>)
    ensures |r| == 2 * |u|
  {
    if u == [] then [] else [u[0] % 0x100, u[0] / 0x100] + LittleEndian(u[1..])
  }

  /** Byte `2*i` of the serialisation is the low byte of unit `i`, byte `2*i+1` its high byte. */
  lemma {:induction false} LittleEndianAt(u: seq<Unit>, i: nat)
    requires i < |u|
    ensures LittleEndian(u)[2 * i] == u[i] % 0x100
    ensures LittleEndian(u)[2 * i + 1] == u[i] / 0x100
  {
    if i > 0 {
      LittleEndianAt(u[1..], i - 1);
    }
  }

  /** Reading byte pairs back as little-endian units. */
  function FromLittleEndian(b: seq<Byte>): seq<Unit>
    requires |b| % 2 == 0
  {
    if b == [] then [] else [b[0] as int + 0x100 * (b[1] as int)] + FromLittleEndian(b[2..])
  }

  lemma {:induction false} FromLittleEndianInverse(u: seq<Unit>)
    ensures FromLittleEndian(LittleEndian(u)) == u
  {
    if u != [] {
      var b := LittleEndian(u);
      assert b[2..] == LittleEndian(u[1..]);
      FromLittleEndianInverse(u[1..]);
    }
  }

  /** The bytes the login hash consumes: UTF-16LE, no byte order mark. */
  function EncodeLE(s: string): (r: seq<Byte>)
    ensures |r| == 2 * (|s| + SupplementaryCount(s))
  {
    EncodeLength(s);
    LittleEndian(Encode(s))
  }

  /** UTF-16LE bytes determine the string: decoding them gives back exactly
      `s`, so nothing (in particular no byte order mark U+FEFF) is put in front. */
  lemma EncodeLERoundTrip(s: string)
    ensures DecodeUnits(FromLittleEndian(EncodeLE(s))) == Some(s)
  {
    FromLittleEndianInverse(Encode(s));
    DecodeEncode(s);
  }
}
