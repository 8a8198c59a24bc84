/** `encoding/hex`: lower-case hexadecimal rendering of bytes. */
module Hex {
  import opened Wrappers
  import opened Text

  /** The lower-case digit for a nibble. */
  function Digit(n: nat): (c: char)
    requires n < 16
    ensures IsLowerHex(c)
  {
    if n < 10 then ('0' as int + n) as char else ('a' as int + n - 10) as char
  }

  predicate IsLowerHex(c: char) {
    ('0' <= c <= '9') || ('a' <= c <= 'f')
  }

  function DigitValue(c: char): (v: nat)
    requires IsLowerHex(c)
    ensures v < 16 && Digit(v) == c
  {
    if c <= '9' then c as int - '0' as int else c as int - 'a' as int + 10
  }

  /** `hex.EncodeToString`: two digits per byte, high nibble first. */
  function Encode(b: seq<Byte>): (r: string)
    ensures |r| == 2 * |b|
    ensures forall i | 0 <= i < |r| :: IsLowerHex(r[i])
  {
    if b == [] then [] else [Digit(b[0] / 16), Digit(b[0] % 16)] + Encode(b[1..])
  }

  /** Reading digit pairs back into bytes; the reference the encoder is checked against. */
  function Decode(s: string): Option<seq<Byte>>
  {
    if s == [] then Some([])
    else if |s| >= 2 && IsLowerHex(s[0]) && IsLowerHex(s[1]) then
      match Decode(s[2..])
      case Some(rest) => Some([DigitValue(s[0]) * 16 + DigitValue(s[1])] + rest)
      case None => None
    else None
  }

  /** The rendering loses nothing: decoding it yields the bytes. */
  lemma {:induction false} DecodeEncode(b: seq<Byte>)
    ensures Decode(Encode(b)) == Some(b)
  {
    if b != [] {
      var s := Encode(b);
      assert s[2..] == Encode(b[1..]);
      DecodeEncode(b[1..]);
      assert DigitValue(s[0]) == b[0] / 16 && DigitValue(s[1]) == b[0] % 16;
      assert [b[0]] + b[1..] == b;
    }
  }
}
