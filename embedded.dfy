/** `decodeEmbeddedJson` of api/client.go: find the first line of a response
    body that carries a JSON value between a prefix and a suffix, and decode it. */
module Embedded {
  import opened Wrappers
  import opened Text

  /** The scanner's buffer: 256 KiB, allocated at full size so it never grows. */
  const MaxLine := 256 * 1024

  const NotFound := "could not find embedded json"

  /** The number of bytes of the UTF-8 encoding of `s`. */
  function Utf8Length(s: string): nat {
    if s == [] then 0
    else
      var c := s[0] as int;
      (if c < 0x80 then 1 else if c < 0x800 then 2 else if c < 0x1_0000 then 3 else 4) + Utf8Length(s[1..])
  }

  /** Every character takes one to four bytes. */
  lemma {:induction false} Utf8LengthBounds(s: string)
    ensures |s| <= Utf8Length(s) <= 4 * |s|
  {
    if s != [] {
      Utf8LengthBounds(s[1..]);
    }
  }

  /** Whether the scanner can return `line`: the line and its newline fit in the buffer.
      A longer line makes `Scan` report false, which ends the loop. */
  predicate Fits(line: string) {
    Utf8Length(line) < MaxLine
  }

  predicate Matches(line: string, prefix: string, suffix: string) {
    HasPrefix(line, prefix) && HasSuffix(line, suffix)
  }

  /** Every line of `ls` fits the buffer. */
  predicate AllFit(ls: seq<string>) {
    forall k | 0 <= k < |ls| :: Fits(ls[k])
  }

  /** Where the scan stops: at the line with this index, which matches, or
      without a match (the body is used up, or a line is too long). */
  datatype Stop = Hit(index: nat) | Exhausted

  function FirstHit(lines: seq<string>, prefix: string, suffix: string): (r: Stop)
    ensures r.Hit? ==> r.index < |lines| && Fits(lines[r.index]) && Matches(lines[r.index], prefix, suffix)
    ensures r.Hit? ==> forall j | 0 <= j < r.index :: Fits(lines[j]) && !Matches(lines[j], prefix, suffix)
    ensures r.Exhausted? ==> forall j | 0 <= j < |lines| && Matches(lines[j], prefix, suffix) ::
                               !AllFit(lines[..j + 1])
  {
    if lines == [] then Exhausted
    else if !Fits(lines[0]) then Exhausted
    else if Matches(lines[0], prefix, suffix) then Hit(0)
    else match FirstHit(lines[1..], prefix, suffix)
      case Hit(i) => Hit(i + 1)
      case Exhausted =>
        assert forall j | 1 <= j < |lines| :: lines[j] == lines[1..][j - 1] && lines[1..][..j] == lines[1..j + 1];
        Exhausted
  }

  /** The outcome of a run: the function returns, or the slice expression
      `line[len(prefix) : len(line)-len(suffix)]` panics because prefix and
      suffix overlap in a line shorter than both together. */
  datatype Run<T> = Returns(result: Result<T>) | Panics

  /** The text between prefix and suffix: put back together, it is the line. */
  function Interior(line: string, prefix: string, suffix: string): (r: string)
    requires Matches(line, prefix, suffix) && |prefix| + |suffix| <= |line|
    ensures prefix + r + suffix == line
  {
    var r := line[|prefix|..|line| - |suffix|];
    assert line == line[..|prefix|] + r + line[|line| - |suffix|..];
    r
  }

  /** What happens with the matching line. */
  function Handle<T>(line: string, prefix: string, suffix: string, decode: string -> Decoded<T>): (r: Run<T>)
    requires Matches(line, prefix, suffix)
    // the slice panics exactly when the markers do not fit in the line
    ensures r.Panics? <==> |line| < |prefix| + |suffix|
    // otherwise the decoder's verdict on the interior is returned
    ensures r.Returns? ==> (r.result.Ok? <==> decode(Interior(line, prefix, suffix)).Parsed?)
    // and a decoder error is passed on as it is
    ensures r.Returns? && decode(Interior(line, prefix, suffix)).Malformed? ==>
              r == Returns(Err(Decode(decode(Interior(line, prefix, suffix)).detail)))
  {
    if |line| < |prefix| + |suffix| then Panics
    else match decode(Interior(line, prefix, suffix))
      case Parsed(v) => Returns(Ok(v))
      case Malformed(detail) => Returns(Err(Decode(detail)))
  }

  /** The meaning of `decodeEmbeddedJson` on a body split into lines. */
  function Extract<T>(lines: seq<string>, prefix: string, suffix: string, decode: string -> Decoded<T>): (r: Run<T>)
    // only the slice of a hit line shorter than both markers panics
    ensures r.Panics? ==> var h := FirstHit(lines, prefix, suffix);
                          h.Hit? && |lines[h.index]| < |prefix| + |suffix|
    // a value comes from decoding the interior of the first hit line
    ensures r.Returns? && r.result.Ok? ==>
              var h := FirstHit(lines, prefix, suffix);
              && h.Hit? && |prefix| + |suffix| <= |lines[h.index]|
              && decode(Interior(lines[h.index], prefix, suffix)) == Parsed(r.result.value)
  {
    match FirstHit(lines, prefix, suffix)
    case Hit(i) => Handle(lines[i], prefix, suffix, decode)
    case Exhausted => Returns(Err(Failure(NotFound)))
  }

  /** `decodeEmbeddedJson`: the `for scanner.Scan()` loop, with `decode` for `json.Unmarshal`. */
  method DecodeEmbeddedJson<T>(lines: seq<string>, prefix: string, suffix: string, decode: string -> Decoded<T>)
    returns (r: Run<T>)
    ensures r == Extract(lines, prefix, suffix, decode)
  {
    var i := 0;
    while i < |lines|
      invariant 0 <= i <= |lines|
      invariant forall j | 0 <= j < i :: Fits(lines[j]) && !Matches(lines[j], prefix, suffix)
    {
      var line := lines[i];
      if !Fits(line) {
        break;
      }
      if HasPrefix(line, prefix) && HasSuffix(line, suffix) {
        if |line| < |prefix| + |suffix| {
          return Panics;
        }
        var interior := line[|prefix|..|line| - |suffix|];
        match decode(interior)
        case Parsed(v) =>
          return Returns(Ok(v));
        case Malformed(detail) =>
          return Returns(Err(Decode(detail)));
      }
      i := i + 1;
    }
    return Returns(Err(Failure(NotFound)));
  }

  /** "Not found" and "malformed" are told apart: the first means no line was
      reached that matches, the second that a matching line did not decode. */
  lemma NotFoundOrMalformed<T>(lines: seq<string>, prefix: string, suffix: string, decode: string -> Decoded<T>)
    ensures Extract(lines, prefix, suffix, decode) == Returns(Err(Failure(NotFound)))
            <==> FirstHit(lines, prefix, suffix).Exhausted?
    ensures Extract(lines, prefix, suffix, decode).Returns? && Extract(lines, prefix, suffix, decode).result.Err?
            && Extract(lines, prefix, suffix, decode).result.error.Decode?
            <==> FirstHit(lines, prefix, suffix).Hit?
                 && var line := lines[FirstHit(lines, prefix, suffix).index];
                    |prefix| + |suffix| <= |line| && decode(Interior(line, prefix, suffix)).Malformed?
    ensures var h := FirstHit(lines, prefix, suffix);
            h.Hit? && |prefix| + |suffix| <= |lines[h.index]|
            && decode(Interior(lines[h.index], prefix, suffix)).Malformed? ==>
              Extract(lines, prefix, suffix, decode)
              == Returns(Err(Decode(decode(Interior(lines[h.index], prefix, suffix)).detail)))
  {
  }

  /** The scan returns at the first matching line: whatever lines follow it are never looked at. */
  lemma LaterLinesIgnored<T>(lines: seq<string>, rest: seq<string>, prefix: string, suffix: string,
                                               decode: string -> Decoded<T>)
    requires FirstHit(lines, prefix, suffix).Hit?
    ensures Extract(lines + rest, prefix, suffix, decode) == Extract(lines, prefix, suffix, decode)
  {
    SameHit(lines, rest, prefix, suffix);
  }

  /** The scan stops at the first line that fits and matches, provided every
      line before it fits. */
  lemma {:induction false} HitAt(lines: seq<string>, i: nat, prefix: string, suffix: string)
    requires i < |lines| && Fits(lines[i]) && Matches(lines[i], prefix, suffix)
    requires forall j | 0 <= j < i :: Fits(lines[j]) && !Matches(lines[j], prefix, suffix)
    ensures FirstHit(lines, prefix, suffix) == Hit(i)
  {
    if i > 0 {
      var tail := lines[1..];
      assert forall j | 0 <= j < i - 1 :: tail[j] == lines[j + 1];
      assert tail[i - 1] == lines[i];
      assert Fits(lines[0]) && !Matches(lines[0], prefix, suffix);
      HitAt(tail, i - 1, prefix, suffix);
    }
  }

  /** A hit stays the hit when more lines follow. */
  lemma SameHit(lines: seq<string>, rest: seq<string>, prefix: string, suffix: string)
    requires FirstHit(lines, prefix, suffix).Hit?
    ensures FirstHit(lines + rest, prefix, suffix) == FirstHit(lines, prefix, suffix)
  {
    var all := lines + rest;
    var i := FirstHit(lines, prefix, suffix).index;
    assert forall j | 0 <= j <= i :: all[j] == lines[j];
    HitAt(all, i, prefix, suffix);
  }

  /** A line too long for the buffer ends the scan: if no earlier line
      matched, the result is "not found" whatever comes after. */
  lemma {:induction false} OverlongLineEndsScan<T>(lines: seq<string>, j: nat, prefix: string, suffix: string,
                                                  decode: string -> Decoded<T>)
    requires j < |lines| && !Fits(lines[j])
    requires forall k | 0 <= k < j :: !Matches(lines[k], prefix, suffix)
    ensures Extract(lines, prefix, suffix, decode) == Returns(Err(Failure(NotFound)))
  {
    match FirstHit(lines, prefix, suffix)
    case Hit(i) =>
      assert i < j || i == j || i > j;
    case Exhausted =>
  }

  /** No non-empty end of `prefix` is a beginning of `suffix`. */
  predicate Disjoint(prefix: string, suffix: string) {
    forall k | 0 < k <= |prefix| && k <= |suffix| :: prefix[|prefix| - k..] != suffix[..k]
  }

  /** A line with both markers that is shorter than the two together makes
      the prefix end in what the suffix begins with. */
  lemma OverlapShared(line: string, prefix: string, suffix: string)
    requires Matches(line, prefix, suffix) && |line| < |prefix| + |suffix|
    ensures var k := |prefix| + |suffix| - |line|;
            0 < k <= |prefix| && k <= |suffix| && prefix[|prefix| - k..] == suffix[..k]
  {
    var k := |prefix| + |suffix| - |line|;
    var start := |line| - |suffix|;
    assert prefix[|prefix| - k..] == line[start..|prefix|];
    assert suffix[..k] == line[start..start + k];
  }

  /** With disjoint markers the slice never panics. */
  lemma NeverPanics<T>(lines: seq<string>, prefix: string, suffix: string, decode: string -> Decoded<T>)
    requires Disjoint(prefix, suffix)
    ensures Extract(lines, prefix, suffix, decode).Returns?
  {
    match FirstHit(lines, prefix, suffix)
    case Hit(i) =>
      if |lines[i]| < |prefix| + |suffix| {
        OverlapShared(lines[i], prefix, suffix);
      }
    case Exhausted =>
  }

  /** The panic is real for a generic prefix and suffix: "ab" and "ba" in the line "aba". */
  lemma OverlapPanics<T>(decode: string -> Decoded<T>)
    ensures Extract(["aba"], "ab", "ba", decode) == Panics
  {
    assert Utf8Length("aba") == 3;
    assert Matches("aba", "ab", "ba");
  }
}
