/** The helpers of api/util.go: the login hash, the text of an HTML node,
    and the verdict drawn from the page the router returns after a
    certificate upload. */
module Util {
  import opened Wrappers
  import opened Text
  import Utf16
  import Hex

  // ---------------------------------------------------------------------
  // challengeResponse

  /** An MD5 digest (RFC 1321) is sixteen bytes. */
  type Digest = d: seq<Byte> | |d| == 16
    witness [0, 0, 0, 0, 0, 0, 0, 0, 0, 0, 0, 0, 0, 0, 0, 0]

  /** The MD5 function itself is not modelled: callers supply it. */
  type Md5 = seq<Byte> -> Digest

  /** The bytes that are hashed: `challenge + "-" + password` in UTF-16LE, without a byte order mark. */
  function HashInput(challenge: string, password: string): (b: seq<Byte>)
    ensures |b| == 2 * |Utf16.Encode(challenge + "-" + password)|
    ensures Utf16.DecodeUnits(Utf16.FromLittleEndian(b)) == Some(challenge + "-" + password)
  {
    Utf16.EncodeLength(challenge + "-" + password);
    Utf16.EncodeLERoundTrip(challenge + "-" + password);
    Utf16.EncodeLE(challenge + "-" + password)
  }

  /** `challengeResponse`: 32 lower-case hexadecimal digits that spell out the
      digest of the hash input. */
  function ChallengeResponse(challenge: string, password: string, md5: Md5): (r: string)
    ensures |r| == 32
    ensures forall i | 0 <= i < |r| :: Hex.IsLowerHex(r[i])
    ensures var digest: seq<Byte> := md5(HashInput(challenge, password)); Hex.Decode(r) == Some(digest)
  {
    var digest := md5(HashInput(challenge, password));
    Hex.DecodeEncode(digest);
    Hex.Encode(digest)
  }

  // ---------------------------------------------------------------------
  // innerText

  /** The node types of golang.org/x/net/html. */
  datatype NodeType = ErrorNode | TextNode | DocumentNode | ElementNode | CommentNode | DoctypeNode | RawNode

  /** An HTML node with its children in sibling order (`FirstChild`, `NextSibling`, ...). */
  datatype Node = Node(kind: NodeType, data: string, children: seq<Node>)

  /** Concatenation of a sequence of strings, in order. */
  function Concat(ss: seq<string>): string {
    if ss == [] then "" else ss[0] + Concat(ss[1..])
  }

  lemma {:induction false} ConcatAppend(a: seq<string>, b: seq<string>)
    ensures Concat(a + b) == Concat(a) + Concat(b)
  {
    if a == [] {
      assert a + b == b;
    } else {
      assert (a + b)[1..] == a[1..] + b;
      ConcatAppend(a[1..], b);
    }
  }

  /** `innerText`: a text node's data; for any other node the text of its
      children, one after the other. */
  function InnerText(n: Node): string {
    if n.kind == TextNode then n.data else SiblingsText(n.children)
  }

  /** The loop over `FirstChild` ... `NextSibling` in `innerText`. */
  function SiblingsText(cs: seq<Node>): string {
    if cs == [] then "" else InnerText(cs[0]) + SiblingsText(cs[1..])
  }

  /** A node that is not text and has no children has no text. */
  lemma ChildlessInnerText(n: Node)
    requires n.kind != TextNode && n.children == []
    ensures InnerText(n) == ""
  {
  }

  /** The nodes of a tree in document order (pre-order). */
  function Nodes(n: Node): seq<Node> {
    [n] + FlatNodes(n.children)
  }

  function FlatNodes(cs: seq<Node>): seq<Node>
    decreases cs
  {
    if cs == [] then [] else Nodes(cs[0]) + FlatNodes(cs[1..])
  }

  /** The data of the text nodes of `ns`, in order. */
  function TextData(ns: seq<Node>): seq<string> {
    if ns == [] then []
    else (if ns[0].kind == TextNode then [ns[0].data] else []) + TextData(ns[1..])
  }

  lemma {:induction false} TextDataAppend(a: seq<Node>, b: seq<Node>)
    ensures TextData(a + b) == TextData(a) + TextData(b)
  {
    if a == [] {
      assert a + b == b;
    } else {
      assert (a + b)[1..] == a[1..] + b;
      TextDataAppend(a[1..], b);
    }
  }

  /** As the HTML parser builds trees: text nodes have no children. */
  predicate WellFormed(n: Node) {
    (n.kind == TextNode ==> n.children == []) &&
    forall i | 0 <= i < |n.children| :: WellFormed(n.children[i])
  }

  /** The text of a well-formed tree is the data of all its text nodes,
      concatenated in document order. */
  lemma {:induction false} InnerTextIsTextInDocumentOrder(n: Node)
    requires WellFormed(n)
    ensures InnerText(n) == Concat(TextData(Nodes(n)))
  {
    if n.kind == TextNode {
      assert FlatNodes(n.children) == [];
      assert TextData(Nodes(n)) == [n.data] + TextData([]);
      assert Concat([n.data]) == n.data + Concat([]);
    } else {
      assert TextData(Nodes(n)) == TextData(FlatNodes(n.children)) by {
        assert Nodes(n)[1..] == FlatNodes(n.children);
      }
      SiblingsTextIsTextInDocumentOrder(n.children);
    }
  }

  lemma {:induction false} SiblingsTextIsTextInDocumentOrder(cs: seq<Node>)
    requires forall i | 0 <= i < |cs| :: WellFormed(cs[i])
    ensures SiblingsText(cs) == Concat(TextData(FlatNodes(cs)))
  {
    if cs != [] {
      InnerTextIsTextInDocumentOrder(cs[0]);
      SiblingsTextIsTextInDocumentOrder(cs[1..]);
      TextDataAppend(Nodes(cs[0]), FlatNodes(cs[1..]));
      ConcatAppend(TextData(Nodes(cs[0])), TextData(FlatNodes(cs[1..])));
    }
  }

  // ---------------------------------------------------------------------
  // jsFunctionSelector: postUpload\.redirect\(([0-9]*)\);

  const RedirectCall := "postUpload.redirect("
  const CallEnd := ");"

  predicate AllDigits(s: string) {
    forall i | 0 <= i < |s| :: IsDigit(s[i])
  }

  /** The length of the run of ASCII digits at the start of `s`. */
  function DigitRun(s: string): (n: nat)
    ensures n <= |s| && AllDigits(s[..n])
    ensures n < |s| ==> !IsDigit(s[n])
  {
    if s != [] && IsDigit(s[0]) then 1 + DigitRun(s[1..]) else 0
  }

  /** What the pattern means: at position `p` of `s` stands
      `postUpload.redirect(`, then the digits `d`, then `);`. */
  predicate IsMatch(s: string, p: nat, d: string) {
    p <= |s| && AllDigits(d) && HasPrefix(s[p..], RedirectCall + d + CallEnd)
  }

  /** The greedy match attempted at position `p`: the literal, then the
      longest digit run, then `);`. */
  function MatchAt(s: string, p: nat): (r: Option<string>)
    requires p <= |s|
    ensures r.Some? ==> AllDigits(r.value) && p + |RedirectCall| + |r.value| + |CallEnd| <= |s|
  {
    var t := s[p..];
    if HasPrefix(t, RedirectCall) then
      var rest := t[|RedirectCall|..];
      var n := DigitRun(rest);
      if HasPrefix(rest[n..], CallEnd) then Some(rest[..n]) else None
    else None
  }

  /** A prefix made of two parts is the first part, then the second after it. */
  lemma PrefixConcat(t: string, a: string, b: string)
    ensures HasPrefix(t, a + b) <==> HasPrefix(t, a) && HasPrefix(t[|a|..], b)
  {
    if HasPrefix(t, a) && HasPrefix(t[|a|..], b) {
      assert t[..|a + b|] == t[..|a|] + t[|a|..][..|b|];
    }
    if HasPrefix(t, a + b) {
      assert t[..|a|] == (a + b)[..|a|];
      assert t[|a|..][..|b|] == (a + b)[|a|..];
    }
  }

  /** Because `)` is not a digit, the greedy attempt finds exactly the
      matches there are: at a given position the capture is unique. */
  lemma MatchAtIsMatch(s: string, p: nat, d: string)
    requires p <= |s|
    ensures MatchAt(s, p) == Some(d) <==> IsMatch(s, p, d)
  {
    var t := s[p..];
    PrefixConcat(t, RedirectCall + d, CallEnd);
    PrefixConcat(t, RedirectCall, d);
    if HasPrefix(t, RedirectCall) {
      var rest := t[|RedirectCall|..];
      assert (RedirectCall + d)[|RedirectCall|..] == d;
      if |d| <= |rest| {
        assert t[|RedirectCall + d|..] == rest[|d|..];
      }
      if IsMatch(s, p, d) {
        assert rest[..|d|] == d;
        assert rest[|d|..][0] == ')';
        DigitRunOfDigits(rest, |d|);
      }
    }
  }

  /** A run of `n` digits followed by a non-digit is the whole digit run. */
  lemma {:induction false} DigitRunOfDigits(s: string, n: nat)
    requires n < |s| && AllDigits(s[..n]) && !IsDigit(s[n])
    ensures DigitRun(s) == n
  {
    if n > 0 {
      assert s[1..][..n - 1] == s[1..n];
      DigitRunOfDigits(s[1..], n - 1);
    }
  }

  /** The leftmost position from `p` on where the greedy attempt succeeds. */
  function FindFrom(s: string, p: nat): (r: Option<nat>)
    requires p <= |s|
    ensures r.Some? ==> p <= r.value <= |s| && MatchAt(s, r.value).Some?
    ensures r.Some? ==> forall k | p <= k < r.value :: MatchAt(s, k).None?
    ensures r.None? ==> forall k | p <= k <= |s| :: MatchAt(s, k).None?
    decreases |s| - p
  {
    if MatchAt(s, p).Some? then Some(p)
    else if p == |s| then None
    else FindFrom(s, p + 1)
  }

  /** `jsFunctionSelector.FindStringSubmatch(script)[1]`: the capture of the
      leftmost match, or none when the pattern does not occur. */
  function FindRedirect(script: string): (r: Option<string>)
    ensures r.Some? ==> AllDigits(r.value) && |RedirectCall| + |r.value| + |CallEnd| <= |script|
  {
    match FindFrom(script, 0)
    case Some(p) => MatchAt(script, p)
    case None => None
  }

  /** A capture comes from a match at some position, and no earlier position matches at all. */
  lemma FindRedirectLeftmost(script: string, d: string)
    requires FindRedirect(script) == Some(d)
    ensures exists p | 0 <= p <= |script| ::
              IsMatch(script, p, d) && forall q, e | 0 <= q < p :: !IsMatch(script, q, e)
  {
    var p := FindFrom(script, 0).value;
    MatchAtIsMatch(script, p, d);
    forall q, e | 0 <= q < p
      ensures !IsMatch(script, q, e)
    {
      MatchAtIsMatch(script, q, e);
    }
  }

  /** Conversely the leftmost match is the one found, whatever follows it. */
  lemma LeftmostIsFound(script: string, p: nat, d: string)
    requires IsMatch(script, p, d)
    requires forall q, e | 0 <= q < p :: !IsMatch(script, q, e)
    ensures FindRedirect(script) == Some(d)
  {
    MatchAtIsMatch(script, p, d);
    var f := FindFrom(script, 0).value;
    MatchAtIsMatch(script, f, MatchAt(script, f).value);
  }

  /** No capture means no position of the script matches the pattern. */
  lemma FindRedirectNone(script: string, p: nat, d: string)
    requires FindRedirect(script).None? && p <= |script|
    ensures !IsMatch(script, p, d)
  {
    MatchAtIsMatch(script, p, d);
  }

  /** A delay of zero seconds is still a captured, non-empty delay, and an
      empty argument list captures the empty delay. */
  lemma RedirectExamples()
    ensures FindRedirect("postUpload.redirect(0);") == Some("0")
    ensures FindRedirect("postUpload.redirect();") == Some("")
  {
    LeftmostIsFound("postUpload.redirect(0);", 0, "0");
    LeftmostIsFound("postUpload.redirect();", 0, "");
  }

  /** At the call itself the argument `x` stops the digit run before `);`. */
  lemma NoDigitArgument()
    ensures MatchAt("postUpload.redirect(x);", 0) == None
  {
    var s := "postUpload.redirect(x);";
    assert s == RedirectCall + "x" + CallEnd;
    assert s[0..][..|RedirectCall|] == RedirectCall;
    var rest := s[0..][|RedirectCall|..];
    assert rest == "x" + CallEnd;
    assert DigitRun(rest) == 0;
    assert rest[0..][..|CallEnd|] != CallEnd by {
      assert rest[0..][..|CallEnd|][0] == 'x';
    }
  }

  /** After the first character `postUpload.redirect(` cannot start again. */
  lemma NoLaterCall(p: nat)
    requires 0 < p <= |"postUpload.redirect(x);"|
    ensures MatchAt("postUpload.redirect(x);", p) == None
  {
    var s := "postUpload.redirect(x);";
    assert s == RedirectCall + "x" + CallEnd;
    var t := s[p..];
    if |RedirectCall| <= |t| {
      assert p < 4;
      assert t[..|RedirectCall|][0] == s[p] == RedirectCall[p];
      assert RedirectCall[p] != RedirectCall[0];
    }
  }

  /** A delay that is not a run of digits does not match at all. */
  lemma RedirectNonDigit()
    ensures FindRedirect("postUpload.redirect(x);") == None
  {
    var s := "postUpload.redirect(x);";
    NoDigitArgument();
    forall p | 0 < p <= |s|
      ensures MatchAt(s, p) == None
    {
      NoLaterCall(p);
    }
  }

  // ---------------------------------------------------------------------
  // parseUpdateResponse

  const MessageMissing := "unable to find update message in document"
  const ScriptMissing := "unable to find post-update JS in document"
  const ScriptUnparsable := "unable to parse post-update JS"
  const UpdateFailedPrefix := "failed to update TLS certificate: "

  /** `parseUpdateResponse` on the parsed document. `messageQuery` and
      `scriptQuery` stand for `cascadia.Query` with the selectors
      `form[name=mainform] > p` and `script[type=module]`: the first matching
      node, if any. */
  function ParseUpdateResponse(document: Decoded<Node>, messageQuery: Node -> Option<Node>,
                               scriptQuery: Node -> Option<Node>): (r: Result<string>)
    // the parser's error is returned as it is
    ensures document.Malformed? ==> r == Err(Decode(document.detail))
    // the message is looked for before the script
    ensures document.Parsed? && messageQuery(document.value).None? ==> r == Err(Failure(MessageMissing))
    ensures document.Parsed? && messageQuery(document.value).Some? && scriptQuery(document.value).None?
            ==> r == Err(Failure(ScriptMissing))
    ensures document.Parsed? && messageQuery(document.value).Some? && scriptQuery(document.value).Some?
            ==> var message := TrimSpace(InnerText(messageQuery(document.value).value));
                match FindRedirect(InnerText(scriptQuery(document.value).value))
                case None => r == Err(Failure(ScriptUnparsable))
                case Some(delay) =>
                  // a non-empty delay, "0" included, is a failure that carries the message
                  if delay != "" then r == Err(Failure(UpdateFailedPrefix + message))
                  else r == Ok(message)
    // the message returned has no white space at either end
    ensures r.Ok? ==> Trimmed(r.value)
  {
    match document
    case Malformed(detail) => Err(Decode(detail))
    case Parsed(root) =>
      match messageQuery(root)
      case None => Err(Failure(MessageMissing))
      case Some(messageNode) =>
        var message := TrimSpace(InnerText(messageNode));
        match scriptQuery(root)
        case None => Err(Failure(ScriptMissing))
        case Some(scriptNode) =>
          match FindRedirect(InnerText(scriptNode))
          case None => Err(Failure(ScriptUnparsable))
          case Some(delay) =>
            if delay != "" then Err(Failure(UpdateFailedPrefix + message))
            else Ok(message)
  }

  /** An upload succeeds exactly when the leftmost redirect call in the script
      has no argument; then the result is the trimmed message text. */
  lemma UpdateSucceedsIff(root: Node, message: Node, script: Node)
    ensures var r := ParseUpdateResponse(Parsed(root), _ => Some(message), _ => Some(script));
            r.Ok? <==> FindRedirect(InnerText(script)) == Some("")
    ensures var r := ParseUpdateResponse(Parsed(root), _ => Some(message), _ => Some(script));
            r.Ok? ==> r.value == TrimSpace(InnerText(message))
  {
  }
}
