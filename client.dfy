/** The operations of api/client.go over the router's responses: the
    challenge-response login, the two embedded-JSON endpoints, and the
    enable/disable requests for a SIP line and how their replies are read. */
module Client {
  import opened Wrappers
  import opened Text
  import opened Types
  import Util
  import Hex
  import Embedded

  // ---------------------------------------------------------------------
  // Login

  /** A request to `/login_sid.lua`: the bare one that fetches a challenge,
      or the one that answers it. */
  datatype SessionQuery = Initial | Respond(sid: string, username: string, response: string)

  /** `login_sid.lua` as the client sees it: the decoded XML reply to a query,
      or the transport or decoder error. */
  type SessionEndpoint = SessionQuery -> Result<SessionInfo>

  /** The `response` parameter: `<challenge>-<32 hex digits>`. */
  function LoginResponse(challenge: string, password: string, md5: Util.Md5): (r: string)
    ensures |r| == |challenge| + 33
    ensures r[..|challenge|] == challenge && r[|challenge|] == '-'
    ensures r[|challenge| + 1..] == Util.ChallengeResponse(challenge, password, md5)
  {
    challenge + "-" + Util.ChallengeResponse(challenge, password, md5)
  }

  /** What the router reads back out of a response: the challenge and the digest. */
  function SplitResponse(r: string): (string, Option<seq<Byte>>)
    requires |r| >= 33
  {
    (r[..|r| - 33], Hex.Decode(r[|r| - 32..]))
  }

  /** The response carries the challenge unchanged and the digest of the hash input. */
  lemma LoginResponseSplits(challenge: string, password: string, md5: Util.Md5)
    ensures var digest: seq<Byte> := md5(Util.HashInput(challenge, password));
            SplitResponse(LoginResponse(challenge, password, md5)) == (challenge, Some(digest))
  {
  }

  /** The sentinel check of `challengeResponseLogin`, applied to the decoded
      reply: the all-zero id means the login was refused. */
  function CheckSession(reply: Result<SessionInfo>): (r: Result<SessionInfo>)
    ensures reply.Err? ==> r == reply
    ensures reply.Ok? && reply.value.sid == ZeroSid ==> r == Err(Failure("login failed"))
    ensures reply.Ok? && reply.value.sid != ZeroSid ==> r == reply
    ensures r.Ok? ==> r.value.sid != ZeroSid
  {
    match reply
    case Err(e) => Err(e)
    case Ok(info) => if info.sid == ZeroSid then Err(Failure("login failed")) else Ok(info)
  }

  /** The second request of `Login`: it answers the first reply's challenge
      and passes on the first reply's session id. */
  function AnswerQuery(first: SessionInfo, username: string, password: string, md5: Util.Md5): (q: SessionQuery)
    ensures q.Respond? && q.sid == first.sid && q.username == username
    ensures q.response == LoginResponse(first.challenge, password, md5)
  {
    Respond(first.sid, username, LoginResponse(first.challenge, password, md5))
  }

  /** `Login`: fetch a challenge, answer it, check the session id. */
  function Login(username: string, password: string, endpoint: SessionEndpoint, md5: Util.Md5): (r: Result<SessionInfo>)
    ensures endpoint(Initial).Err? ==> r == endpoint(Initial)
    ensures r.Ok? ==> r.value.sid != ZeroSid
  {
    match endpoint(Initial)
    case Err(e) => Err(e)
    case Ok(first) => CheckSession(endpoint(AnswerQuery(first, username, password, md5)))
  }

  /** A login succeeds exactly when both requests do and the second reply's
      id is not the sentinel; it then returns that reply unchanged. */
  lemma LoginOutcome(username: string, password: string, endpoint: SessionEndpoint, md5: Util.Md5)
    ensures endpoint(Initial).Err? ==> Login(username, password, endpoint, md5) == endpoint(Initial)
    ensures endpoint(Initial).Ok? ==>
              var second := endpoint(AnswerQuery(endpoint(Initial).value, username, password, md5));
              && (Login(username, password, endpoint, md5).Ok? <==> second.Ok? && second.value.sid != ZeroSid)
              && (Login(username, password, endpoint, md5).Ok? ==> Login(username, password, endpoint, md5) == second)
              && (second.Err? ==> Login(username, password, endpoint, md5) == second)
              && (second.Ok? && second.value.sid == ZeroSid ==>
                    Login(username, password, endpoint, md5) == Err(Failure("login failed")))
    ensures Login(username, password, endpoint, md5).Ok? ==> Login(username, password, endpoint, md5).value.sid != ZeroSid
  {
  }

  // ---------------------------------------------------------------------
  // The endpoints that embed JSON in a script

  datatype SipAccount = SipAccount(username: string, password: string)

  /** The fields of a phone number that the client reads. */
  datatype PhoneNumber = PhoneNumber(uid: string, kind: string, number: string, providerId: string,
                                     areaCode: string, localNumber: string, sip: SipAccount)

  const ListPrefix := "var gFonNums = "
  const ListSuffix := ";"
  const DetailPrefix := "const g_fondata = ["
  const DetailSuffix := "];"

  /** `var gFonNums = ` ends in ' ', not ';': the list markers cannot overlap. */
  lemma ListMarkersDisjoint()
    ensures Embedded.Disjoint(ListPrefix, ListSuffix)
  {
    forall k | 0 < k <= |ListPrefix| && k <= |ListSuffix|
      ensures ListPrefix[|ListPrefix| - k..] != ListSuffix[..k]
    {
      assert ListPrefix[|ListPrefix| - k..][0] == ' ' != ListSuffix[..k][0];
    }
  }

  /** `const g_fondata = [` ends in '[' and " [", `];` begins with ']' and "];". */
  lemma DetailMarkersDisjoint()
    ensures Embedded.Disjoint(DetailPrefix, DetailSuffix)
  {
    forall k | 0 < k <= |DetailPrefix| && k <= |DetailSuffix|
      ensures DetailPrefix[|DetailPrefix| - k..] != DetailSuffix[..k]
    {
      if k == 1 {
        assert DetailPrefix[|DetailPrefix| - k..][0] == '[' != DetailSuffix[..k][0];
      } else {
        assert DetailPrefix[|DetailPrefix| - k..][1] == '[' != DetailSuffix[..k][1];
      }
    }
  }

  /** A list reply among other lines: the first line is skipped, the array
      between the markers of the second is decoded, and a reply without the
      marked line is reported as not found. */
  lemma ListExample(decode: string -> Decoded<seq<PhoneNumber>>)
    ensures var json := "[{\"number\":\"123\"}]";
            Embedded.Extract(["junk", ListPrefix + json + ListSuffix, "more junk"], ListPrefix, ListSuffix, decode)
            == match decode(json)
               case Parsed(v) => Embedded.Returns(Ok(v))
               case Malformed(d) => Embedded.Returns(Err(Decode(d)))
    ensures Embedded.Extract(["junk", "more junk"], ListPrefix, ListSuffix, decode)
            == Embedded.Returns(Err(Failure(Embedded.NotFound)))
  {
    var json := "[{\"number\":\"123\"}]";
    var line := ListPrefix + json + ListSuffix;
    var lines := ["junk", line, "more junk"];
    assert !Embedded.Matches("junk", ListPrefix, ListSuffix);
    assert !Embedded.Matches("more junk", ListPrefix, ListSuffix);
    assert Embedded.Matches(line, ListPrefix, ListSuffix) by {
      assert line[..|ListPrefix|] == ListPrefix;
      assert line[|line| - |ListSuffix|..] == ListSuffix;
    }
    assert lines[1..][0] == line;
    Embedded.Utf8LengthBounds("junk");
    Embedded.Utf8LengthBounds(line);
    assert Embedded.FirstHit(lines, ListPrefix, ListSuffix) == Embedded.Hit(1);
    assert Embedded.Interior(line, ListPrefix, ListSuffix) == json;
    var others := ["junk", "more junk"];
    Embedded.Utf8LengthBounds("more junk");
    assert Embedded.FirstHit(others[1..], ListPrefix, ListSuffix) == Embedded.Exhausted by {
      assert others[1..][1..] == [];
    }
  }

  /** `ListPhoneNumbers` on the reply body (or the transport error), with
      `decode` for `json.Unmarshal` into `[]PhoneNumber`. It never panics. */
  method ListPhoneNumbers(body: Result<seq<string>>, decode: string -> Decoded<seq<PhoneNumber>>)
    returns (r: Result<seq<PhoneNumber>>)
    ensures body.Err? ==> r == Err(body.error)
    ensures body.Ok? ==> Embedded.Extract(body.value, ListPrefix, ListSuffix, decode) == Embedded.Returns(r)
  {
    if body.Err? {
      return Err(body.error);
    }
    ListMarkersDisjoint();
    Embedded.NeverPanics(body.value, ListPrefix, ListSuffix, decode);
    var run := Embedded.DecodeEmbeddedJson(body.value, ListPrefix, ListSuffix, decode);
    r := run.result;
  }

  /** `GetPhoneNumber` on the reply body, with `decode` for `json.Unmarshal`
      into one `PhoneNumber`. It never panics. */
  method GetPhoneNumber(body: Result<seq<string>>, decode: string -> Decoded<PhoneNumber>)
    returns (r: Result<PhoneNumber>)
    ensures body.Err? ==> r == Err(body.error)
    ensures body.Ok? ==> Embedded.Extract(body.value, DetailPrefix, DetailSuffix, decode) == Embedded.Returns(r)
  {
    if body.Err? {
      return Err(body.error);
    }
    DetailMarkersDisjoint();
    Embedded.NeverPanics(body.value, DetailPrefix, DetailSuffix, decode);
    var run := Embedded.DecodeEmbeddedJson(body.value, DetailPrefix, DetailSuffix, decode);
    r := run.result;
  }

  // ---------------------------------------------------------------------
  // DisableSIP and EnableSIP

  datatype ValError = ValError(alert: string)
  datatype UpdateData = UpdateData(apply: string, valError: ValError)
  /** `UpdateResult`: the JSON reply to a form submission. */
  datatype UpdateResult = UpdateResult(data: UpdateData)

  const UnknownReply := "unknown error while processing response"

  /** How `DisableSIP` and `EnableSIP` read the decoded reply: "ok" is success,
      "valerror" is the router's own alert text, anything else an unknown error. */
  function InterpretApply(reply: Result<UpdateResult>): (r: Outcome)
    ensures reply.Err? ==> r == Fail(reply.error)
    ensures reply.Ok? && reply.value.data.apply == "valerror" ==> r == Fail(Failure(reply.value.data.valError.alert))
    ensures reply.Ok? && reply.value.data.apply == "ok" ==> r == Pass
    ensures reply.Ok? && reply.value.data.apply != "ok" && reply.value.data.apply != "valerror"
            ==> r == Fail(Failure(UnknownReply))
  {
    match reply
    case Err(e) => Fail(e)
    case Ok(result) =>
      if result.data.apply == "valerror" then Fail(Failure(result.data.valError.alert))
      else if result.data.apply != "ok" then Fail(Failure(UnknownReply))
      else Pass
  }

  /** Success exactly when the router says "ok". */
  lemma ApplySucceedsIff(reply: Result<UpdateResult>)
    ensures InterpretApply(reply) == Pass <==> reply.Ok? && reply.value.data.apply == "ok"
  {
  }

  /** The form `DisableSIP` posts. */
  function DisableForm(sid: string, uid: string): (f: map<string, string>)
    ensures f.Keys == {"xhr", "isnew", "uid", "sid", "page", "apply"}
    ensures f["xhr"] == "1" && f["isnew"] == "0"
    ensures f["uid"] == uid && f["sid"] == sid && f["page"] == "sip_edit" && f["apply"] == ""
  {
    map["xhr" := "1", "isnew" := "0", "uid" := uid, "sid" := sid, "page" := "sip_edit", "apply" := ""]
  }

  /** The form `EnableSIP` posts. */
  function EnableForm(sid: string, uid: string, provider: string, areaCode: string, localNumber: string,
                      username: string, password: string): (f: map<string, string>)
    ensures f.Keys == {"xhr", "isnew", "sipactive", "sipprovider", "numberinput1_1", "numberinput2_1",
                       "username", "password", "uid", "sid", "page", "apply"}
    ensures f["xhr"] == "1" && f["isnew"] == "0" && f["sipactive"] == "on"
    ensures f["sipprovider"] == provider && f["numberinput1_1"] == areaCode && f["numberinput2_1"] == localNumber
    ensures f["username"] == username && f["password"] == password
    ensures f["uid"] == uid && f["sid"] == sid && f["page"] == "sip_edit" && f["apply"] == ""
  {
    map["xhr" := "1", "isnew" := "0", "sipactive" := "on", "sipprovider" := provider,
        "numberinput1_1" := areaCode, "numberinput2_1" := localNumber, "username" := username,
        "password" := password, "uid" := uid, "sid" := sid, "page" := "sip_edit", "apply" := ""]
  }

  /** The fields `EnableSIP` adds to those of `DisableSIP`. */
  function EnableExtras(provider: string, areaCode: string, localNumber: string,
                        username: string, password: string): (f: map<string, string>)
    ensures f.Keys == {"sipactive", "sipprovider", "numberinput1_1", "numberinput2_1", "username", "password"}
  {
    map["sipactive" := "on", "sipprovider" := provider, "numberinput1_1" := areaCode,
        "numberinput2_1" := localNumber, "username" := username, "password" := password]
  }

  /** Enabling sends the disable form unchanged plus six fields of its own. */
  lemma EnableExtendsDisable(sid: string, uid: string, provider: string, areaCode: string, localNumber: string,
                             username: string, password: string)
    ensures DisableForm(sid, uid).Keys !! EnableExtras(provider, areaCode, localNumber, username, password).Keys
    ensures EnableForm(sid, uid, provider, areaCode, localNumber, username, password)
            == DisableForm(sid, uid) + EnableExtras(provider, areaCode, localNumber, username, password)
  {
    var d := DisableForm(sid, uid);
    var x := EnableExtras(provider, areaCode, localNumber, username, password);
    var e := EnableForm(sid, uid, provider, areaCode, localNumber, username, password);
    assert x.Keys == {"sipactive", "sipprovider", "numberinput1_1", "numberinput2_1", "username", "password"};
    assert e.Keys == d.Keys + x.Keys;
    forall k | k in e.Keys
      ensures e[k] == (d + x)[k]
    {
      if k in x.Keys {
        assert (d + x)[k] == x[k];
      } else {
        assert (d + x)[k] == d[k];
      }
    }
  }

  /** `DisableSIP`: the form it posts and how it reads the reply. */
  function DisableSip(sid: string, uid: string, reply: map<string, string> -> Result<UpdateResult>): (r: Outcome)
    ensures var answer := reply(DisableForm(sid, uid));
            && (answer.Err? ==> r == Fail(answer.error))
            && (answer.Ok? && answer.value.data.apply == "valerror" ==> r == Fail(Failure(answer.value.data.valError.alert)))
            && (answer.Ok? && answer.value.data.apply != "ok" && answer.value.data.apply != "valerror"
                ==> r == Fail(Failure(UnknownReply)))
            && (r == Pass <==> answer.Ok? && answer.value.data.apply == "ok")
  {
    ApplySucceedsIff(reply(DisableForm(sid, uid)));
    InterpretApply(reply(DisableForm(sid, uid)))
  }

  /** `EnableSIP`: the form it posts and how it reads the reply. */
  function EnableSip(sid: string, uid: string, provider: string, areaCode: string, localNumber: string,
                     username: string, password: string, reply: map<string, string> -> Result<UpdateResult>): (r: Outcome)
    ensures var form := EnableForm(sid, uid, provider, areaCode, localNumber, username, password);
            var answer := reply(form);
            && (answer.Err? ==> r == Fail(answer.error))
            && (answer.Ok? && answer.value.data.apply == "valerror" ==> r == Fail(Failure(answer.value.data.valError.alert)))
            && (answer.Ok? && answer.value.data.apply != "ok" && answer.value.data.apply != "valerror"
                ==> r == Fail(Failure(UnknownReply)))
            && (r == Pass <==> answer.Ok? && answer.value.data.apply == "ok")
  {
    ApplySucceedsIff(reply(EnableForm(sid, uid, provider, areaCode, localNumber, username, password)));
    InterpretApply(reply(EnableForm(sid, uid, provider, areaCode, localNumber, username, password)))
  }
}
