/** `commandSip` of command_sip.go: log in, list the phone numbers, and for
    every SIP number in scope fetch its configuration, then disable and/or
    enable it, stopping at the first error. The router is an oracle that
    answers each client call; the run records the calls in the order made. */
module SipCommand {
  import opened Wrappers
  import opened Text
  import opened Types
  import opened Client

  /** A call of the client library. */
  datatype Call =
    | LoginCall(username: string, password: string)
    | ListCall(sid: string)
    | GetCall(sid: string, uid: string)
    | DisableCall(sid: string, uid: string)
    | EnableCall(sid: string, uid: string, provider: string, areaCode: string, localNumber: string,
                 sipUsername: string, sipPassword: string)

  /** What each client operation returns, as a function of its arguments. */
  datatype Router = Router(
    login: (string, string) -> Result<SessionInfo>,
    list: string -> Result<seq<PhoneNumber>>,
    get: (string, string) -> Result<PhoneNumber>,
    disable: (string, string) -> Outcome,
    enable: (string, string, string, string, string, string, string) -> Outcome)

  /** The error the router answers a call with, if any. */
  function CallError(router: Router, c: Call): Option<Error> {
    match c
    case LoginCall(u, p) => if router.login(u, p).Err? then Some(router.login(u, p).error) else None
    case ListCall(sid) => if router.list(sid).Err? then Some(router.list(sid).error) else None
    case GetCall(sid, uid) => if router.get(sid, uid).Err? then Some(router.get(sid, uid).error) else None
    case DisableCall(sid, uid) => if router.disable(sid, uid).Fail? then Some(router.disable(sid, uid).error) else None
    case EnableCall(sid, uid, pr, ac, ln, su, sp) =>
      if router.enable(sid, uid, pr, ac, ln, su, sp).Fail? then Some(router.enable(sid, uid, pr, ac, ln, su, sp).error) else None
  }

  /** The calls made so far and the error the run ended with, if any. */
  datatype Trace = Trace(calls: seq<Call>, err: Option<Error>)

  /** A listed number is handled when it is a SIP number and, if uids were
      given, its uid is one of them. */
  predicate InScope(ids: seq<string>, n: PhoneNumber) {
    n.kind == "sip" && (|ids| == 0 || n.uid in ids)
  }

  predicate Disconnects(task: string) {
    EqualFold(task, "disconnect") || EqualFold(task, "reconnect")
  }

  predicate Connects(task: string) {
    EqualFold(task, "connect") || EqualFold(task, "reconnect")
  }

  /** The enable call for a number, with the provider, number parts and SIP
      credentials taken from its fetched configuration `detail`. */
  function EnableWith(sid: string, uid: string, detail: PhoneNumber): Call {
    EnableCall(sid, uid, detail.providerId, detail.areaCode, detail.localNumber, detail.sip.username, detail.sip.password)
  }

  /** Running `c` after `before` succeeded. */
  function Then(router: Router, before: seq<Call>, c: Call): Trace {
    Trace(before + [c], CallError(router, c))
  }

  /** The calls for one number in scope. */
  function NumberRun(task: string, sid: string, n: PhoneNumber, router: Router): Trace {
    var fetched := Then(router, [], GetCall(sid, n.uid));
    if fetched.err.Some? then fetched
    else
      var detail := router.get(sid, n.uid).value;
      var disabled := if Disconnects(task) then Then(router, fetched.calls, DisableCall(sid, n.uid)) else fetched;
      if disabled.err.Some? || !Connects(task) then disabled
      else Then(router, disabled.calls, EnableWith(sid, n.uid, detail))
  }

  /** The loop over the listed numbers. */
  function Sweep(task: string, ids: seq<string>, sid: string, numbers: seq<PhoneNumber>, router: Router): Trace {
    if numbers == [] then Trace([], None)
    else
      var before := Sweep(task, ids, sid, numbers[..|numbers| - 1], router);
      var n := numbers[|numbers| - 1];
      if before.err.Some? || !InScope(ids, n) then before
      else
        var step := NumberRun(task, sid, n, router);
        Trace(before.calls + step.calls, step.err)
  }

  /** The whole command. */
  function SipRun(task: string, ids: seq<string>, username: string, password: string, router: Router): Trace {
    var login := Then(router, [], LoginCall(username, password));
    if login.err.Some? then login
    else
      var sid := router.login(username, password).value.sid;
      var listed := Then(router, login.calls, ListCall(sid));
      if listed.err.Some? then listed
      else
        var sweep := Sweep(task, ids, sid, router.list(sid).value, router);
        Trace(listed.calls + sweep.calls, sweep.err)
  }

  /** Once a prefix of the numbers has ended in an error, later numbers add nothing. */
  lemma {:induction false} SweepStopsAtError(task: string, ids: seq<string>, sid: string, numbers: seq<PhoneNumber>,
                                             k: nat, router: Router)
    requires k <= |numbers| && Sweep(task, ids, sid, numbers[..k], router).err.Some?
    ensures Sweep(task, ids, sid, numbers, router) == Sweep(task, ids, sid, numbers[..k], router)
  {
    if k < |numbers| {
      var n := |numbers| - 1;
      assert numbers[..n][..k] == numbers[..k];
      SweepStopsAtError(task, ids, sid, numbers[..n], k, router);
    } else {
      assert numbers[..k] == numbers;
    }
  }

  // ---------------------------------------------------------------------
  // The first error ends the run

  /** Every call but the last succeeded; the last one failed with the run's
      error if there is one, and succeeded too if there is none. */
  predicate StopsAtFirstError(router: Router, r: Trace) {
    && (forall j | 0 <= j < |r.calls| - 1 :: CallError(router, r.calls[j]).None?)
    && (r.err.None? ==> r.calls == [] || CallError(router, r.calls[|r.calls| - 1]).None?)
    && (r.err.Some? ==> r.calls != [] && CallError(router, r.calls[|r.calls| - 1]) == r.err)
  }

  lemma ThenStops(router: Router, before: seq<Call>, c: Call)
    requires forall j | 0 <= j < |before| :: CallError(router, before[j]).None?
    ensures StopsAtFirstError(router, Then(router, before, c))
  {
    var calls := (before + [c]);
    assert forall j | 0 <= j < |before| :: calls[j] == before[j];
  }

  /** Appending a run to one that ended without error. */
  lemma AppendStops(router: Router, a: Trace, b: Trace)
    requires StopsAtFirstError(router, a) && a.err.None? && StopsAtFirstError(router, b)
    ensures StopsAtFirstError(router, Trace(a.calls + b.calls, b.err))
  {
    var calls := a.calls + b.calls;
    forall j | 0 <= j < |calls| - 1
      ensures CallError(router, calls[j]).None?
    {
      if j < |a.calls| {
        assert calls[j] == a.calls[j];
      } else {
        assert calls[j] == b.calls[j - |a.calls|];
      }
    }
    if b.calls == [] {
      assert calls == a.calls;
    } else {
      assert calls[|calls| - 1] == b.calls[|b.calls| - 1];
    }
  }

  lemma NumberRunStops(task: string, sid: string, n: PhoneNumber, router: Router)
    ensures StopsAtFirstError(router, NumberRun(task, sid, n, router))
  {
    var get := GetCall(sid, n.uid);
    ThenStops(router, [], get);
    if CallError(router, get).None? {
      var fetched := [get];
      ThenStops(router, fetched, DisableCall(sid, n.uid));
      var disabled := if Disconnects(task) then Then(router, fetched, DisableCall(sid, n.uid)) else Trace(fetched, None);
      if disabled.err.None? {
        assert forall j | 0 <= j < |disabled.calls| :: CallError(router, disabled.calls[j]).None?;
        ThenStops(router, disabled.calls, EnableWith(sid, n.uid, router.get(sid, n.uid).value));
      }
    }
  }

  lemma {:induction false} SweepStops(task: string, ids: seq<string>, sid: string, numbers: seq<PhoneNumber>, router: Router)
    ensures StopsAtFirstError(router, Sweep(task, ids, sid, numbers, router))
  {
    if numbers != [] {
      var before := Sweep(task, ids, sid, numbers[..|numbers| - 1], router);
      SweepStops(task, ids, sid, numbers[..|numbers| - 1], router);
      var n := numbers[|numbers| - 1];
      if before.err.None? && InScope(ids, n) {
        NumberRunStops(task, sid, n, router);
        AppendStops(router, before, NumberRun(task, sid, n, router));
      }
    }
  }

  /** The run returns the error of the first call that failed, and makes no
      call after it; a run without error made only calls that succeeded. */
  lemma SipStopsAtFirstError(task: string, ids: seq<string>, username: string, password: string, router: Router)
    ensures StopsAtFirstError(router, SipRun(task, ids, username, password, router))
  {
    var login := LoginCall(username, password);
    ThenStops(router, [], login);
    if CallError(router, login).None? {
      var sid := router.login(username, password).value.sid;
      ThenStops(router, [login], ListCall(sid));
      if CallError(router, ListCall(sid)).None? {
        SweepStops(task, ids, sid, router.list(sid).value, router);
        AppendStops(router, Trace([login, ListCall(sid)], None), Sweep(task, ids, sid, router.list(sid).value, router));
      }
    }
  }

  // ---------------------------------------------------------------------
  // Which calls are made

  /** A call about one phone number. */
  predicate NumberCall(c: Call) {
    c.GetCall? || c.DisableCall? || c.EnableCall?
  }

  /** The uids of the numbers in scope. */
  function ScopeUids(ids: seq<string>, numbers: seq<PhoneNumber>): set<string> {
    set n | n in numbers && InScope(ids, n) :: n.uid
  }

  /** Every call is about a number of `uids`, with the session id `sid`. */
  predicate Scoped(sid: string, uids: set<string>, calls: seq<Call>) {
    forall j | 0 <= j < |calls| :: NumberCall(calls[j]) && calls[j].sid == sid && calls[j].uid in uids
  }

  lemma {:induction false} SweepScoped(task: string, ids: seq<string>, sid: string, numbers: seq<PhoneNumber>, router: Router)
    ensures Scoped(sid, ScopeUids(ids, numbers), Sweep(task, ids, sid, numbers, router).calls)
  {
    if numbers != [] {
      var front := numbers[..|numbers| - 1];
      var before := Sweep(task, ids, sid, front, router);
      SweepScoped(task, ids, sid, front, router);
      assert ScopeUids(ids, front) <= ScopeUids(ids, numbers) by {
        assert forall n | n in front :: n in numbers;
      }
      var n := numbers[|numbers| - 1];
      if before.err.None? && InScope(ids, n) {
        var step := NumberRun(task, sid, n, router).calls;
        assert n.uid in ScopeUids(ids, numbers);
        var calls := before.calls + step;
        forall j | 0 <= j < |calls|
          ensures NumberCall(calls[j]) && calls[j].sid == sid && calls[j].uid in ScopeUids(ids, numbers)
        {
          if j >= |before.calls| {
            assert calls[j] == step[j - |before.calls|];
          }
        }
      }
    }
  }

  /** The first call logs in and the second lists the numbers; neither is
      made again, and every later call concerns a listed number in scope. */
  lemma SipLoginAndListOnce(task: string, ids: seq<string>, username: string, password: string, router: Router)
    ensures var r := SipRun(task, ids, username, password, router);
            && r.calls[0] == LoginCall(username, password)
            && (|r.calls| > 1 ==> router.login(username, password).Ok?
                                  && r.calls[1] == ListCall(router.login(username, password).value.sid))
            && (|r.calls| > 2 ==>
                  var sid := router.login(username, password).value.sid;
                  router.list(sid).Ok? && Scoped(sid, ScopeUids(ids, router.list(sid).value), r.calls[2..]))
  {
    var r := SipRun(task, ids, username, password, router);
    if |r.calls| > 2 {
      var sid := router.login(username, password).value.sid;
      SweepScoped(task, ids, sid, router.list(sid).value, router);
      assert r.calls[2..] == Sweep(task, ids, sid, router.list(sid).value, router).calls;
    }
  }

  /** The task words are told apart by their length alone. */
  lemma TaskWords(task: string)
    ensures EqualFold(task, "disconnect") ==> Disconnects(task) && !Connects(task)
    ensures EqualFold(task, "connect") ==> Connects(task) && !Disconnects(task)
    ensures EqualFold(task, "reconnect") ==> Connects(task) && Disconnects(task)
  {
  }

  /** No call of a kind the task does not ask for. */
  predicate Dispatched(task: string, calls: seq<Call>) {
    forall j | 0 <= j < |calls| ::
      (calls[j].DisableCall? ==> Disconnects(task)) && (calls[j].EnableCall? ==> Connects(task))
  }

  lemma {:induction false} SweepDispatched(task: string, ids: seq<string>, sid: string, numbers: seq<PhoneNumber>, router: Router)
    ensures Dispatched(task, Sweep(task, ids, sid, numbers, router).calls)
  {
    if numbers != [] {
      var front := numbers[..|numbers| - 1];
      var before := Sweep(task, ids, sid, front, router);
      SweepDispatched(task, ids, sid, front, router);
      var n := numbers[|numbers| - 1];
      if before.err.None? && InScope(ids, n) {
        var step := NumberRun(task, sid, n, router).calls;
        var calls := before.calls + step;
        forall j | 0 <= j < |calls|
          ensures (calls[j].DisableCall? ==> Disconnects(task)) && (calls[j].EnableCall? ==> Connects(task))
        {
          if j >= |before.calls| {
            assert calls[j] == step[j - |before.calls|];
          }
        }
      }
    }
  }

  /** "disconnect" only disables, "connect" only enables. */
  lemma SipDispatch(task: string, ids: seq<string>, username: string, password: string, router: Router)
    ensures var calls := SipRun(task, ids, username, password, router).calls;
            && (EqualFold(task, "disconnect") ==> forall j | 0 <= j < |calls| :: !calls[j].EnableCall?)
            && (EqualFold(task, "connect") ==> forall j | 0 <= j < |calls| :: !calls[j].DisableCall?)
  {
    var r := SipRun(task, ids, username, password, router);
    if |r.calls| > 2 {
      var sid := router.login(username, password).value.sid;
      var sweep := Sweep(task, ids, sid, router.list(sid).value, router).calls;
      SweepDispatched(task, ids, sid, router.list(sid).value, router);
      assert forall j | 2 <= j < |r.calls| :: r.calls[j] == sweep[j - 2];
    }
  }

  /** The calls for one number that end without error: the fetch, then the
      disable if the task disconnects, then the enable with the fetched
      configuration if it connects; "reconnect" therefore disables first. */
  lemma NumberRunCalls(task: string, sid: string, n: PhoneNumber, router: Router)
    requires NumberRun(task, sid, n, router).err.None?
    ensures router.get(sid, n.uid).Ok?
    ensures NumberRun(task, sid, n, router).calls
            == [GetCall(sid, n.uid)]
               + (if Disconnects(task) then [DisableCall(sid, n.uid)] else [])
               + (if Connects(task) then [EnableWith(sid, n.uid, router.get(sid, n.uid).value)] else [])
  {
  }

  /** A loop that ends without error disables every number in scope when the
      task disconnects, and enables it with its fetched configuration when
      the task connects. */
  lemma {:induction false} SweepDispatchComplete(task: string, ids: seq<string>, sid: string, numbers: seq<PhoneNumber>,
                                                 router: Router, n: PhoneNumber)
    requires Sweep(task, ids, sid, numbers, router).err.None?
    requires n in numbers && InScope(ids, n)
    ensures router.get(sid, n.uid).Ok?
    ensures Disconnects(task) ==> DisableCall(sid, n.uid) in Sweep(task, ids, sid, numbers, router).calls
    ensures Connects(task) ==>
              EnableWith(sid, n.uid, router.get(sid, n.uid).value) in Sweep(task, ids, sid, numbers, router).calls
  {
    var front := numbers[..|numbers| - 1];
    var last := numbers[|numbers| - 1];
    var before := Sweep(task, ids, sid, front, router);
    assert before.err.None?;
    if n == last {
      NumberRunCalls(task, sid, n, router);
    } else {
      assert n in front by {
        var k :| 0 <= k < |numbers| && numbers[k] == n;
        assert k < |numbers| - 1 && front[k] == n;
      }
      SweepDispatchComplete(task, ids, sid, front, router, n);
      if InScope(ids, last) {
        NumberRunCalls(task, sid, last, router);
      }
    }
  }

  /** A run of the command that ends without error disables each listed
      number in scope exactly when the task is "disconnect" or "reconnect", and
      enables it with its fetched configuration exactly when the task is
      "connect" or "reconnect". */
  lemma SipDispatchComplete(task: string, ids: seq<string>, username: string, password: string, router: Router,
                            n: PhoneNumber)
    requires SipRun(task, ids, username, password, router).err.None?
    ensures router.login(username, password).Ok?
    ensures var sid := router.login(username, password).value.sid;
            var calls := SipRun(task, ids, username, password, router).calls;
            && router.list(sid).Ok?
            && (n in router.list(sid).value && InScope(ids, n) ==>
                  && router.get(sid, n.uid).Ok?
                  && (DisableCall(sid, n.uid) in calls <==> Disconnects(task))
                  && (EnableWith(sid, n.uid, router.get(sid, n.uid).value) in calls <==> Connects(task)))
  {
    var sid := router.login(username, password).value.sid;
    var calls := SipRun(task, ids, username, password, router).calls;
    var numbers := router.list(sid).value;
    if n in numbers && InScope(ids, n) {
      var sweep := Sweep(task, ids, sid, numbers, router).calls;
      SweepDispatchComplete(task, ids, sid, numbers, router, n);
      SweepDispatched(task, ids, sid, numbers, router);
      var prefix := [LoginCall(username, password), ListCall(sid)];
      assert calls == prefix + sweep;
      var enable := EnableWith(sid, n.uid, router.get(sid, n.uid).value);
      if DisableCall(sid, n.uid) in calls {
        var j :| 0 <= j < |calls| && calls[j] == DisableCall(sid, n.uid);
        assert j >= 2 && sweep[j - 2] == calls[j];
      }
      if enable in calls {
        var j :| 0 <= j < |calls| && calls[j] == enable;
        assert j >= 2 && sweep[j - 2] == calls[j];
      }
    }
  }

  // ---------------------------------------------------------------------
  // The order of the calls for one number

  /** A disable call comes right after the fetch of its number; an enable call
      right after the fetch or after the disable that follows it, and carries
      the fetched configuration. */
  predicate Ordered(sid: string, router: Router, calls: seq<Call>) {
    forall j | 0 <= j < |calls| :: OrderedAt(sid, router, calls, j)
  }

  predicate OrderedAt(sid: string, router: Router, calls: seq<Call>, j: nat)
    requires j < |calls|
  {
    && (calls[j].DisableCall? ==> 1 <= j && calls[j - 1] == GetCall(sid, calls[j].uid))
    && (calls[j].EnableCall? ==>
          && router.get(sid, calls[j].uid).Ok?
          && calls[j] == EnableWith(sid, calls[j].uid, router.get(sid, calls[j].uid).value)
          && 1 <= j
          && (|| calls[j - 1] == GetCall(sid, calls[j].uid)
              || (2 <= j && calls[j - 1] == DisableCall(sid, calls[j].uid) && calls[j - 2] == GetCall(sid, calls[j].uid))))
  }

  lemma AppendOrdered(sid: string, router: Router, a: seq<Call>, b: seq<Call>)
    requires Ordered(sid, router, a) && Ordered(sid, router, b) && (b == [] || b[0].GetCall?)
    ensures Ordered(sid, router, a + b)
  {
    var calls := a + b;
    forall j | 0 <= j < |calls|
      ensures OrderedAt(sid, router, calls, j)
    {
      if j < |a| {
        assert OrderedAt(sid, router, a, j);
        assert calls[j] == a[j];
        if 1 <= j { assert calls[j - 1] == a[j - 1]; }
        if 2 <= j { assert calls[j - 2] == a[j - 2]; }
      } else {
        var k := j - |a|;
        assert OrderedAt(sid, router, b, k);
        assert calls[j] == b[k];
        if 1 <= k { assert calls[j - 1] == b[k - 1]; }
        if 2 <= k { assert calls[j - 2] == b[k - 2]; }
      }
    }
  }

  lemma NumberRunOrdered(task: string, sid: string, n: PhoneNumber, router: Router)
    ensures Ordered(sid, router, NumberRun(task, sid, n, router).calls)
    ensures NumberRun(task, sid, n, router).calls[0] == GetCall(sid, n.uid)
  {
  }

  lemma {:induction false} SweepOrdered(task: string, ids: seq<string>, sid: string, numbers: seq<PhoneNumber>, router: Router)
    ensures Ordered(sid, router, Sweep(task, ids, sid, numbers, router).calls)
  {
    if numbers != [] {
      var front := numbers[..|numbers| - 1];
      var before := Sweep(task, ids, sid, front, router);
      SweepOrdered(task, ids, sid, front, router);
      var n := numbers[|numbers| - 1];
      if before.err.None? && InScope(ids, n) {
        NumberRunOrdered(task, sid, n, router);
        AppendOrdered(sid, router, before.calls, NumberRun(task, sid, n, router).calls);
      }
    }
  }

  /** Every disable or enable follows the fetch of the same number, and an
      enable carries the provider, number and credentials the fetch returned
      rather than those of the list entry. */
  lemma SipFetchesFirst(task: string, ids: seq<string>, username: string, password: string, router: Router)
    ensures var calls := SipRun(task, ids, username, password, router).calls;
            |calls| > 2 ==> Ordered(router.login(username, password).value.sid, router, calls[2..])
  {
    var r := SipRun(task, ids, username, password, router);
    if |r.calls| > 2 {
      var sid := router.login(username, password).value.sid;
      SweepOrdered(task, ids, sid, router.list(sid).value, router);
      assert r.calls[2..] == Sweep(task, ids, sid, router.list(sid).value, router).calls;
    }
  }

  // ---------------------------------------------------------------------
  // The numbers are handled in list order

  /** The uids of the fetch calls, in order. */
  function FetchedUids(calls: seq<Call>): seq<string> {
    if calls == [] then []
    else FetchedUids(calls[..|calls| - 1]) + (if calls[|calls| - 1].GetCall? then [calls[|calls| - 1].uid] else [])
  }

  lemma {:induction false} FetchedUidsAppend(a: seq<Call>, b: seq<Call>)
    ensures FetchedUids(a + b) == FetchedUids(a) + FetchedUids(b)
    decreases |b|
  {
    if b == [] {
      assert a + b == a;
    } else {
      assert (a + b)[..|a + b| - 1] == a + b[..|b| - 1];
      FetchedUidsAppend(a, b[..|b| - 1]);
    }
  }

  /** The uids of the numbers in scope, in list order. */
  function InScopeUids(ids: seq<string>, numbers: seq<PhoneNumber>): seq<string> {
    if numbers == [] then []
    else
      var n := numbers[|numbers| - 1];
      InScopeUids(ids, numbers[..|numbers| - 1]) + (if InScope(ids, n) then [n.uid] else [])
  }

  lemma NumberRunFetchesOnce(task: string, sid: string, n: PhoneNumber, router: Router)
    ensures FetchedUids(NumberRun(task, sid, n, router).calls) == [n.uid]
  {
    var calls := NumberRun(task, sid, n, router).calls;
    assert calls[..1] == [GetCall(sid, n.uid)];
    assert FetchedUids(calls[..1]) == [n.uid] by {
      assert calls[..1][..0] == [];
    }
    if |calls| >= 2 {
      assert calls[..2][..1] == calls[..1];
    }
    if |calls| == 3 {
      assert calls[..3] == calls;
      assert calls[..2] == calls[..|calls| - 1];
    }
  }

  /** A run without error fetches exactly the numbers in scope, once each, in list order. */
  lemma {:induction false} SweepInListOrder(task: string, ids: seq<string>, sid: string, numbers: seq<PhoneNumber>, router: Router)
    requires Sweep(task, ids, sid, numbers, router).err.None?
    ensures FetchedUids(Sweep(task, ids, sid, numbers, router).calls) == InScopeUids(ids, numbers)
  {
    if numbers != [] {
      var front := numbers[..|numbers| - 1];
      var before := Sweep(task, ids, sid, front, router);
      var n := numbers[|numbers| - 1];
      SweepInListOrder(task, ids, sid, front, router);
      if InScope(ids, n) {
        NumberRunFetchesOnce(task, sid, n, router);
        FetchedUidsAppend(before.calls, NumberRun(task, sid, n, router).calls);
      }
    }
  }

  /** Whatever the outcome, the loop fetched an initial part of the numbers in
      scope, in list order. */
  lemma {:induction false} SweepFetchesPrefix(task: string, ids: seq<string>, sid: string, numbers: seq<PhoneNumber>,
                                              router: Router)
    ensures FetchedUids(Sweep(task, ids, sid, numbers, router).calls) <= InScopeUids(ids, numbers)
  {
    if numbers != [] {
      var front := numbers[..|numbers| - 1];
      var n := numbers[|numbers| - 1];
      var before := Sweep(task, ids, sid, front, router);
      var whole := InScopeUids(ids, numbers);
      var part := InScopeUids(ids, front);
      assert part <= whole;
      if before.err.Some? {
        SweepFetchesPrefix(task, ids, sid, front, router);
        var f := FetchedUids(before.calls);
        assert f <= part;
        assert f == whole[..|f|] by {
          assert f == part[..|f|];
          assert part == whole[..|part|];
          assert whole[..|part|][..|f|] == whole[..|f|];
        }
      } else {
        SweepInListOrder(task, ids, sid, front, router);
        if InScope(ids, n) {
          NumberRunFetchesOnce(task, sid, n, router);
          FetchedUidsAppend(before.calls, NumberRun(task, sid, n, router).calls);
        }
      }
    }
  }

  /** Whatever the outcome, the command fetched an initial part of the listed
      numbers in scope, in list order, and nothing when the login or the list failed. */
  lemma SipFetchesPrefix(task: string, ids: seq<string>, username: string, password: string, router: Router)
    ensures var calls := SipRun(task, ids, username, password, router).calls;
            var login := router.login(username, password);
            if login.Ok? && router.list(login.value.sid).Ok?
            then FetchedUids(calls) <= InScopeUids(ids, router.list(login.value.sid).value)
            else FetchedUids(calls) == []
  {
    var login := LoginCall(username, password);
    assert FetchedUids([login]) == [] by {
      assert [login][..0] == [];
    }
    if router.login(username, password).Ok? {
      var sid := router.login(username, password).value.sid;
      var prefix := [login, ListCall(sid)];
      assert FetchedUids(prefix) == [] by {
        assert prefix[..1] == [login];
      }
      if router.list(sid).Ok? {
        var sweep := Sweep(task, ids, sid, router.list(sid).value, router);
        SweepFetchesPrefix(task, ids, sid, router.list(sid).value, router);
        assert SipRun(task, ids, username, password, router).calls == prefix + sweep.calls;
        FetchedUidsAppend(prefix, sweep.calls);
      }
    }
  }

  /** A run of the command that ends without error fetched the configuration
      of every number in scope, in list order, and of no other. */
  lemma SipInListOrder(task: string, ids: seq<string>, username: string, password: string, router: Router)
    requires SipRun(task, ids, username, password, router).err.None?
    ensures var sid := router.login(username, password).value.sid;
            FetchedUids(SipRun(task, ids, username, password, router).calls) == InScopeUids(ids, router.list(sid).value)
  {
    var sid := router.login(username, password).value.sid;
    var sweep := Sweep(task, ids, sid, router.list(sid).value, router);
    SweepInListOrder(task, ids, sid, router.list(sid).value, router);
    var prefix := [LoginCall(username, password), ListCall(sid)];
    assert FetchedUids(prefix) == [] by {
      assert prefix[..1] == [LoginCall(username, password)];
      assert [LoginCall(username, password)][..0] == [];
      assert FetchedUids(prefix[..1]) == [];
    }
    assert SipRun(task, ids, username, password, router).calls == prefix + sweep.calls;
    FetchedUidsAppend(prefix, sweep.calls);
  }

  // ---------------------------------------------------------------------
  // The command itself, step by step

  /** The body of the loop in `commandSip` for one number in scope. */
  method HandleNumber(task: string, sid: string, number: PhoneNumber, router: Router)
    returns (err: Option<Error>, calls: seq<Call>)
    ensures Trace(calls, err) == NumberRun(task, sid, number, router)
  {
    calls := [GetCall(sid, number.uid)];
    var fetched := router.get(sid, number.uid);
    if fetched.Err? {
      return Some(fetched.error), calls;
    }
    var data := fetched.value;
    if EqualFold(task, "disconnect") || EqualFold(task, "reconnect") {
      calls := calls + [DisableCall(sid, number.uid)];
      var disabled := router.disable(sid, number.uid);
      if disabled.Fail? {
        return Some(disabled.error), calls;
      }
    }
    if EqualFold(task, "connect") || EqualFold(task, "reconnect") {
      calls := calls + [EnableCall(sid, number.uid, data.providerId, data.areaCode, data.localNumber,
                                   data.sip.username, data.sip.password)];
      var enabled := router.enable(sid, number.uid, data.providerId, data.areaCode, data.localNumber,
                                   data.sip.username, data.sip.password);
      if enabled.Fail? {
        return Some(enabled.error), calls;
      }
    }
    return None, calls;
  }

  /** The loop of `commandSip` over the listed numbers. */
  method SweepNumbers(task: string, ids: seq<string>, sid: string, numbers: seq<PhoneNumber>, router: Router)
    returns (err: Option<Error>, calls: seq<Call>)
    ensures Trace(calls, err) == Sweep(task, ids, sid, numbers, router)
  {
    calls := [];
    for i := 0 to |numbers|
      invariant Sweep(task, ids, sid, numbers[..i], router) == Trace(calls, None)
    {
      assert numbers[..i + 1][..i] == numbers[..i];
      var number := numbers[i];
      if number.kind != "sip" {
        continue;
      }
      if |ids| > 0 && number.uid !in ids {
        continue;
      }
      var stepErr, stepCalls := HandleNumber(task, sid, number, router);
      calls := calls + stepCalls;
      if stepErr.Some? {
        SweepStopsAtError(task, ids, sid, numbers, i + 1, router);
        return stepErr, calls;
      }
    }
    assert numbers[..|numbers|] == numbers;
    return None, calls;
  }

  /** `commandSip`, with `router` answering the client calls. */
  method CommandSip(task: string, ids: seq<string>, username: string, password: string, router: Router)
    returns (err: Option<Error>, trace: seq<Call>)
    ensures Trace(trace, err) == SipRun(task, ids, username, password, router)
  {
    trace := [LoginCall(username, password)];
    var session := router.login(username, password);
    if session.Err? {
      return Some(session.error), trace;
    }
    var sid := session.value.sid;
    trace := trace + [ListCall(sid)];
    var listed := router.list(sid);
    if listed.Err? {
      return Some(listed.error), trace;
    }
    var sweepCalls;
    err, sweepCalls := SweepNumbers(task, ids, sid, listed.value, router);
    trace := trace + sweepCalls;
  }
}
