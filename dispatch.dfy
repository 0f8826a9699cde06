/**
 * The order in which the monitored application (target/server.js) looks at a
 * request and the events it logs: the static-file middleware, then the DoS
 * counter for every request, then the one route that matches, and only for a
 * request no route handled, the reconnaissance check followed by the 404
 * handler. One request can therefore give several events.
 */
module Dispatch {

  import opened Wrappers
  import opened Text
  import opened JsNumber
  import opened Requests
  import opened AttackRecords
  import opened RequestCounting
  import Detection

  datatype Route =
    | Home                   // GET /
    | Login                  // POST /login
    | Settings               // GET /settings
    | Upload                 // POST /upload
    | Download               // GET /download
    | UserProfile(id: string) // GET /api/user/:id
    | Unrouted               // falls through to the recon check and the 404 handler

  /** A GET route also answers HEAD requests. */
  predicate IsGet(req: Request) {
    req.verb == "GET" || req.verb == "HEAD"
  }

  /** Express route matching for a fixed path: case-insensitive, one trailing slash allowed. */
  predicate PathMatches(path: string, route: string) {
    Lower(path) == route || Lower(path) == route + "/"
  }

  const UserPrefix := "/api/user/"

  /** The `:id` parameter of `/api/user/:id`: one non-empty segment, then at most one slash. */
  function UserIdParam(path: string): (r: Option<string>)
    ensures r.Some? ==> r.value != "" && '/' !in r.value
    ensures r.Some? ==> |path| > |UserPrefix| && Lower(path[..|UserPrefix|]) == UserPrefix
    ensures r.Some? ==> path[|UserPrefix|..] == r.value || path[|UserPrefix|..] == r.value + "/"
  {
    if |path| > |UserPrefix| && Lower(path[..|UserPrefix|]) == UserPrefix then
      var rest := path[|UserPrefix|..];
      var id := if rest[|rest| - 1] == '/' then rest[..|rest| - 1] else rest;
      if id != [] && '/' !in id then Some(id) else None
    else None
  }

  /**
   * The segment after `/api/user/`, written in any mix of cases, is the id, with
   * or without one trailing slash.
   */
  lemma {:induction false} UserIdRoundTrip(prefix: string, id: string)
    requires |prefix| == |UserPrefix| && Lower(prefix) == UserPrefix
    requires id != [] && '/' !in id
    ensures UserIdParam(prefix + id) == Some(id)
    ensures UserIdParam(prefix + id + "/") == Some(id)
  {
    var p := prefix + id;
    assert p[..|UserPrefix|] == prefix && p[|UserPrefix|..] == id;
    assert id[|id| - 1] != '/' by {
      assert id[|id| - 1] in id;
    }
    var q := prefix + id + "/";
    assert q[..|UserPrefix|] == prefix && q[|UserPrefix|..] == id + "/";
    assert (id + "/")[..|id|] == id;
  }

  /** Express matches `/API/User/1001` to the user route with id `1001`. */
  lemma {:induction false} UserPathUpperCase()
    ensures UserIdParam("/API/User/1001") == Some("1001")
    ensures UserIdParam("/API/User/1001/") == Some("1001")
  {
    var prefix := "/API/User/";
    var l := Lower(prefix);
    assert l[0] == '/' && l[1] == 'a' && l[2] == 'p' && l[3] == 'i' && l[4] == '/';
    assert l[5] == 'u' && l[6] == 's' && l[7] == 'e' && l[8] == 'r' && l[9] == '/';
    UserIdRoundTrip(prefix, "1001");
    assert prefix + "1001" == "/API/User/1001" && prefix + "1001" + "/" == "/API/User/1001/";
  }

  /**
   * A GET of `/api/user/<id>`, the prefix in any mix of cases and the id any one
   * segment, reaches the user profile route.
   */
  lemma {:induction false} UserRouteReached(req: Request, prefix: string, id: string)
    requires |prefix| == |UserPrefix| && Lower(prefix) == UserPrefix
    requires IsGet(req) && req.path == prefix + id
    requires id != [] && '/' !in id
    ensures MatchRoute(req) == UserProfile(id)
  {
    UserIdRoundTrip(prefix, id);
    var l := Lower(req.path);
    assert l[1] == Lower(prefix)[1] == 'a';
    assert l != "/login" && l != "/login/" && l != "/settings" && l != "/settings/";
    assert l != "/upload" && l != "/upload/" && l != "/download" && l != "/download/";
  }

  /**
   * The route handler that answers `req`, if any: the routes in the order they
   * are registered. POST reaches only /login and /upload, any other verb
   * besides GET and HEAD reaches none, and a user id is one path segment.
   */
  function MatchRoute(req: Request): (r: Route)
    ensures r == Login || r == Upload ==> req.verb == "POST"
    ensures r == Home || r == Settings || r == Download || r.UserProfile? ==> IsGet(req)
    ensures !IsGet(req) && req.verb != "POST" ==> r == Unrouted
    ensures r.UserProfile? ==> r.id != "" && '/' !in r.id
  {
    if IsGet(req) && (req.path == "/" || req.path == "") then Home
    else if req.verb == "POST" && PathMatches(req.path, "/login") then Login
    else if IsGet(req) && PathMatches(req.path, "/settings") then Settings
    else if req.verb == "POST" && PathMatches(req.path, "/upload") then Upload
    else if IsGet(req) && PathMatches(req.path, "/download") then Download
    else if IsGet(req) && UserIdParam(req.path).Some? then UserProfile(UserIdParam(req.path).value)
    else Unrouted
  }

  /** `express.static('public')`, registered before the counter, answers the request alone. */
  predicate ServedStatically(req: Request) {
    req.staticFile && IsGet(req)
  }

  /** The DOS_ATTACK details: `${count} requests in 60 seconds`. */
  function DosDetails(count: nat): string {
    DecimalString(count) + " requests in 60 seconds"
  }

  /** The events logged by the route handler, or by the recon and 404 handlers, in order. */
  function RouteEvents(req: Request): (r: seq<Event>)
    ensures MatchRoute(req) != Unrouted ==> |r| <= 1
    ensures MatchRoute(req) != Unrouted ==>
      forall k :: 0 <= k < |r| ==> r[k].kind != ReconnaissanceScan && r[k].kind != NotFoundScan
    ensures MatchRoute(req) == Unrouted ==>
      && 1 <= |r| <= 2
      && r[|r| - 1] == Event(NotFoundScan, "Path: " + req.path)
      && (Detection.Reconnaissance(req.path) <==> |r| == 2)
      && (|r| == 2 ==> r[0] == Event(ReconnaissanceScan, "Path: " + req.path))
    ensures forall k :: 0 <= k < |r| ==> r[k].kind != DosAttack
  {
    match MatchRoute(req)
    case Home => []
    case Login =>
      if Detection.SqlInjection(req.username) then [Event(SqlInjection, "Username: " + req.username.value)] else []
    case Settings =>
      var name := Detection.SettingsName(req.name);
      if Detection.XssAttempt(name) then [Event(XssAttempt, "Payload: " + name)] else []
    case Upload =>
      if req.upload.Some? && Detection.MaliciousUpload(req.upload.value)
      then [Event(MaliciousFileUpload, "File: " + req.upload.value)] else []
    case Download =>
      if Detection.PathTraversal(req.file) then [Event(PathTraversal, "Attempted file: " + Interpolated(req.file.value))] else []
    case UserProfile(id) =>
      if Detection.IdorEnumeration(id) then [Event(IdorEnumeration, "User ID: " + id)] else []
    case Unrouted =>
      (if Detection.Reconnaissance(req.path) then [Event(ReconnaissanceScan, "Path: " + req.path)] else []) +
      [Event(NotFoundScan, "Path: " + req.path)]
  }

  /** The events of a request whose address has just reached `count` in this window. */
  function RequestEvents(req: Request, count: nat): (r: seq<Event>)
    ensures count > DosThreshold ==> |r| >= 1 && r[0] == Event(DosAttack, DosDetails(count))
    ensures forall k :: 0 < k < |r| ==> r[k].kind != DosAttack
    ensures count <= DosThreshold ==> forall k :: 0 <= k < |r| ==> r[k].kind != DosAttack
    ensures |r| <= 3
  {
    (if count > DosThreshold then [Event(DosAttack, DosDetails(count))] else []) + RouteEvents(req)
  }

  /** The counters and the events after one request. */
  datatype Outcome = Outcome(counts: map<string, nat>, events: seq<Event>)

  /**
   * One request against the current window's counters. A request the static
   * middleware serves, or one with no client address at all (the middleware's
   * `ip.replace` throws), changes nothing and logs nothing.
   */
  function Handle(counts: map<string, nat>, req: Request): (o: Outcome)
    ensures o.events != [] ==> ClientAddress(req).Some?
    ensures ServedStatically(req) || ClientAddress(req).None? ==> o == Outcome(counts, [])
    ensures !ServedStatically(req) && ClientAddress(req).Some? ==>
      var ip := CleanIp(ClientAddress(req).value);
      o.counts == Tally(counts, ip) && o.events == RequestEvents(req, Count(o.counts, ip))
  {
    if ServedStatically(req) || ClientAddress(req).None? then Outcome(counts, [])
    else
      var ip := CleanIp(ClientAddress(req).value);
      var next := Tally(counts, ip);
      Outcome(next, RequestEvents(req, Count(next, ip)))
  }

  /** How many of `events` have type `kind`. */
  function CountKind(events: seq<Event>, kind: AttackType): nat
    decreases |events|
  {
    if events == [] then 0
    else (if events[0].kind == kind then 1 else 0) + CountKind(events[1..], kind)
  }

  lemma {:induction false} CountKindConcat(a: seq<Event>, b: seq<Event>, kind: AttackType)
    ensures CountKind(a + b, kind) == CountKind(a, kind) + CountKind(b, kind)
    decreases |a|
  {
    if a == [] {
      assert a + b == b;
    } else {
      assert (a + b)[0] == a[0];
      assert (a + b)[1..] == a[1..] + b;
      CountKindConcat(a[1..], b, kind);
    }
  }

  /** The DoS event, if any, and then the route's events. */
  lemma {:induction false} RequestKinds(req: Request, count: nat, kind: AttackType)
    ensures CountKind(RequestEvents(req, count), kind) ==
      (if count > DosThreshold && kind == DosAttack then 1 else 0) + CountKind(RouteEvents(req), kind)
  {
    var dos := if count > DosThreshold then [Event(DosAttack, DosDetails(count))] else [];
    CountKindConcat(dos, RouteEvents(req), kind);
  }

  /** DOS_ATTACK is logged once exactly when the address's new count exceeds the threshold, on any route. */
  lemma {:induction false} DosLogged(req: Request, count: nat)
    ensures CountKind(RequestEvents(req, count), DosAttack) == if count > DosThreshold then 1 else 0
  {
    RequestKinds(req, count, DosAttack);
    NoDosInRoute(RouteEvents(req));
  }

  lemma {:induction false} NoDosInRoute(events: seq<Event>)
    requires forall k :: 0 <= k < |events| ==> events[k].kind != DosAttack
    ensures CountKind(events, DosAttack) == 0
    decreases |events|
  {
    if events != [] {
      NoDosInRoute(events[1..]);
    }
  }

  /** A login whose username carries `' OR 1=1 --` is logged as SQL injection, with the username in the details. */
  lemma {:induction false} LoginInjectionLogged(req: Request, count: nat, before: string, after: string)
    requires MatchRoute(req) == Login
    requires req.username == Some(before + "' OR 1=1 --" + after)
    ensures Event(SqlInjection, "Username: " + req.username.value) in RequestEvents(req, count)
  {
    var u := req.username.value;
    assert u[|before|] == '\'';
    Detection.SqlInjectionMetacharacters(u);
  }

  /** On the login route SQL_INJECTION is logged once when the rule fires, and never otherwise. */
  lemma {:induction false} LoginLogged(req: Request, count: nat)
    requires MatchRoute(req) == Login
    ensures CountKind(RequestEvents(req, count), SqlInjection) ==
      if Detection.SqlInjection(req.username) then 1 else 0
  {
    RequestKinds(req, count, SqlInjection);
  }

  /** On the settings page XSS_ATTEMPT is logged once when the name (or `Guest`) matches, and never otherwise. */
  lemma {:induction false} SettingsLogged(req: Request, count: nat)
    requires MatchRoute(req) == Settings
    ensures CountKind(RequestEvents(req, count), XssAttempt) ==
      if Detection.XssAttempt(Detection.SettingsName(req.name)) then 1 else 0
  {
    RequestKinds(req, count, XssAttempt);
  }

  /** An upload is logged at most once, exactly when a file came and its name has a denied extension. */
  lemma {:induction false} UploadLoggedOnce(req: Request, count: nat)
    requires MatchRoute(req) == Upload
    ensures CountKind(RequestEvents(req, count), MaliciousFileUpload) ==
      if req.upload.Some? && Detection.MaliciousUpload(req.upload.value) then 1 else 0
  {
    RequestKinds(req, count, MaliciousFileUpload);
  }

  /** A download is logged as PATH_TRAVERSAL once when the file parameter matches, and never otherwise. */
  lemma {:induction false} DownloadLogged(req: Request, count: nat)
    requires MatchRoute(req) == Download
    ensures CountKind(RequestEvents(req, count), PathTraversal) ==
      if Detection.PathTraversal(req.file) then 1 else 0
  {
    RequestKinds(req, count, PathTraversal);
  }

  /** A user lookup is logged as IDOR_ENUMERATION once when the id parses above the threshold. */
  lemma {:induction false} UserLogged(req: Request, count: nat, id: string)
    requires MatchRoute(req) == UserProfile(id)
    ensures CountKind(RequestEvents(req, count), IdorEnumeration) ==
      if Detection.IdorEnumeration(id) then 1 else 0
  {
    RequestKinds(req, count, IdorEnumeration);
  }

  /**
   * A request no route handled is always logged as 404_SCAN, once, and as
   * RECONNAISSANCE_SCAN once before it when its path is suspicious; a routed
   * request gets neither.
   */
  lemma {:induction false} UnroutedLogged(req: Request, count: nat)
    ensures CountKind(RequestEvents(req, count), NotFoundScan) ==
      if MatchRoute(req) == Unrouted then 1 else 0
    ensures CountKind(RequestEvents(req, count), ReconnaissanceScan) ==
      if MatchRoute(req) == Unrouted && Detection.Reconnaissance(req.path) then 1 else 0
  {
    RequestKinds(req, count, NotFoundScan);
    RequestKinds(req, count, ReconnaissanceScan);
    var r := RouteEvents(req);
    if |r| == 2 {
      assert r == [r[0], r[1]];
      CountKindPair(r[0], r[1], NotFoundScan);
      CountKindPair(r[0], r[1], ReconnaissanceScan);
    } else if r != [] {
      assert r[1..] == [];
    }
  }

  // ---------------------------------------------------------------------------
  // A window of requests
  // ---------------------------------------------------------------------------

  /** The cleaned address a request is counted under, when it reaches the counter at all. */
  function Sender(req: Request): (r: Option<string>)
    ensures r.Some? <==> !ServedStatically(req) && ClientAddress(req).Some?
  {
    if ServedStatically(req) || ClientAddress(req).None? then None
    else Some(CleanIp(ClientAddress(req).value))
  }

  /** The counters after `Handle` has seen the requests `reqs`, in order, within one window. */
  function RunCounts(counts: map<string, nat>, reqs: seq<Request>): map<string, nat>
    decreases |reqs|
  {
    if reqs == [] then counts else Handle(RunCounts(counts, reqs[..|reqs| - 1]), reqs[|reqs| - 1]).counts
  }

  /** The addresses the counter sees for `reqs`, in order. */
  function CountedAddresses(reqs: seq<Request>): seq<string>
    decreases |reqs|
  {
    if reqs == [] then []
    else
      var last := reqs[|reqs| - 1];
      CountedAddresses(reqs[..|reqs| - 1]) + (if Sender(last).Some? then [Sender(last).value] else [])
  }

  /** The DOS_ATTACK events `Handle` logs for requests counted under address `a` during `reqs`. */
  function DosEventsOfRun(counts: map<string, nat>, reqs: seq<Request>, a: string): nat
    decreases |reqs|
  {
    if reqs == [] then 0
    else
      var init := reqs[..|reqs| - 1];
      var last := reqs[|reqs| - 1];
      DosEventsOfRun(counts, init, a) +
      (if Sender(last) == Some(a) then CountKind(Handle(RunCounts(counts, init), last).events, DosAttack) else 0)
  }

  /** Folding `Handle` over a window counts exactly the addresses of the requests that reach the counter. */
  lemma {:induction false} RunCountsAfterHits(counts: map<string, nat>, reqs: seq<Request>)
    ensures RunCounts(counts, reqs) == AfterHits(counts, CountedAddresses(reqs))
    decreases |reqs|
  {
    if reqs != [] {
      var init := reqs[..|reqs| - 1];
      var last := reqs[|reqs| - 1];
      RunCountsAfterHits(counts, init);
      if Sender(last).Some? {
        var ips := CountedAddresses(reqs);
        assert ips[..|ips| - 1] == CountedAddresses(init);
      } else {
        assert CountedAddresses(init) + [] == CountedAddresses(init);
        assert RunCounts(counts, reqs) == RunCounts(counts, init);
      }
    }
  }

  /**
   * The DOS_ATTACK events that `Handle` logs for address `a` over a window are
   * the ones the counter model predicts for the counted addresses.
   */
  lemma {:induction false} RunDosEvents(counts: map<string, nat>, reqs: seq<Request>, a: string)
    ensures DosEventsOfRun(counts, reqs, a) == DosEvents(counts, CountedAddresses(reqs), a)
    decreases |reqs|
  {
    if reqs != [] {
      var init := reqs[..|reqs| - 1];
      var last := reqs[|reqs| - 1];
      RunDosEvents(counts, init, a);
      RunCountsAfterHits(counts, init);
      match Sender(last)
      case None =>
        assert CountedAddresses(init) + [] == CountedAddresses(init);
      case Some(ip) =>
        RunDosCounted(counts, reqs, a, ip);
    }
  }

  /** The step of `RunDosEvents` for a last request that reaches the counter. */
  lemma {:induction false} RunDosCounted(counts: map<string, nat>, reqs: seq<Request>, a: string, ip: string)
    requires reqs != [] && Sender(reqs[|reqs| - 1]) == Some(ip)
    requires DosEventsOfRun(counts, reqs[..|reqs| - 1], a) == DosEvents(counts, CountedAddresses(reqs[..|reqs| - 1]), a)
    requires RunCounts(counts, reqs[..|reqs| - 1]) == AfterHits(counts, CountedAddresses(reqs[..|reqs| - 1]))
    ensures DosEventsOfRun(counts, reqs, a) == DosEvents(counts, CountedAddresses(reqs), a)
  {
    var init := reqs[..|reqs| - 1];
    var ips := CountedAddresses(reqs);
    assert ips[..|ips| - 1] == CountedAddresses(init) && ips[|ips| - 1] == ip;
    HandleDos(RunCounts(counts, init), reqs[|reqs| - 1], ip);
  }

  /** One counted request logs DOS_ATTACK once exactly when its address's new count exceeds the threshold. */
  lemma {:induction false} HandleDos(before: map<string, nat>, req: Request, ip: string)
    requires Sender(req) == Some(ip)
    ensures CountKind(Handle(before, req).events, DosAttack) == if Count(before, ip) + 1 > DosThreshold then 1 else 0
  {
    DosLogged(req, Count(Tally(before, ip), ip));
  }

  /**
   * From a fresh window, the requests counted under `a` give one DOS_ATTACK event
   * for each request past the hundredth: 101 give one event, 102 give two.
   */
  lemma {:induction false} RunDosFromReset(reqs: seq<Request>, a: string)
    ensures DosEventsOfRun(map[], reqs, a) == Excess(Occurrences(CountedAddresses(reqs), a))
    ensures Occurrences(CountedAddresses(reqs), a) == 101 ==> DosEventsOfRun(map[], reqs, a) == 1
    ensures Occurrences(CountedAddresses(reqs), a) == 102 ==> DosEventsOfRun(map[], reqs, a) == 2
  {
    RunDosEvents(map[], reqs, a);
    DosEventsFromReset(CountedAddresses(reqs), a);
  }

  lemma {:induction false} CountKindPair(a: Event, b: Event, kind: AttackType)
    ensures CountKind([a, b], kind) == (if a.kind == kind then 1 else 0) + (if b.kind == kind then 1 else 0)
  {
    assert [a, b][1..] == [b];
    assert [b][1..] == [];
    assert CountKind([b], kind) == (if b.kind == kind then 1 else 0) + CountKind([], kind);
  }
}
