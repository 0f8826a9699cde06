/**
 * The monitored application (target/server.js) as a stateful object: the
 * request counter of the current window and the attack log it appends to.
 * A request runs the middleware and handlers in the order Express calls them,
 * and every event becomes one JSON line at the end of the log.
 */
module TargetApp {

  import opened Wrappers
  import opened Text
  import opened Requests
  import opened AttackRecords
  import opened JsonLine
  import opened RequestCounting
  import opened Dispatch
  import Detection

  /** The records `logAttack` builds for `events`, in order, all read off one clock value. */
  function Records(events: seq<Event>, req: Request, now: string, lookup: string -> Option<GeoHit>): (rs: seq<AttackRecord>)
    requires events == [] || ClientAddress(req).Some?
    ensures |rs| == |events|
    ensures forall k :: 0 <= k < |rs| ==>
      && rs[k].kind == events[k].kind && rs[k].details == events[k].details
      && rs[k].ip == CleanIp(ClientAddress(req).value) && rs[k].timestamp == now
  {
    seq(|events|, k requires 0 <= k < |events| => BuildRecord(events[k].kind, req, events[k].details, now, lookup))
  }

  /** The log lines of `records`. */
  function Serialized(records: seq<AttackRecord>): (ls: seq<string>)
    ensures |ls| == |records|
    ensures forall k :: 0 <= k < |ls| ==> IsLogLine(ls[k]) && |ls[k]| >= MinRecordLength
  {
    seq(|records|, k requires 0 <= k < |records| => Serialize(records[k]))
  }

  lemma {:induction false} RecordsSnoc(events: seq<Event>, e: Event, req: Request, now: string, lookup: string -> Option<GeoHit>)
    requires ClientAddress(req).Some?
    ensures Records(events + [e], req, now, lookup) ==
      Records(events, req, now, lookup) + [BuildRecord(e.kind, req, e.details, now, lookup)]
  {
  }

  lemma {:induction false} SerializedSnoc(records: seq<AttackRecord>, r: AttackRecord)
    ensures Serialized(records + [r]) == Serialized(records) + [Serialize(r)]
  {
  }

  /** Every line is one serialised record: a single non-blank line of at least the minimum length. */
  predicate RecordLines(ls: seq<string>)
    decreases |ls|
  {
    ls == [] ||
    (RecordLines(ls[..|ls| - 1]) && IsLogLine(ls[|ls| - 1]) && |ls[|ls| - 1]| >= MinRecordLength)
  }

  lemma {:induction false} RecordLinesSnoc(ls: seq<string>, r: AttackRecord)
    requires RecordLines(ls)
    ensures RecordLines(ls + [Serialize(r)])
  {
    assert (ls + [Serialize(r)])[..|ls|] == ls;
  }

  /** Each line of a log of records is a single non-blank line of at least the minimum length. */
  lemma {:induction false} RecordLinesEach(ls: seq<string>)
    requires RecordLines(ls)
    ensures forall k :: 0 <= k < |ls| ==> IsLogLine(ls[k]) && |ls[k]| >= MinRecordLength
    decreases |ls|
  {
    if ls != [] {
      var init := ls[..|ls| - 1];
      RecordLinesEach(init);
      forall k | 0 <= k < |init|
        ensures ls[k] == init[k]
      {
      }
    }
  }

  /** Appending one line's text to a log of complete lines gives the log of one more line. */
  lemma {:induction false} AppendLine(initial: string, ls: seq<string>, line: string, log: string)
    requires log == initial + Lines(ls)
    ensures log + Lines([line]) == initial + Lines(ls + [line])
  {
    LinesConcat(ls, [line]);
  }

  /** A log of complete lines that grew by `more` lines grew by their text. */
  lemma {:induction false} AppendLines(initial: string, ls: seq<string>, more: seq<string>)
    ensures initial + Lines(ls + more) == (initial + Lines(ls)) + Lines(more)
  {
    LinesConcat(ls, more);
  }

  lemma {:induction false} UnroutedEvents(req: Request)
    requires MatchRoute(req) == Unrouted
    ensures RouteEvents(req) ==
      (if Detection.Reconnaissance(req.path) then [Event(ReconnaissanceScan, "Path: " + req.path)] else []) +
      [Event(NotFoundScan, "Path: " + req.path)]
  {
  }

  lemma {:induction false} SnocAssociates<T>(a: seq<T>, b: seq<T>, x: T)
    ensures (a + b) + [x] == a + (b + [x])
  {
  }

  class TargetServer {
    /** `requestCounts`, emptied by the window timer. */
    const counter: RequestCounter
    /** The contents of the attack log file before this process appended to it. */
    const initialLog: string
    /** The contents of the attack log file. */
    var attackLog: string
    /** The lines this process has appended, oldest first. */
    ghost var lines: seq<string>

    /** The log is what was there plus one well-formed JSON line per event logged. */
    ghost predicate Valid()
      reads this
    {
      && attackLog == initialLog + Lines(lines)
      && RecordLines(lines)
    }

    constructor (existing: string)
      ensures Valid() && fresh(counter) && counter.counts == map[]
      ensures attackLog == existing && lines == []
    {
      counter := new RequestCounter();
      initialLog := existing;
      attackLog := existing;
      lines := [];
    }

    /** `logAttack(type, req, details)`: one record, appended as one line. */
    method LogAttack(kind: AttackType, req: Request, details: string, now: string,
                     lookup: string -> Option<GeoHit>) returns (record: AttackRecord)
      requires Valid() && ClientAddress(req).Some?
      modifies this
      ensures Valid()
      ensures record == BuildRecord(kind, req, details, now, lookup)
      ensures lines == old(lines) + [Serialize(record)]
      ensures attackLog == old(attackLog) + LogLine(record)
    {
      record := BuildRecord(kind, req, details, now, lookup);
      AppendLine(initialLog, lines, Serialize(record), attackLog);
      RecordLinesSnoc(lines, record);
      attackLog := attackLog + LogLine(record);
      lines := lines + [Serialize(record)];
    }

    /**
     * Within one request: the log holds the lines of `start` and then one line
     * per record emitted so far, and those records are the ones built for
     * `events`.
     */
    ghost predicate Logged(start: seq<string>, events: seq<Event>, emitted: seq<AttackRecord>,
                           req: Request, now: string, lookup: string -> Option<GeoHit>)
      reads this
    {
      && Valid() && ClientAddress(req).Some?
      && emitted == Records(events, req, now, lookup)
      && lines == start + Serialized(emitted)
    }

    /** Logs `e` and extends the records of the events logged so far in this request. */
    method Report(e: Event, req: Request, now: string, lookup: string -> Option<GeoHit>,
                  ghost start: seq<string>, ghost logged: seq<Event>, emitted: seq<AttackRecord>)
      returns (ghost logged': seq<Event>, emitted': seq<AttackRecord>)
      requires Logged(start, logged, emitted, req, now, lookup)
      modifies this
      ensures Logged(start, logged', emitted', req, now, lookup) && logged' == logged + [e]
    {
      var r := LogAttack(e.kind, req, e.details, now, lookup);
      RecordsSnoc(logged, e, req, now, lookup);
      SerializedSnoc(emitted, r);
      SnocAssociates(start, Serialized(emitted), Serialize(r));
      logged', emitted' := logged + [e], emitted + [r];
    }

    /** `POST /login`: a username matching an injection pattern is logged. */
    method LoginRoute(req: Request, now: string, lookup: string -> Option<GeoHit>,
                      ghost start: seq<string>, ghost before: seq<Event>, emitted: seq<AttackRecord>)
      returns (ghost logged: seq<Event>, emitted': seq<AttackRecord>)
      requires MatchRoute(req) == Login && Logged(start, before, emitted, req, now, lookup)
      modifies this
      ensures Logged(start, logged, emitted', req, now, lookup) && logged == before + RouteEvents(req)
    {
      logged, emitted' := before, emitted;
      if Detection.SqlInjection(req.username) {
        var e := Event(SqlInjection, "Username: " + req.username.value);
        logged, emitted' := Report(e, req, now, lookup, start, logged, emitted');
      }
    }

    /** `GET /settings`: a name with a script tag or an event handler is logged. */
    method SettingsRoute(req: Request, now: string, lookup: string -> Option<GeoHit>,
                         ghost start: seq<string>, ghost before: seq<Event>, emitted: seq<AttackRecord>)
      returns (ghost logged: seq<Event>, emitted': seq<AttackRecord>)
      requires MatchRoute(req) == Settings && Logged(start, before, emitted, req, now, lookup)
      modifies this
      ensures Logged(start, logged, emitted', req, now, lookup) && logged == before + RouteEvents(req)
    {
      logged, emitted' := before, emitted;
      var name := Detection.SettingsName(req.name);
      if Detection.XssAttempt(name) {
        logged, emitted' := Report(Event(XssAttempt, "Payload: " + name), req, now, lookup, start, logged, emitted');
      }
    }

    /** `POST /upload`: an uploaded file with a denied extension is logged. */
    method UploadRoute(req: Request, now: string, lookup: string -> Option<GeoHit>,
                       ghost start: seq<string>, ghost before: seq<Event>, emitted: seq<AttackRecord>)
      returns (ghost logged: seq<Event>, emitted': seq<AttackRecord>)
      requires MatchRoute(req) == Upload && Logged(start, before, emitted, req, now, lookup)
      modifies this
      ensures Logged(start, logged, emitted', req, now, lookup) && logged == before + RouteEvents(req)
    {
      logged, emitted' := before, emitted;
      if req.upload.Some? && Detection.MaliciousUpload(req.upload.value) {
        var e := Event(MaliciousFileUpload, "File: " + req.upload.value);
        logged, emitted' := Report(e, req, now, lookup, start, logged, emitted');
      }
    }

    /** `GET /download`: a file parameter with `..` is logged. */
    method DownloadRoute(req: Request, now: string, lookup: string -> Option<GeoHit>,
                         ghost start: seq<string>, ghost before: seq<Event>, emitted: seq<AttackRecord>)
      returns (ghost logged: seq<Event>, emitted': seq<AttackRecord>)
      requires MatchRoute(req) == Download && Logged(start, before, emitted, req, now, lookup)
      modifies this
      ensures Logged(start, logged, emitted', req, now, lookup) && logged == before + RouteEvents(req)
    {
      logged, emitted' := before, emitted;
      if Detection.PathTraversal(req.file) {
        var e := Event(PathTraversal, "Attempted file: " + Interpolated(req.file.value));
        logged, emitted' := Report(e, req, now, lookup, start, logged, emitted');
      }
    }

    /** `GET /api/user/:id`: an id above the threshold is logged. */
    method UserRoute(req: Request, id: string, now: string, lookup: string -> Option<GeoHit>,
                     ghost start: seq<string>, ghost before: seq<Event>, emitted: seq<AttackRecord>)
      returns (ghost logged: seq<Event>, emitted': seq<AttackRecord>)
      requires MatchRoute(req) == UserProfile(id) && Logged(start, before, emitted, req, now, lookup)
      modifies this
      ensures Logged(start, logged, emitted', req, now, lookup) && logged == before + RouteEvents(req)
    {
      logged, emitted' := before, emitted;
      if Detection.IdorEnumeration(id) {
        logged, emitted' := Report(Event(IdorEnumeration, "User ID: " + id), req, now, lookup, start, logged, emitted');
      }
    }

    /** The reconnaissance middleware and then the 404 handler, for a request no route took. */
    method Unhandled(req: Request, now: string, lookup: string -> Option<GeoHit>,
                     ghost start: seq<string>, ghost before: seq<Event>, emitted: seq<AttackRecord>)
      returns (ghost logged: seq<Event>, emitted': seq<AttackRecord>)
      requires MatchRoute(req) == Unrouted && Logged(start, before, emitted, req, now, lookup)
      modifies this
      ensures Logged(start, logged, emitted', req, now, lookup) && logged == before + RouteEvents(req)
    {
      logged, emitted' := before, emitted;
      if Detection.Reconnaissance(req.path) {
        var e := Event(ReconnaissanceScan, "Path: " + req.path);
        logged, emitted' := Report(e, req, now, lookup, start, logged, emitted');
      }
      ghost var recon := if Detection.Reconnaissance(req.path) then [Event(ReconnaissanceScan, "Path: " + req.path)] else [];
      assert logged == before + recon;
      var notFound := Event(NotFoundScan, "Path: " + req.path);
      logged, emitted' := Report(notFound, req, now, lookup, start, logged, emitted');
      SnocAssociates(before, recon, notFound);
      UnroutedEvents(req);
    }

    /** The route handler that matches, or the reconnaissance check and the 404 handler when none does. */
    method RouteHandlers(req: Request, now: string, lookup: string -> Option<GeoHit>,
                         ghost start: seq<string>, ghost before: seq<Event>, emitted: seq<AttackRecord>)
      returns (ghost logged: seq<Event>, emitted': seq<AttackRecord>)
      requires Logged(start, before, emitted, req, now, lookup)
      modifies this
      ensures Logged(start, logged, emitted', req, now, lookup) && logged == before + RouteEvents(req)
    {
      match MatchRoute(req) {
        case Home =>
          logged, emitted' := before, emitted;
          assert RouteEvents(req) == [];
        case Login =>
          logged, emitted' := LoginRoute(req, now, lookup, start, before, emitted);
        case Settings =>
          logged, emitted' := SettingsRoute(req, now, lookup, start, before, emitted);
        case Upload =>
          logged, emitted' := UploadRoute(req, now, lookup, start, before, emitted);
        case Download =>
          logged, emitted' := DownloadRoute(req, now, lookup, start, before, emitted);
        case UserProfile(id) =>
          logged, emitted' := UserRoute(req, id, now, lookup, start, before, emitted);
        case Unrouted =>
          logged, emitted' := Unhandled(req, now, lookup, start, before, emitted);
      }
    }

    /**
     * One request through the middleware chain and the handlers. The counters
     * change as `Handle` says, and the log grows by exactly the lines of the
     * events `Handle` lists, in that order.
     */
    method HandleRequest(req: Request, now: string, lookup: string -> Option<GeoHit>)
      returns (emitted: seq<AttackRecord>)
      requires Valid()
      modifies this, counter
      ensures Valid()
      ensures var o := Handle(old(counter.counts), req);
        counter.counts == o.counts && emitted == Records(o.events, req, now, lookup)
      ensures lines == old(lines) + Serialized(emitted)
      ensures attackLog == old(attackLog) + Lines(Serialized(emitted))
    {
      emitted := [];
      if ServedStatically(req) {
        return;
      }
      var address := ClientAddress(req);
      if address.None? {
        // `ip.replace` on `undefined` throws before any handler runs
        return;
      }
      ghost var start := lines;
      ghost var logged: seq<Event> := [];
      var count := counter.Hit(CleanIp(address.value));
      if count > DosThreshold {
        logged, emitted := Report(Event(DosAttack, DosDetails(count)), req, now, lookup, start, logged, emitted);
      }
      ghost var dos := logged;
      assert dos == if count > DosThreshold then [Event(DosAttack, DosDetails(count))] else [];
      logged, emitted := RouteHandlers(req, now, lookup, start, logged, emitted);
      assert logged == dos + RouteEvents(req);
      assert logged == RequestEvents(req, count);
      AppendLines(initialLog, start, Serialized(emitted));
    }

    /** The window timer: every address starts the next window at zero. */
    method ResetWindow()
      modifies counter
      ensures counter.counts == map[]
    {
      counter.Reset();
    }
  }
}
