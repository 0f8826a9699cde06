/**
 * The attack event record that `logAttack` builds (target/server.js): the
 * closed set of event types, the geo enrichment with its defaults, and the
 * record itself.
 */
module AttackRecords {

  import opened Wrappers
  import opened Requests

  datatype AttackType =
    | DosAttack
    | SqlInjection
    | XssAttempt
    | MaliciousFileUpload
    | PathTraversal
    | IdorEnumeration
    | ReconnaissanceScan
    | NotFoundScan

  /** The `type` string written to the log for each event type. */
  function TypeName(t: AttackType): (name: string)
    ensures |name| >= 8
  {
    match t
    case DosAttack => "DOS_ATTACK"
    case SqlInjection => "SQL_INJECTION"
    case XssAttempt => "XSS_ATTEMPT"
    case MaliciousFileUpload => "MALICIOUS_FILE_UPLOAD"
    case PathTraversal => "PATH_TRAVERSAL"
    case IdorEnumeration => "IDOR_ENUMERATION"
    case ReconnaissanceScan => "RECONNAISSANCE_SCAN"
    case NotFoundScan => "404_SCAN"
  }

  /** Different event types are logged under different names. */
  lemma {:induction false} TypeNameInjective(s: AttackType, t: AttackType)
    requires TypeName(s) == TypeName(t)
    ensures s == t
  {
    assert TypeName(s)[0..2] == TypeName(t)[0..2];
  }

  /** One `logAttack(type, req, details)` call, before the record is built. */
  datatype Event = Event(kind: AttackType, details: string)

  /** Coordinates; the lookup's floating-point degrees are modelled as integers. */
  datatype LatLon = LatLon(lat: int, lon: int)

  /** What `geoip.lookup(ip)` returns on a hit: fields may be empty, `ll` may be missing. */
  datatype GeoHit = GeoHit(country: string, city: string, ll: Option<LatLon>)

  /** The `geo` object of a record. */
  datatype Geo = Geo(country: string, city: string, ll: LatLon)

  const UnknownGeo := Geo("Unknown", "Unknown", LatLon(0, 0))

  datatype AttackRecord = AttackRecord(
    timestamp: string,
    kind: AttackType,
    ip: string,
    verb: string,
    url: string,
    userAgent: string,
    details: string,
    geo: Geo)

  /**
   * `geoip.lookup(ip) || {}` then `country || 'Unknown'`, `city || 'Unknown'`,
   * `ll || [0, 0]`: a miss is never an error, only a missing enrichment.
   */
  function GeoOf(hit: Option<GeoHit>): (g: Geo)
    ensures g.country != "" && g.city != ""
    ensures hit.None? ==> g == UnknownGeo
    ensures hit.Some? ==> (hit.value.country != "" <==> g.country == hit.value.country)
    ensures hit.Some? ==> (hit.value.city != "" <==> g.city == hit.value.city)
    ensures hit.Some? && hit.value.country == "" ==> g.country == "Unknown"
    ensures hit.Some? && hit.value.city == "" ==> g.city == "Unknown"
    ensures hit.Some? && hit.value.ll.Some? ==> g.ll == hit.value.ll.value
    ensures (hit.None? || hit.value.ll.None?) ==> g.ll == LatLon(0, 0)
  {
    match hit
    case None => UnknownGeo
    case Some(h) =>
      Geo(if h.country != "" then h.country else "Unknown",
          if h.city != "" then h.city else "Unknown",
          h.ll.GetOr(LatLon(0, 0)))
  }

  /**
   * The record `logAttack` writes. `now` is the clock reading behind
   * `new Date().toISOString()`; `lookup` stands for `geoip.lookup`. The source
   * computes the address itself and fails on `undefined`, which the request
   * middleware has already ruled out before any event is logged.
   */
  function BuildRecord(kind: AttackType, req: Request, details: string, now: string,
                       lookup: string -> Option<GeoHit>): (r: AttackRecord)
    requires ClientAddress(req).Some?
    ensures r.kind == kind && r.details == details && r.timestamp == now
    ensures r.verb == req.verb && r.url == req.url
    ensures r.ip == CleanIp(ClientAddress(req).value)
    ensures r.userAgent != "" && r.geo.country != "" && r.geo.city != ""
    ensures r.userAgent == UserAgent(req) && r.geo == GeoOf(lookup(r.ip))
    ensures lookup(r.ip).None? ==> r.geo == UnknownGeo
  {
    var ip := CleanIp(ClientAddress(req).value);
    AttackRecord(now, kind, ip, req.verb, req.url, UserAgent(req), details, GeoOf(lookup(ip)))
  }
}
