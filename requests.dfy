/**
 * The request descriptor of the monitored application (target/server.js) and
 * the request-derived values every attack record carries: the client address,
 * its cleaned form, and the user agent.
 */
module Requests {

  import opened Wrappers
  import opened Text

  /**
   * A query parameter as Express parses it: one value, or the values of a
   * parameter given more than once (`?file=a&file=b`), which arrive as an array.
   */
  datatype QueryValue = Single(text: string) | Repeated(items: seq<string>)

  /** The value as a template literal prints it: an array's items joined with commas. */
  function Interpolated(v: QueryValue): string {
    match v
    case Single(s) => s
    case Repeated(xs) => Join(xs, ',')
  }

  /** What the application's handlers read from one inbound request. */
  datatype Request = Request(
    verb: string,                  // req.method
    url: string,                   // req.url: path and query string
    path: string,                  // req.path: the path alone
    forwardedFor: Option<string>,  // the x-forwarded-for header
    remoteAddress: Option<string>, // req.connection.remoteAddress
    ip: Option<string>,            // req.ip
    userAgent: Option<string>,     // the user-agent header
    username: Option<string>,      // req.body.username
    name: Option<string>,          // req.query.name
    file: Option<QueryValue>,      // req.query.file
    upload: Option<string>,        // req.file.originalname of the 'avatar' part, if one was sent
    staticFile: bool)              // the public/ directory holds a file for this path

  /** A JavaScript value of string type that is truthy: present and not empty. */
  predicate Truthy(v: Option<string>) {
    v.Some? && v.value != ""
  }

  /**
   * `req.headers['x-forwarded-for'] || req.connection.remoteAddress || req.ip`:
   * the first truthy source, else `req.ip` whatever it is (`None` is `undefined`).
   */
  function ClientAddress(req: Request): (r: Option<string>)
    ensures r.Some? && r.value != "" ==> r == req.forwardedFor || r == req.remoteAddress || r == req.ip
    ensures r.None? ==> !Truthy(req.forwardedFor) && !Truthy(req.remoteAddress) && req.ip.None?
    ensures Truthy(req.forwardedFor) ==> r == req.forwardedFor
    ensures !Truthy(req.forwardedFor) && Truthy(req.remoteAddress) ==> r == req.remoteAddress
    ensures !Truthy(req.forwardedFor) && !Truthy(req.remoteAddress) ==> r == req.ip
  {
    if Truthy(req.forwardedFor) then req.forwardedFor
    else if Truthy(req.remoteAddress) then req.remoteAddress
    else req.ip
  }

  /** The IPv4-mapped IPv6 marker that `ip.replace('::ffff:', '')` removes. */
  const MappedPrefix := "::ffff:"

  /** `ip.replace('::ffff:', '')`: the first occurrence of the marker, wherever it is, is removed. */
  function CleanIp(ip: string): (r: string)
    ensures !Contains(ip, MappedPrefix) ==> r == ip
    ensures Contains(ip, MappedPrefix) ==> |r| == |ip| - |MappedPrefix|
    ensures Contains(ip, MappedPrefix) ==>
      exists i :: OccursAt(ip, MappedPrefix, i) && (forall j :: 0 <= j < i ==> !OccursAt(ip, MappedPrefix, j)) &&
        r == ip[..i] + ip[i + |MappedPrefix|..]
  {
    RemoveFirst(ip, MappedPrefix)
  }

  /** An IPv4-mapped IPv6 address is cleaned to the embedded address, whatever follows the marker. */
  lemma {:induction false} CleanMappedAddress(v4: string)
    ensures CleanIp(MappedPrefix + v4) == v4
  {
    var s := MappedPrefix + v4;
    assert OccursAt(s, MappedPrefix, 0) by {
      assert s[0..|MappedPrefix|] == MappedPrefix;
    }
    assert s[|MappedPrefix|..] == v4;
  }

  /** Only one marker is ever removed. */
  lemma {:induction false} CleanIpOnce(ip: string)
    ensures CleanIp(MappedPrefix + MappedPrefix + ip) == MappedPrefix + ip
  {
    assert MappedPrefix + MappedPrefix + ip == MappedPrefix + (MappedPrefix + ip);
    CleanMappedAddress(MappedPrefix + ip);
  }

  /**
   * The marker is not anchored at the start: after text without a colon (a
   * proxy's list of IPv4 addresses, say) it is cut out of the middle.
   */
  lemma {:induction false} CleanIpAfterText(before: string, after: string)
    requires ':' !in before
    ensures CleanIp(before + MappedPrefix + after) == before + after
  {
    var s := before + MappedPrefix + after;
    var i := |before|;
    assert s[i..i + |MappedPrefix|] == MappedPrefix;
    forall j | 0 <= j < i
      ensures !OccursAt(s, MappedPrefix, j)
    {
      assert s[j] == before[j];
    }
    RemoveFirstAt(s, MappedPrefix, i);
    assert s[..i] == before && s[i + |MappedPrefix|..] == after;
  }

  /** `req.get('user-agent') || 'Unknown'`. */
  function UserAgent(req: Request): (r: string)
    ensures r != ""
    ensures Truthy(req.userAgent) ==> r == req.userAgent.value
    ensures !Truthy(req.userAgent) ==> r == "Unknown"
  {
    if Truthy(req.userAgent) then req.userAgent.value else "Unknown"
  }
}
