/**
 * `JSON.stringify(attackLog) + '\n'`: the text of one log line, with the key
 * order of the record literal in target/server.js and JSON string escaping.
 */
module JsonLine {

  import opened Text
  import opened JsNumber
  import opened AttackRecords

  function HexDigit(d: nat): char
    requires d < 16
  {
    if d < 10 then ('0' as int + d) as char else ('a' as int + d - 10) as char
  }

  /** How `JSON.stringify` writes one character inside a string literal. */
  function EscapeChar(c: char): (r: string)
    ensures |r| >= 1 && '\n' !in r
    ensures r == [c] <==> c != '"' && c != '\\' && c as int >= 0x20
  {
    var n := c as int;
    if c == '"' then "\\\""
    else if c == '\\' then "\\\\"
    else if n == 0x08 then "\\b"
    else if n == 0x0C then "\\f"
    else if c == '\n' then "\\n"
    else if c == '\r' then "\\r"
    else if c == '\t' then "\\t"
    else if n < 0x20 then "\\u00" + [HexDigit(n / 16), HexDigit(n % 16)]
    else [c]
  }

  function Escape(s: string): (r: string)
    ensures '\n' !in r
    ensures |r| >= |s|
    decreases |s|
  {
    if s == [] then [] else EscapeChar(s[0]) + Escape(s[1..])
  }

  /** A JSON string literal. */
  function Quote(s: string): (r: string)
    ensures '\n' !in r && |r| >= |s| + 2 && r[0] == '"'
  {
    "\"" + Escape(s) + "\""
  }

  /** `"key":value` inside an object; the record's keys are plain names that need no escaping. */
  function Member(key: string, value: string): (t: string)
    requires '\n' !in key && '\n' !in value
    ensures '\n' !in t && |t| == |key| + 3 + |value|
  {
    "\"" + key + "\":" + value
  }

  /** Two pieces of an object or array separated by a comma. */
  function Comma(a: string, b: string): (t: string)
    requires '\n' !in a && '\n' !in b
    ensures '\n' !in t && |t| == |a| + 1 + |b|
  {
    a + "," + b
  }

  /** Braces around the members of an object. */
  function Braces(members: string): (t: string)
    requires '\n' !in members
    ensures '\n' !in t && |t| == |members| + 2 && t[0] == '{'
  {
    "{" + members + "}"
  }

  /** The fewest characters a serialised record can have: its fixed keys and punctuation. */
  const MinRecordLength := 125

  /** The `geo` object of a record. */
  function GeoJson(g: Geo): (t: string)
    ensures '\n' !in t && |t| >= 35
  {
    var ll := "[" + Comma(IntString(g.ll.lat), IntString(g.ll.lon)) + "]";
    Braces(Comma(Member("country", Quote(g.country)), Comma(Member("city", Quote(g.city)), Member("ll", ll))))
  }

  /** The members `timestamp`, `type`, `ip` and `method`, in that order. */
  function LeadingMembers(r: AttackRecord): (t: string)
    ensures '\n' !in t && |t| >= 52
  {
    var timestamp := Member("timestamp", Quote(r.timestamp));
    var kind := Member("type", Quote(TypeName(r.kind)));
    var ip := Member("ip", Quote(r.ip));
    var verb := Member("method", Quote(r.verb));
    Comma(timestamp, Comma(kind, Comma(ip, verb)))
  }

  /** The members `url`, `userAgent`, `details` and `geo`, in that order. */
  function TrailingMembers(r: AttackRecord): (t: string)
    ensures '\n' !in t && |t| >= 78
  {
    var url := Member("url", Quote(r.url));
    var agent := Member("userAgent", Quote(r.userAgent));
    var details := Member("details", Quote(r.details));
    var geo := Member("geo", GeoJson(r.geo));
    Comma(url, Comma(agent, Comma(details, geo)))
  }

  /** `JSON.stringify(record)`: one JSON object on one line, keys in the order of the record literal. */
  function Serialize(r: AttackRecord): (line: string)
    ensures IsLogLine(line) && line[0] == '{'
    ensures |line| >= MinRecordLength
  {
    var text := Braces(Comma(LeadingMembers(r), TrailingMembers(r)));
    assert !IsJsSpace(text[0]);
    text
  }

  /** What `logAttack` appends to the log for one record. */
  function LogLine(r: AttackRecord): (text: string)
    ensures text == Lines([Serialize(r)])
  {
    var line := Serialize(r);
    LinesSingle(line);
    line + "\n"
  }
}
