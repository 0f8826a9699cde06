# Attack-event pipeline, modelled in Dafny

This project models the attack-event pipeline of a two-server security demo:

- **The monitored application** (`target/server.js`). An Express app that:
  - counts requests per client address for denial-of-service detection;
  - runs one route handler per request: login, settings, upload, download or user lookup, each with its own detection rule;
  - sends requests no route handled to a reconnaissance check and a 404 handler;
  - appends one JSON line per detected event to `attacks.jsonl`, with `logAttack`.
- **The security dashboard** (`soc-dashboard/server.js`):
  - tails that log file every few seconds (`watchAttackLogs`) and submits lines to a search index;
  - answers `/api/attacks` and `/api/stats` from the index.

Module layout:

| module | file | what it holds |
|---|---|---|
| `Wrappers` | `wrappers.dfy` | `Option` |
| `Text` | `text.dfy` | JavaScript string operations: `includes`, `endsWith`, `replace` with a string pattern, `trim`, `split`, ASCII case mapping, `filter`, and the UTF-8 size that `statSync` reports |
| `JsNumber` | `js_number.dfy` | `String(n)` for counts, and `parseInt` with leading white space, sign and `0x` prefix |
| `Requests` | `requests.dfy` | the request descriptor, the client address and its `::ffff:` cleaning, the user agent |
| `Detection` | `detection.dfy` | the six detection rules, with lemmas about each |
| `AttackRecords` | `attack_record.dfy` | event types, geo defaults, the record `logAttack` builds |
| `JsonLine` | `json_line.dfy` | `JSON.stringify` of a record, and the line appended to the log |
| `RequestCounting` | `request_counter.dfy` | the per-address counter as a class (`Hit`, `Reset`) and its window arithmetic |
| `Dispatch` | `dispatch.dfy` | Express's order (static files, counter, routes, reconnaissance, 404) as a function from a request to its events |
| `TargetApp` | `target_server.dfy` | the application as a class that owns the counter and the log text; one method per handler; `HandleRequest` is proved against `Dispatch.Handle` |
| `LogTailer` | `log_tailer.dfy` | the tailer as a class with `lastPosition`; `Poll` has a loop over the lines; lemmas describe the cursor over many polls |
| `QueryApi` | `query_api.dfy` | JSON objects with ordered keys, object spread, and the two response bodies with their fallbacks |
| `Pipeline` | `pipeline.dfy` | the log the application writes, as the tailer reads it |

Facts about the code that shape the model:

- **Events per request.** The DoS middleware runs for every request that the static middleware does not answer, and the reconnaissance middleware runs just before the 404 handler. So one request can give DOS_ATTACK followed by a route's event, or RECONNAISSANCE_SCAN followed by 404_SCAN. `Dispatch.RequestEvents` lists up to three events.
- **The tailer's cursor.** `lastPosition` holds the file's byte size, and the next poll starts at line index `lastPosition / 100`. `LogTailer` models that arithmetic, and lemmas show both consequences: a poll can submit lines again and it can pass over new ones.
- **Unterminated last line.** An unterminated last line is submitted like any other non-blank piece (`LogTailer.FragmentSubmitted`).
- **Shrinking log.** The cursor is never reset: `lastPosition` is the largest size seen so far (`LogTailer.PositionIsLargestSeen`).

## Model

| member | source | states |
|---|---|---|
| Requests.ClientAddress | target/server.js:34 | the address is the `x-forwarded-for` header when truthy; otherwise the remote address when truthy; otherwise `req.ip` as it is, so it is missing only when all three are |
| Text.RemoveFirst | target/server.js:35 | `replace` with a string pattern leaves a text without the pattern unchanged; otherwise it cuts out the first occurrence and keeps everything before and after it |
| Text.RemoveFirstAt | target/server.js:35 | when `i` is the first occurrence of the pattern, the result is the text before `i` followed by the text after that occurrence |
| Requests.CleanIp | target/server.js:35 | an address without the `::ffff:` marker is kept as it is; one with it loses exactly the marker's first occurrence, with the text before and after it kept, seven characters in all |
| Requests.CleanMappedAddress | target/server.js:35 | an IPv4-mapped address `::ffff:a.b.c.d` is cleaned to `a.b.c.d`, whatever follows the marker |
| Requests.CleanIpOnce | target/server.js:35 | only the first of two markers is removed |
| Requests.CleanIpAfterText | target/server.js:35 | the marker is not anchored: after text without a colon, such as a proxy's list of IPv4 addresses, it is cut out of the middle |
| Requests.UserAgent | target/server.js:44 | the user-agent header when truthy, otherwise `Unknown`; never empty |
| AttackRecords.TypeName | target/server.js:40 | every type is logged under a name of at least eight characters, which the 125-character lower bound on a record line builds on |
| AttackRecords.TypeNameInjective | target/server.js:40 | different event types are logged under different names |
| AttackRecords.GeoOf | target/server.js:36-50 | a lookup miss gives `Unknown`/`Unknown`/`[0,0]`; on a hit, a non-empty country or city is kept and an empty one becomes exactly `Unknown`; `ll` is kept when present and `[0,0]` otherwise |
| AttackRecords.BuildRecord | target/server.js:33-51 | the record carries the given type, details and clock, the request's method and URL, the cleaned address, the user agent `UserAgent(req)` and the geo `GeoOf` of the lookup of the cleaned address, so the unknown geo on a lookup miss |
| JsonLine.EscapeChar | target/server.js:54 | a character is written as itself exactly when it is not a quote, a backslash or a control character; no escape contains a line break |
| JsonLine.Escape | target/server.js:54 | an escaped string holds no line break and is no shorter than the original |
| JsonLine.Serialize | target/server.js:54 | the stringified record is one non-blank line starting with `{` and at least 125 characters long |
| JsonLine.LogLine | target/server.js:54 | what is appended is the record's line followed by one line break |
| JsNumber.DecimalString | target/server.js:66 | `${count}` is a non-empty string of decimal digits that starts with `0` only for zero |
| JsNumber.DecimalStringValue | target/server.js:66 | the decimal string of `n` reads back as `n` |
| JsNumber.ParseInt | target/server.js:227 | `parseInt` gives a number only when the text holds a digit |
| JsNumber.ParseIntOfDecimal | target/server.js:227 | `parseInt` of `String(n)` followed by text that does not start with a digit gives `n`; only a lone `0` must also not be followed by `x` or `X` |
| JsNumber.DigitPrefixStopsAt | target/server.js:227 | the digits `parseInt` reads stop at the first non-digit |
| JsNumber.DigitsValueBelow | target/server.js:227 | `d` digits in base `r` denote a number below `r` to the power `d` |
| JsNumber.ParseIntOfShort | target/server.js:227 | `parseInt` of a text of at most three characters is `NaN` or below 1000, in decimal or after `0x` |
| RequestCounting.Tally | target/server.js:64 | a request adds one to its own address's count, leaves every other count as it was, and adds only its address as a key |
| RequestCounting.RequestCounter.constructor | target/server.js:29 | the counts start empty |
| RequestCounting.RequestCounter.Hit | target/server.js:64 | the counts become `Tally` of the old counts, and the returned count is the old count plus one |
| RequestCounting.RequestCounter.Reset | target/server.js:30 | every address starts the next window at zero |
| RequestCounting.CountAfterHits | target/server.js:64 | after a run of requests, an address's count grew by exactly the number of its requests |
| RequestCounting.DosEventsInWindow | target/server.js:63-67 | for the counter model `DosEvents`: within a window an address gets one DOS_ATTACK for each of its requests beyond the hundredth, whatever other addresses do (`Dispatch.RunDosEvents` ties `DosEvents` to the events `Handle` logs) |
| RequestCounting.DosEventsFromReset | target/server.js:63-67 | for the counter model `DosEvents`: from an empty window, 100 requests from an address give no event, 101 give exactly one and 102 give two (`Dispatch.RunDosFromReset` carries this over to the events `Handle` logs) |
| Detection.SqlInjection | target/server.js:164-165 | a missing or empty username is never flagged, and a username with a single quote always is |
| Detection.SqlInjectionMetacharacters | target/server.js:164-165 | any username containing a single quote or `--` is flagged |
| Detection.SqlInjectionIgnoresCase | target/server.js:165 | a username and its lower-case form are flagged alike |
| Detection.SqlInjectionLastPatternRedundant | target/server.js:164-165 | the rule is equivalent to the same check without the last pattern, which the quote already covers |
| Detection.SettingsName | target/server.js:179 | a missing or empty name becomes `Guest`; any other name is kept |
| Detection.XssAttempt | target/server.js:182 | a name holding `<script>`, `javascript:` or `onerror` as written is flagged |
| Detection.XssDefaultAndCase | target/server.js:179-182 | the default `Guest` is never flagged, and the rule ignores case |
| Detection.XssScriptTagAnyCase | target/server.js:182 | a name with `<SCRIPT>` anywhere in it is flagged |
| Detection.MaliciousUpload | target/server.js:199-202 | a file name ending in one of the denied extensions as written is flagged |
| Detection.MaliciousUploadAnyCase | target/server.js:200-202 | a file name ending in a denied extension, in any mix of cases, is flagged |
| Detection.MaliciousUploadFinalExtensionOnly | target/server.js:202 | only the last extension counts: `shell.php.png` passes and `avatar.png.PHP` is flagged |
| Detection.PathTraversal | target/server.js:216 | a missing parameter is never flagged; a single value is flagged exactly when it contains `..`, `/etc/` or `passwd`; a repeated parameter, which arrives as an array, exactly when one of its items equals one of them |
| Detection.PathTraversalCaseSensitive | target/server.js:216 | `/etc/shadow` is flagged, `/ETC/SHADOW` is not, and a missing file parameter is not |
| Detection.PathTraversalRepeated | target/server.js:216 | for a repeated parameter, `?file=passwd&file=x` is flagged and `?file=../../etc/passwd&file=x` is not |
| Detection.IdorEnumeration | target/server.js:227 | an id of at most three characters is never flagged |
| Detection.IdorDecimal | target/server.js:227 | for a decimal id followed by text that does not start with a digit (nor with `x` after a lone `0`), the rule fires exactly when the number exceeds 1000 |
| Detection.IdorNeedsDigits | target/server.js:227 | an id with no digit is `NaN` and never flagged |
| Detection.Reconnaissance | target/server.js:239-241 | the definition: the path contains one of the six suspicious fragments, case-sensitively |
| Detection.ReconnaissanceAnywhere | target/server.js:239-241 | a path with a suspicious fragment anywhere in it is flagged |
| Dispatch.MatchRoute | target/server.js:73-236 | POST reaches only `/login` and `/upload`, the other routes answer only GET and HEAD, any other verb reaches no route, and a user id is one non-empty segment without `/` |
| Dispatch.UserIdParam | target/server.js:224 | the `:id` parameter is one non-empty path segment: the text after a case-insensitive `/api/user/`, less at most one trailing slash |
| Dispatch.UserIdRoundTrip | target/server.js:224 | `/api/user/<id>` and `/api/user/<id>/`, with the prefix in any mix of cases, both yield `<id>` for any non-empty id without a slash |
| Dispatch.UserPathUpperCase | target/server.js:224 | `/API/User/1001` and `/API/User/1001/` yield the id `1001` |
| Dispatch.UserRouteReached | target/server.js:224 | a GET of `/api/user/<id>`, with the prefix in any mix of cases, reaches the user profile handler with that id, past the routes registered before it |
| Dispatch.RouteEvents | target/server.js:159-251 | a routed request gives at most one event and never a reconnaissance or 404 event; an unrouted one ends with 404_SCAN for its path, preceded by RECONNAISSANCE_SCAN exactly when the path is suspicious; no handler logs DOS_ATTACK |
| Dispatch.RequestEvents | target/server.js:59-70 | above the threshold, DOS_ATTACK with the count comes first; nothing later is a DOS_ATTACK; at most three events |
| Dispatch.Handle | target/server.js:26-70 | a statically served request or one with no address changes no count and logs nothing; any other request tallies its cleaned address and logs the events of its new count |
| Dispatch.DosLogged | target/server.js:65-67 | DOS_ATTACK is logged once exactly when the new count exceeds 100, on any route |
| Dispatch.LoginInjectionLogged | target/server.js:164-166 | a login with `' OR 1=1 --` in the username logs SQL_INJECTION with the username in the details |
| Dispatch.LoginLogged | target/server.js:160-167 | a login logs SQL_INJECTION once when the rule fires and never otherwise |
| Dispatch.SettingsLogged | target/server.js:178-184 | the settings page logs XSS_ATTEMPT once when the name (or `Guest`) matches and never otherwise |
| Dispatch.UploadLoggedOnce | target/server.js:197-209 | an upload logs MALICIOUS_FILE_UPLOAD at most once: exactly when a file came and its name has a denied extension |
| Dispatch.DownloadLogged | target/server.js:213-218 | a download logs PATH_TRAVERSAL once when the file parameter matches and never otherwise |
| Dispatch.UserLogged | target/server.js:224-229 | a user lookup logs IDOR_ENUMERATION once when the id parses above 1000 and never otherwise |
| Dispatch.UnroutedLogged | target/server.js:238-251 | an unrouted request always logs one 404_SCAN and one RECONNAISSANCE_SCAN when its path is suspicious; a routed request logs neither |
| Dispatch.Sender | target/server.js:59-64 | a request is counted, under its cleaned address, exactly when the static middleware did not answer it and it has an address |
| Dispatch.RunCountsAfterHits | target/server.js:59-64 | folding `Handle` over the requests of a window leaves the counts that `AfterHits` gives for the addresses of the requests that reached the counter |
| Dispatch.HandleDos | target/server.js:63-67 | one counted request logs DOS_ATTACK once exactly when its address's count before it was at least 100 |
| Dispatch.RunDosEvents | target/server.js:59-67 | the DOS_ATTACK events `Handle` logs for an address over a window are exactly `DosEvents` of the counted addresses |
| Dispatch.RunDosFromReset | target/server.js:29-67 | from an empty window, the requests `Handle` counts for an address give one DOS_ATTACK per request past the hundredth: 101 give one and 102 give two |
| TargetApp.TargetServer.constructor | target/server.js:10-12 | a fresh process starts with empty counts and the log file as it found it |
| TargetApp.TargetServer.LogAttack | target/server.js:33-56 | the log grows by exactly the built record's JSON line, and the log stays a sequence of whole record lines |
| TargetApp.TargetServer.LoginRoute | target/server.js:160-167 | the login handler logs exactly the login route's events |
| TargetApp.TargetServer.SettingsRoute | target/server.js:178-184 | the settings handler logs exactly the settings route's events |
| TargetApp.TargetServer.UploadRoute | target/server.js:197-204 | the upload handler logs exactly the upload route's events |
| TargetApp.TargetServer.DownloadRoute | target/server.js:213-218 | the download handler logs exactly the download route's events |
| TargetApp.TargetServer.UserRoute | target/server.js:224-229 | the user handler logs exactly the user route's events |
| TargetApp.TargetServer.Unhandled | target/server.js:240-251 | the reconnaissance middleware and the 404 handler log exactly the unrouted events, in that order |
| TargetApp.TargetServer.RouteHandlers | target/server.js:159-251 | whichever handler matches, the log grows by the lines of `RouteEvents` |
| TargetApp.TargetServer.HandleRequest | target/server.js:26-251 | the counts become those of `Handle`, and the log grows by exactly one line per event `Handle` lists, in order |
| TargetApp.TargetServer.ResetWindow | target/server.js:30 | the window timer empties every count |
| TargetApp.RecordLinesEach | target/server.js:54 | every line this process appended is one non-blank line of at least 125 characters |
| Text.Split | soc-dashboard/server.js:118 | `split` gives at least one piece and no piece contains the separator |
| Text.JoinSplit | soc-dashboard/server.js:118 | joining the pieces with the separator gives the text back |
| Text.SplitLines | soc-dashboard/server.js:118 | a file of complete lines and a trailing fragment splits into those lines and then the fragment |
| Text.Filter | soc-dashboard/server.js:118 | `filter` keeps only elements that pass, taken from the input, and never lengthens it |
| Text.FilterConcat | soc-dashboard/server.js:118 | filtering distributes over concatenation, so order is kept |
| Text.Utf8SizeConcat | soc-dashboard/server.js:115 | the byte size of a file grows by the byte size of what is appended |
| LogTailer.CandidateLines | soc-dashboard/server.js:118 | the definition: the pieces of the text between line breaks whose trim is not empty, in file order |
| LogTailer.CandidatesAreLogLines | soc-dashboard/server.js:118 | every candidate is a single line that is not blank |
| LogTailer.CandidatesOfLog | soc-dashboard/server.js:118 | a log of non-blank lines plus a fragment yields those lines in file order, then the fragment unless it is blank |
| LogTailer.StartIndex | soc-dashboard/server.js:120 | the start index is the number of whole hundreds in the byte cursor |
| LogTailer.Attempted | soc-dashboard/server.js:114-130 | a missing file or one no larger than the cursor submits nothing; otherwise exactly the candidates from index `lastPosition / 100` on, in order |
| LogTailer.NextPosition | soc-dashboard/server.js:114-133 | the cursor never decreases; it changes exactly when the file grew, and then to the stat size |
| LogTailer.Tailer.constructor | soc-dashboard/server.js:110 | the cursor starts at zero and nothing is indexed |
| LogTailer.Tailer.Poll | soc-dashboard/server.js:113-134 | a poll submits `Attempted`, indexes exactly those lines that parse and are accepted, in order, and moves the cursor to `NextPosition` |
| LogTailer.LargestSeen | soc-dashboard/server.js:116 | the largest size seen is at least the start and every size any poll saw |
| LogTailer.PositionIsLargestSeen | soc-dashboard/server.js:116-132 | after any polls the cursor is the largest size seen, so a shrunk or rotated file is not read again until it outgrows that size |
| LogTailer.FirstPollSubmitsAll | soc-dashboard/server.js:120 | the first poll of a non-empty file submits every non-blank line |
| LogTailer.FragmentSubmitted | soc-dashboard/server.js:117-120 | a line still being written is submitted as it stands, after the complete lines from the start index |
| LogTailer.LongLinesSize | soc-dashboard/server.js:115 | lines of 99 characters or more take at least 100 bytes each |
| LogTailer.NoResubmissionOfLongLines | soc-dashboard/server.js:120 | when every read line is long, the next poll submits only a suffix of the added lines, so no read line again |
| LogTailer.LongFirstRecordHidesSecond | soc-dashboard/server.js:120 | after a first line of 199 characters or more, the poll that sees the second line submits nothing |
| LogTailer.ShortLogResubmitted | soc-dashboard/server.js:120 | while the log is under 100 bytes, a poll that sees it grow submits every line again |
| LogTailer.FailedLineSkipped | soc-dashboard/server.js:121-129 | a line that fails to parse or to index is dropped and the lines after it are still indexed |
| Pipeline.RecordsNotResubmitted | soc-dashboard/server.js:114-131 | once the tailer has read a log of records that the application wrote, its next poll submits only a suffix of the records added since, never one it already read |
| QueryApi.Find | soc-dashboard/server.js:182-185 | a key is found exactly when some member has it, and then with that member's value |
| QueryApi.FindAt | soc-dashboard/server.js:182-185 | in an object with distinct keys, each member is found under its own key |
| QueryApi.Assign | soc-dashboard/server.js:182-185 | assigning keeps every existing key in place, appends a new key at the end, and changes only the assigned key's value |
| QueryApi.AssignUnique | soc-dashboard/server.js:182-185 | assigning keeps the keys distinct |
| QueryApi.Spread | soc-dashboard/server.js:182-185 | spreading keeps every member of the base and adds at most one member per member of the source |
| QueryApi.SpreadFind | soc-dashboard/server.js:182-185 | after spreading, a key of the source has the source's value and any other key keeps the base's |
| QueryApi.SpreadKeepsBase | soc-dashboard/server.js:182-185 | spreading keeps the base's members where they were and the keys distinct |
| QueryApi.AttackView | soc-dashboard/server.js:182-185 | `id` comes first; it is the document id unless the stored record has its own `id`, which then wins; every other key is the stored record's |
| QueryApi.RecentAttacks | soc-dashboard/server.js:182-190 | the body is an array with one view per hit, in order, or `[]` when the search failed |
| QueryApi.AttacksFailureLooksEmpty | soc-dashboard/server.js:188-190 | a failed search looks exactly like an empty index |
| QueryApi.StatsResponse | soc-dashboard/server.js:217-225 | the body has distinct keys among `total`, `byType`, `byCountry`, `timeline`; a failed search gives `0` and three empty arrays; otherwise each key carries its leaf and a missing leaf drops its key; with every leaf present the keys are all four, in that order |
| QueryApi.StatsFailureLooksEmpty | soc-dashboard/server.js:223-225 | a failed statistics search looks exactly like statistics over an empty index |
| QueryApi.StatsMissingTotalDropped | soc-dashboard/server.js:217-222 | an answer without `hits.total.value` gives a body with only `byType`, `byCountry` and `timeline`, and no `total` at all |

## Left out

- Express plumbing is not modelled: body parsers, sessions, bcrypt, the user table and the dashboard's login and logout. Requests arrive as a descriptor with the fields the handlers read. `express.static` is one flag saying the public directory has the file.
- multer is not modelled. An upload is the original name of the `avatar` part, if one was sent. multer and body-parser errors are left out.
- Route matching keeps Express's case-insensitivity, its optional trailing slash, and GET routes also answering HEAD. Percent-decoding of `:id` is not modelled: the id is the raw path segment. So a malformed escape such as `/api/user/1001%`, which Express answers with 400 before the handler runs, is logged as IDOR_ENUMERATION by the model.
- A repeated `file` query parameter is modelled: it arrives as an array, and `includes` then looks for an item equal to the fragment. A `file` given as an object (`?file[a]=b`) is not modelled; `file.includes` is then not a function and the handler throws before it logs.
- `name` and `username` are strings. A non-string `name` or `username` is not modelled: an array or object from the query (`name=a&name=b`, `name[k]=v`), a repeated urlencoded field (`username=a&username=b`), or an array, object, or truthy number or boolean from a JSON body (a falsy `0` or `false` stops at the `username &&` guard). `toLowerCase` or `toUpperCase` then throws before anything is logged.
- An address equal to an `Object.prototype` member name, which would read a non-number from `requestCounts`, is not modelled.
- `geoip.lookup` is a function parameter. Only the defaults around it are modelled. Coordinates are integers, because floating point is left out.
- The clock is a parameter. One reading stands for every `new Date()` during a request.
- `console.log` lines are not modelled.
- The HTML bodies and status codes of the responses are not modelled.
- File I/O is not modelled. The log is the file's text. An append is string concatenation, and a failed append, which would make the request fail, is left out. A poll sees a snapshot: missing, or a stat size and the text read.
- Timers are not modelled. The 60-second reset and the 5-second poll are explicit calls. Overlapping async ticks are a concurrency concern and are left out.
- The search index is a predicate on lines. `JSON.parse` succeeding and the index call succeeding are two fixed predicates per line.
- Elasticsearch index creation and the incident endpoints are outside this model.
- For the responses, a failed search is `None`, and so is an answer that lacks a parent object the handler reads through (`hits`, `hits.total`, `aggregations` or one aggregation), because the handler then throws and answers with the fallback. A missing statistics leaf is modelled and drops its key. Hits are objects with distinct keys. A non-object `_source` is not modelled.
- QueryApi.Assign: keeps every key in insertion order. A JavaScript object lists integer-like keys (`"0"`, `"1"`, …) first, in ascending order, so for a stored record with such keys the model's key order differs from the real one; the values found under each key are the same.
- QueryApi.SpreadKeepsBase: states positions in insertion order, which holds only when no key of the stored record is integer-like (see QueryApi.Assign).
- QueryApi.AttackView: `id` comes first only in insertion order; a stored record with an integer-like key would list that key before `id` in the real body (see QueryApi.Assign).
- Detection.SqlInjection: the contract states the truthiness guard and that a quote always fires; the other patterns are covered by the definition and by Detection.SqlInjectionMetacharacters and Detection.SqlInjectionLastPatternRedundant.
- Detection.XssAttempt: the contract states the direction for the patterns as written; case-insensitivity is Detection.XssDefaultAndCase and Detection.XssScriptTagAnyCase.
- Detection.MaliciousUpload: the contract states the direction for the extensions as written; any mix of cases is Detection.MaliciousUploadAnyCase.
- Detection.IdorEnumeration: the contract states only that ids of at most three characters are never flagged; exact values are Detection.IdorDecimal for decimal ids.
- Detection.Reconnaissance: carries no contract of its own; Detection.ReconnaissanceAnywhere proves that every fragment, anywhere in the path, is flagged.
- LogTailer.CandidateLines: carries no contract of its own; its lines are described by LogTailer.CandidatesAreLogLines and LogTailer.CandidatesOfLog.
- Dispatch.MatchRoute: the contract states which verbs reach which routes; the path conditions are the definition and are used through Dispatch.RouteEvents.
- QueryApi.Spread: the contract bounds the length; the values and positions are QueryApi.SpreadFind and QueryApi.SpreadKeepsBase.
- JsonLine.Serialize: states the shape of the line (one non-blank line, starting with `{`, of bounded length), not that `JSON.parse` gives the record back, because parsing is not modelled.
- JsNumber.ParseInt: states only that a number needs a digit. Exact values are proved for decimal text (`ParseIntOfDecimal`), not for the hexadecimal and signed forms that the function also computes.
- Detection.IdorNeedsDigits: covers ids with no digit in any position, including hexadecimal digits. It is narrower than "no numeric prefix".
- Text.Upper and Text.Lower map ASCII letters only. Unicode case mapping is not modelled.
