/**
 * The detection rules of the monitored application (target/server.js): pure
 * substring and threshold checks over the request fields each route reads.
 */
module Detection {

  import opened Wrappers
  import opened Text
  import opened JsNumber
  import opened Requests

  // ---------------------------------------------------------------------------
  // SQL injection on POST /login
  // ---------------------------------------------------------------------------

  const SqlPatterns: seq<string> :=
    ["'", "\"", "OR 1=1", "UNION SELECT", "DROP TABLE", "--", "/*", "admin'--"]

  /**
   * `username && sqliPatterns.some(p => username.toUpperCase().includes(p.toUpperCase()))`:
   * a non-empty username whose upper-case form contains the upper-case form of a pattern.
   */
  function SqlInjection(username: Option<string>): (r: bool)
    ensures r ==> username.Some? && username.value != ""
    ensures username.Some? && '\'' in username.value ==> r
  {
    match username
    case None => false
    case Some(u) =>
      QuoteMatches(u);
      u != "" && exists k | 0 <= k < |SqlPatterns| :: Contains(Upper(u), Upper(SqlPatterns[k]))
  }

  /** A quote survives upper-casing, so the first pattern finds it. */
  lemma {:induction false} QuoteMatches(u: string)
    ensures '\'' in u ==> Contains(Upper(u), Upper(SqlPatterns[0]))
  {
    if '\'' in u {
      var i :| 0 <= i < |u| && u[i] == '\'';
      assert Upper(u)[i..i + 1] == Upper(SqlPatterns[0]);
      assert OccursAt(Upper(u), Upper(SqlPatterns[0]), i);
    }
  }

  /** A username containing a quote or a comment marker is always flagged. */
  lemma {:induction false} SqlInjectionMetacharacters(u: string)
    requires '\'' in u || Contains(u, "--")
    ensures SqlInjection(Some(u))
  {
    if '\'' !in u {
      var i :| 0 <= i <= |u| - 2 && OccursAt(u, "--", i);
      assert u[i] == '-' && u[i + 1] == '-' by { assert u[i..i + 2] == "--"; }
      assert Upper(u)[i..i + 2] == Upper(SqlPatterns[5]);
      assert OccursAt(Upper(u), Upper(SqlPatterns[5]), i);
    }
  }

  /** The rule ignores case: a username and its lower-case form are flagged alike. */
  lemma {:induction false} SqlInjectionIgnoresCase(u: string)
    ensures SqlInjection(Some(u)) <==> SqlInjection(Some(Lower(u)))
  {
    LowerOfUpper(u);
    assert Upper(Lower(u)) == Upper(u);
  }

  /**
   * The last pattern `admin'--` is subsumed by the first (`'`): the rule is
   * equivalent to the same check over the first seven patterns only.
   */
  lemma {:induction false} SqlInjectionLastPatternRedundant(u: string)
    ensures SqlInjection(Some(u)) <==>
      u != "" && exists k | 0 <= k < 7 :: Contains(Upper(u), Upper(SqlPatterns[k]))
  {
    if SqlInjection(Some(u)) && Contains(Upper(u), Upper(SqlPatterns[7])) {
      var i :| 0 <= i <= |Upper(u)| - 8 && OccursAt(Upper(u), Upper(SqlPatterns[7]), i);
      assert Upper(u)[i + 5] == Upper(SqlPatterns[7])[5] == '\'';
      assert Upper(u)[i + 5..i + 6] == Upper(SqlPatterns[0]);
      assert OccursAt(Upper(u), Upper(SqlPatterns[0]), i + 5);
    }
  }

  // ---------------------------------------------------------------------------
  // Cross-site scripting on GET /settings
  // ---------------------------------------------------------------------------

  /** `req.query.name || 'Guest'`. */
  function SettingsName(name: Option<string>): (r: string)
    ensures r != ""
    ensures name.Some? && name.value != "" ==> r == name.value
    ensures !(name.Some? && name.value != "") ==> r == "Guest"
  {
    if name.Some? && name.value != "" then name.value else "Guest"
  }

  /** The lower-cased name contains `<script>`, `javascript:` or `onerror`. */
  function XssAttempt(name: string): (r: bool)
    ensures Contains(name, "<script>") || Contains(name, "javascript:") || Contains(name, "onerror") ==> r
  {
    ContainsLowered(name, "<script>");
    ContainsLowered(name, "javascript:");
    ContainsLowered(name, "onerror");
    assert Lower("<script>") == "<script>";
    assert Lower("javascript:") == "javascript:";
    assert Lower("onerror") == "onerror";
    var n := Lower(name);
    Contains(n, "<script>") || Contains(n, "javascript:") || Contains(n, "onerror")
  }

  /** The default name never triggers the rule, and the rule ignores case. */
  lemma {:induction false} XssDefaultAndCase(name: string)
    ensures !XssAttempt(SettingsName(None))
    ensures XssAttempt(Upper(name)) <==> XssAttempt(name)
  {
    LowerOfUpper(name);
  }

  /** Any name holding an upper-case script tag is flagged. */
  lemma {:induction false} XssScriptTagAnyCase(before: string, after: string)
    ensures XssAttempt(before + "<SCRIPT>" + after)
  {
    var s := before + "<SCRIPT>" + after;
    LowerConcat(before + "<SCRIPT>", after);
    LowerConcat(before, "<SCRIPT>");
    assert Lower("<SCRIPT>") == "<script>";
    assert Lower(s)[|before|..|before| + 8] == "<script>";
    assert OccursAt(Lower(s), "<script>", |before|);
  }

  // ---------------------------------------------------------------------------
  // Malicious upload on POST /upload
  // ---------------------------------------------------------------------------

  const DangerousExtensions: seq<string> := [".php", ".exe", ".sh", ".bat", ".jsp", ".asp"]

  /** `dangerousExts.some(ext => filename.toLowerCase().endsWith(ext))`. */
  function MaliciousUpload(filename: string): (r: bool)
    ensures (exists k | 0 <= k < |DangerousExtensions| :: EndsWith(filename, DangerousExtensions[k])) ==> r
  {
    LowerExtensions();
    forall k | 0 <= k < |DangerousExtensions|
      ensures EndsWith(filename, DangerousExtensions[k]) ==> EndsWith(Lower(filename), DangerousExtensions[k])
    {
      EndsWithLowered(filename, DangerousExtensions[k]);
    }
    exists k | 0 <= k < |DangerousExtensions| :: EndsWith(Lower(filename), DangerousExtensions[k])
  }

  /** The denied extensions are written in lower case. */
  lemma {:induction false} LowerExtensions()
    ensures forall k :: 0 <= k < |DangerousExtensions| ==> Lower(DangerousExtensions[k]) == DangerousExtensions[k]
  {
    assert Lower(".php") == ".php";
    assert Lower(".exe") == ".exe";
    assert Lower(".sh") == ".sh";
    assert Lower(".bat") == ".bat";
    assert Lower(".jsp") == ".jsp";
    assert Lower(".asp") == ".asp";
  }

  /** A name ending in a denied extension, written in any mix of cases, is flagged. */
  lemma {:induction false} MaliciousUploadAnyCase(base: string, ext: string)
    requires Lower(ext) in DangerousExtensions
    ensures MaliciousUpload(base + ext)
  {
    LowerConcat(base, ext);
    var k :| 0 <= k < |DangerousExtensions| && DangerousExtensions[k] == Lower(ext);
    assert Lower(base + ext)[|base + ext| - |ext|..] == Lower(ext);
    assert EndsWith(Lower(base + ext), DangerousExtensions[k]);
  }

  /** Only the final extension counts: a denied extension followed by another one is not flagged. */
  lemma {:induction false} MaliciousUploadFinalExtensionOnly()
    ensures !MaliciousUpload("shell.php.png")
    ensures MaliciousUpload("avatar.png.PHP")
  {
    assert Lower(".PHP") == ".php" by {
      assert |Lower(".PHP")| == 4;
      assert Lower(".PHP")[1] == 'p' && Lower(".PHP")[2] == 'h' && Lower(".PHP")[3] == 'p';
    }
    MaliciousUploadAnyCase("avatar.png", ".PHP");
    assert "avatar.png" + ".PHP" == "avatar.png.PHP";
    assert Lower("shell.php.png") == "shell.php.png";
  }

  // ---------------------------------------------------------------------------
  // Path traversal on GET /download
  // ---------------------------------------------------------------------------

  const TraversalFragments: seq<string> := ["..", "/etc/", "passwd"]

  /**
   * `file && (file.includes('..') || file.includes('/etc/') || file.includes('passwd'))`.
   * On a string, `includes` looks for a substring; on the array of a repeated
   * parameter it looks for an item equal to the fragment.
   */
  function PathTraversal(file: Option<QueryValue>): (r: bool)
    ensures file.None? ==> !r
    ensures file.Some? && file.value.Single? ==>
      (r <==> exists k | 0 <= k < |TraversalFragments| :: Contains(file.value.text, TraversalFragments[k]))
    ensures file.Some? && file.value.Repeated? ==>
      (r <==> exists k | 0 <= k < |TraversalFragments| :: TraversalFragments[k] in file.value.items)
  {
    assert TraversalFragments[0] == ".." && TraversalFragments[1] == "/etc/" && TraversalFragments[2] == "passwd";
    match file
    case None => false
    case Some(Single(s)) =>
      s != "" && (Contains(s, "..") || Contains(s, "/etc/") || Contains(s, "passwd"))
    case Some(Repeated(xs)) =>
      ".." in xs || "/etc/" in xs || "passwd" in xs
  }

  /** Unlike the other rules, this one is case-sensitive. */
  lemma {:induction false} PathTraversalCaseSensitive()
    ensures PathTraversal(Some(Single("/etc/shadow")))
    ensures !PathTraversal(Some(Single("/ETC/SHADOW")))
    ensures !PathTraversal(None)
  {
    assert OccursAt("/etc/shadow", "/etc/", 0);
    NotContainsAbsentChar("/ETC/SHADOW", "..", 0);
    NotContainsAbsentChar("/ETC/SHADOW", "/etc/", 1);
    NotContainsAbsentChar("/ETC/SHADOW", "passwd", 0);
  }

  /**
   * A repeated parameter is matched item by item: an item that is exactly a
   * fragment is flagged, a traversal path inside a longer item is not.
   */
  lemma {:induction false} PathTraversalRepeated()
    ensures PathTraversal(Some(Repeated(["passwd", "x"])))
    ensures !PathTraversal(Some(Repeated(["../../etc/passwd", "x"])))
  {
    assert ["passwd", "x"][0] == "passwd";
  }

  // ---------------------------------------------------------------------------
  // Object-reference enumeration on GET /api/user/:id
  // ---------------------------------------------------------------------------

  const IdorThreshold := 1000

  /** `parseInt(userId) > 1000`; `NaN` compares false. */
  function IdorEnumeration(userId: string): (r: bool)
    ensures |userId| <= 3 ==> !r
  {
    ParseIntOfShort(userId);
    match ParseInt(userId)
    case Some(v) => v > IdorThreshold
    case None => false
  }

  /** For a decimal id the rule is exactly "greater than 1000", whatever non-digit text follows. */
  lemma {:induction false} IdorDecimal(n: nat, rest: string)
    requires rest == [] || (!('0' <= rest[0] <= '9') && (n != 0 || (rest[0] != 'x' && rest[0] != 'X')))
    ensures IdorEnumeration(DecimalString(n) + rest) <==> n > IdorThreshold
  {
    ParseIntOfDecimal(n, rest);
  }

  /** An id with no digit at all is `NaN` and never flagged. */
  lemma {:induction false} IdorNeedsDigits(userId: string)
    requires forall k :: 0 <= k < |userId| ==> DigitValue(userId[k], 16).None?
    ensures !IdorEnumeration(userId)
  {
  }

  // ---------------------------------------------------------------------------
  // Reconnaissance on requests no route handled
  // ---------------------------------------------------------------------------

  const SuspiciousPaths: seq<string> := ["/admin", "/.git", "/.env", "/config", "/backup", "/phpinfo.php"]

  /** `suspiciousPaths.some(p => req.path.includes(p))`, case-sensitive. */
  predicate Reconnaissance(path: string) {
    exists k | 0 <= k < |SuspiciousPaths| :: Contains(path, SuspiciousPaths[k])
  }

  /** Any path with a sensitive fragment in it is flagged, wherever the fragment sits. */
  lemma {:induction false} ReconnaissanceAnywhere(before: string, k: nat, after: string)
    requires k < |SuspiciousPaths|
    ensures Reconnaissance(before + SuspiciousPaths[k] + after)
  {
    var p := SuspiciousPaths[k];
    assert OccursAt(p, p, 0) by { assert p[0..|p|] == p; }
    ContainsInConcat(before, p, after, p);
  }
}
