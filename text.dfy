/**
 * The JavaScript string operations the pipeline relies on, over Dafny strings:
 * `includes`, `endsWith`, `replace` with a string pattern, `trim`, `split`,
 * ASCII `toUpperCase`/`toLowerCase`, and the UTF-8 byte length that `fs.statSync`
 * reports for a file holding a string.
 */
module Text {

  import Wrappers

  // ---------------------------------------------------------------------------
  // Case mapping (ASCII letters only; every other character is left unchanged)
  // ---------------------------------------------------------------------------

  function UpperChar(c: char): char {
    if 'a' <= c <= 'z' then (c as int - 32) as char else c
  }

  function LowerChar(c: char): char {
    if 'A' <= c <= 'Z' then (c as int + 32) as char else c
  }

  function Upper(s: string): (r: string)
    ensures |r| == |s|
    ensures forall i :: 0 <= i < |s| ==> r[i] == UpperChar(s[i])
  {
    seq(|s|, i requires 0 <= i < |s| => UpperChar(s[i]))
  }

  function Lower(s: string): (r: string)
    ensures |r| == |s|
    ensures forall i :: 0 <= i < |s| ==> r[i] == LowerChar(s[i])
  {
    seq(|s|, i requires 0 <= i < |s| => LowerChar(s[i]))
  }

  /** Lower-casing forgets any earlier upper-casing, and the other way round. */
  lemma {:induction false} LowerOfUpper(s: string)
    ensures Lower(Upper(s)) == Lower(s)
    ensures Upper(Lower(s)) == Upper(s)
  {
  }

  lemma {:induction false} LowerConcat(a: string, b: string)
    ensures Lower(a + b) == Lower(a) + Lower(b)
  {
  }

  // ---------------------------------------------------------------------------
  // Substring search
  // ---------------------------------------------------------------------------

  /** `p` occurs in `s` starting at index `i`. */
  predicate OccursAt(s: string, p: string, i: int) {
    0 <= i && i + |p| <= |s| && s[i..i + |p|] == p
  }

  /** `s.includes(p)`. */
  predicate Contains(s: string, p: string) {
    exists i | 0 <= i <= |s| - |p| :: OccursAt(s, p, i)
  }

  /** `s.endsWith(suffix)`. */
  predicate EndsWith(s: string, suffix: string) {
    |suffix| <= |s| && s[|s| - |suffix|..] == suffix
  }

  /** Lower-casing both sides keeps an occurrence where it was. */
  lemma {:induction false} ContainsLowered(s: string, p: string)
    ensures Contains(s, p) ==> Contains(Lower(s), Lower(p))
  {
    if Contains(s, p) {
      var i :| 0 <= i <= |s| - |p| && OccursAt(s, p, i);
      assert Lower(s)[i..i + |p|] == Lower(p) by {
        forall k | 0 <= k < |p|
          ensures Lower(s)[i..i + |p|][k] == Lower(p)[k]
        {
          assert s[i + k] == s[i..i + |p|][k];
        }
      }
      assert OccursAt(Lower(s), Lower(p), i);
    }
  }

  /** Lower-casing both sides keeps a suffix a suffix. */
  lemma {:induction false} EndsWithLowered(s: string, p: string)
    ensures EndsWith(s, p) ==> EndsWith(Lower(s), Lower(p))
  {
    if EndsWith(s, p) {
      var i := |s| - |p|;
      assert Lower(s)[i..] == Lower(p) by {
        forall k | 0 <= k < |p|
          ensures Lower(s)[i..][k] == Lower(p)[k]
        {
          assert s[i + k] == s[i..][k];
        }
      }
    }
  }

  /** A pattern with a character that is absent from `s` cannot occur in `s`. */
  lemma {:induction false} NotContainsAbsentChar(s: string, p: string, j: nat)
    requires j < |p| && p[j] !in s
    ensures !Contains(s, p)
  {
    forall i | 0 <= i <= |s| - |p|
      ensures !OccursAt(s, p, i)
    {
      assert s[i..i + |p|][j] == s[i + j];
    }
  }

  /** An occurrence inside a part is an occurrence inside the whole. */
  lemma {:induction false} ContainsInConcat(a: string, b: string, c: string, p: string)
    requires Contains(b, p)
    ensures Contains(a + b + c, p)
  {
    var i :| 0 <= i <= |b| - |p| && OccursAt(b, p, i);
    assert (a + b + c)[|a| + i..|a| + i + |p|] == b[i..i + |p|];
    assert OccursAt(a + b + c, p, |a| + i);
  }

  /** The first index at or after `k` where `p` occurs, if any (`s.indexOf(p, k)`). */
  function IndexOfFrom(s: string, p: string, k: nat): (r: Wrappers.Option<nat>)
    requires k <= |s|
    ensures r.Some? ==> k <= r.value && OccursAt(s, p, r.value)
    ensures r.Some? ==> forall j :: k <= j < r.value ==> !OccursAt(s, p, j)
    ensures r.None? ==> forall j :: k <= j ==> !OccursAt(s, p, j)
    decreases |s| - k
  {
    if OccursAt(s, p, k) then Wrappers.Some(k)
    else if k == |s| then Wrappers.None
    else IndexOfFrom(s, p, k + 1)
  }

  /** `s.replace(p, '')` for a string pattern: only the first occurrence is removed. */
  function RemoveFirst(s: string, p: string): (r: string)
    ensures !Contains(s, p) ==> r == s
    ensures Contains(s, p) ==> |r| == |s| - |p|
    ensures Contains(s, p) ==>
      exists i :: OccursAt(s, p, i) && (forall j :: 0 <= j < i ==> !OccursAt(s, p, j)) &&
        r == s[..i] + s[i + |p|..]
  {
    match IndexOfFrom(s, p, 0)
    case None =>
      assert !Contains(s, p);
      s
    case Some(i) =>
      assert OccursAt(s, p, i);
      s[..i] + s[i + |p|..]
  }

  /** Where the first occurrence is known, `replace` cuts out exactly that one. */
  lemma {:induction false} RemoveFirstAt(s: string, p: string, i: nat)
    requires OccursAt(s, p, i)
    requires forall j :: 0 <= j < i ==> !OccursAt(s, p, j)
    ensures RemoveFirst(s, p) == s[..i] + s[i + |p|..]
  {
    assert IndexOfFrom(s, p, 0) == Wrappers.Some(i);
  }

  // ---------------------------------------------------------------------------
  // White space, trimming and splitting
  // ---------------------------------------------------------------------------

  /**
   * The characters `String.prototype.trim` and `parseInt` skip: ECMAScript's
   * WhiteSpace (TAB, VT, FF, SP, NBSP, ZWNBSP and the space separators) and
   * LineTerminator (LF, CR, LS, PS).
   */
  predicate IsJsSpace(c: char) {
    var n := c as int;
    n == 0x09 || n == 0x0A || n == 0x0B || n == 0x0C || n == 0x0D || n == 0x20 ||
    n == 0xA0 || n == 0x1680 || (0x2000 <= n <= 0x200A) || n == 0x2028 || n == 0x2029 ||
    n == 0x202F || n == 0x205F || n == 0x3000 || n == 0xFEFF
  }

  /** `s.trim()` is the empty string, i.e. `s.trim()` is falsy. */
  predicate Blank(s: string) {
    forall i :: 0 <= i < |s| ==> IsJsSpace(s[i])
  }

  /** `s` with its leading white space removed (the first step of `parseInt`). */
  function TrimStart(s: string): (r: string)
    ensures |r| <= |s| && r == s[|s| - |r|..]
    ensures Blank(s[..|s| - |r|])
    ensures r == [] || !IsJsSpace(r[0])
  {
    if s != [] && IsJsSpace(s[0]) then TrimStart(s[1..]) else s
  }

  /** `s.split(sep)` for a one-character separator: at least one piece, none containing `sep`. */
  function Split(s: string, sep: char): (r: seq<string>)
    ensures |r| >= 1
    ensures forall k :: 0 <= k < |r| ==> sep !in r[k]
    decreases |s|
  {
    if s == [] then [[]]
    else
      var rest := Split(s[1..], sep);
      if s[0] == sep then [[]] + rest
      else [[s[0]] + rest[0]] + rest[1..]
  }

  /** `pieces.join(sep)`. */
  function Join(pieces: seq<string>, sep: char): string
    decreases |pieces|
  {
    if pieces == [] then []
    else if |pieces| == 1 then pieces[0]
    else pieces[0] + [sep] + Join(pieces[1..], sep)
  }

  /** Splitting and re-joining gives back the original text. */
  lemma {:induction false} JoinSplit(s: string, sep: char)
    ensures Join(Split(s, sep), sep) == s
    decreases |s|
  {
    if s != [] {
      var rest := Split(s[1..], sep);
      JoinSplit(s[1..], sep);
      if s[0] == sep {
        assert s == [sep] + s[1..];
      } else {
        var first := [s[0]] + rest[0];
        if |rest| == 1 {
          assert s == [s[0]] + s[1..];
        } else {
          assert Join(rest, sep) == rest[0] + [sep] + Join(rest[1..], sep);
          assert [first] + rest[1..] == [first] + rest[1..];
          assert s == [s[0]] + s[1..];
        }
      }
    }
  }

  /** A text without the separator is a single piece. */
  lemma {:induction false} SplitNoSeparator(s: string, sep: char)
    requires sep !in s
    ensures Split(s, sep) == [s]
    decreases |s|
  {
    if s != [] {
      SplitNoSeparator(s[1..], sep);
      assert [s[0]] + s[1..] == s;
    }
  }

  /** Splitting distributes over a separator: the pieces of `a` are followed by those of `b`. */
  lemma {:induction false} SplitAtSeparator(a: string, b: string, sep: char)
    ensures Split(a + [sep] + b, sep) == Split(a, sep) + Split(b, sep)
    decreases |a|
  {
    if a == [] {
      assert a + [sep] + b == [sep] + b;
      assert ([sep] + b)[1..] == b;
    } else {
      var t := a + [sep] + b;
      assert t[0] == a[0];
      assert t[1..] == a[1..] + [sep] + b;
      SplitAtSeparator(a[1..], b, sep);
    }
  }

  // ---------------------------------------------------------------------------
  // Line-delimited text
  // ---------------------------------------------------------------------------

  /** One line in the form the log writer produces: no line break, not blank. */
  predicate IsLogLine(l: string) {
    '\n' !in l && !Blank(l)
  }

  /** The text of a line-delimited file whose lines are `ls`, each terminated by a line break. */
  function Lines(ls: seq<string>): string
    decreases |ls|
  {
    if ls == [] then [] else Lines(ls[..|ls| - 1]) + ls[|ls| - 1] + "\n"
  }

  lemma {:induction false} LinesSingle(l: string)
    ensures Lines([l]) == l + "\n"
  {
    assert [l][..0] == [];
  }

  lemma {:induction false} LinesConcat(a: seq<string>, b: seq<string>)
    ensures Lines(a + b) == Lines(a) + Lines(b)
    decreases |b|
  {
    if b == [] {
      assert a + b == a;
    } else {
      assert (a + b)[..|a + b| - 1] == a + b[..|b| - 1];
      assert (a + b)[|a + b| - 1] == b[|b| - 1];
      LinesConcat(a, b[..|b| - 1]);
    }
  }

  /**
   * Splitting a file of complete lines followed by an unterminated fragment on
   * line breaks gives the lines and then the fragment (empty when the file ends
   * with a line break).
   */
  lemma {:induction false} SplitLines(ls: seq<string>, fragment: string)
    requires forall k :: 0 <= k < |ls| ==> '\n' !in ls[k]
    requires '\n' !in fragment
    ensures Split(Lines(ls) + fragment, '\n') == ls + [fragment]
    decreases |ls|
  {
    if ls == [] {
      assert Lines(ls) + fragment == fragment;
      SplitNoSeparator(fragment, '\n');
    } else {
      var init, last := ls[..|ls| - 1], ls[|ls| - 1];
      assert Lines(ls) + fragment == (Lines(init) + last) + ['\n'] + fragment;
      SplitAtSeparator(Lines(init) + last, fragment, '\n');
      SplitLines(init, last);
      SplitNoSeparator(fragment, '\n');
      assert init + [last] == ls;
    }
  }

  // ---------------------------------------------------------------------------
  // Filtering and UTF-8 size
  // ---------------------------------------------------------------------------

  /** `xs.filter(keep)`, keeping the order. */
  function Filter<T>(xs: seq<T>, keep: T -> bool): (r: seq<T>)
    ensures |r| <= |xs|
    ensures forall k :: 0 <= k < |r| ==> keep(r[k]) && r[k] in xs
    decreases |xs|
  {
    if xs == [] then []
    else (if keep(xs[0]) then [xs[0]] else []) + Filter(xs[1..], keep)
  }

  lemma {:induction false} FilterConcat<T>(a: seq<T>, b: seq<T>, keep: T -> bool)
    ensures Filter(a + b, keep) == Filter(a, keep) + Filter(b, keep)
    decreases |a|
  {
    if a == [] {
      assert a + b == b;
    } else {
      assert (a + b)[0] == a[0];
      assert (a + b)[1..] == a[1..] + b;
      FilterConcat(a[1..], b, keep);
    }
  }

  lemma {:induction false} FilterAll<T>(xs: seq<T>, keep: T -> bool)
    requires forall k :: 0 <= k < |xs| ==> keep(xs[k])
    ensures Filter(xs, keep) == xs
    decreases |xs|
  {
    if xs != [] {
      FilterAll(xs[1..], keep);
    }
  }

  /** The number of bytes of the UTF-8 encoding of one character. */
  function Utf8Width(c: char): nat {
    if c as int < 0x80 then 1
    else if c as int < 0x800 then 2
    else if c as int < 0x10000 then 3
    else 4
  }

  /** The number of bytes of the UTF-8 encoding of `s`: what `fs.statSync` reports for a file holding `s`. */
  function Utf8Size(s: string): (n: nat)
    ensures n >= |s|
    decreases |s|
  {
    if s == [] then 0 else Utf8Size(s[..|s| - 1]) + Utf8Width(s[|s| - 1])
  }

  lemma {:induction false} Utf8SizeConcat(a: string, b: string)
    ensures Utf8Size(a + b) == Utf8Size(a) + Utf8Size(b)
    decreases |b|
  {
    if b == [] {
      assert a + b == a;
    } else {
      assert (a + b)[..|a + b| - 1] == a + b[..|b| - 1];
      assert (a + b)[|a + b| - 1] == b[|b| - 1];
      Utf8SizeConcat(a, b[..|b| - 1]);
    }
  }
}
