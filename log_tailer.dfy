/**
 * The dashboard's log tailer (soc-dashboard/server.js, `watchAttackLogs`):
 * every tick it looks at the attack log and, when the file has grown past the
 * remembered byte size `lastPosition`, re-reads the whole file, keeps the
 * non-blank lines, and submits every line from index `lastPosition / 100` on.
 * The cursor is a byte count used as a line index, so depending on line
 * lengths a poll can submit lines again or pass over new ones; both are proved
 * below about the cursor as written.
 */
module LogTailer {

  import opened Text

  /** What one tick sees: no file, or the size `stat` reported and the text `read` returned. */
  datatype LogSnapshot = Missing | Present(size: nat, content: string)

  /** `l.trim()` is truthy. */
  function NonBlank(l: string): bool {
    !Blank(l)
  }

  /** `content.split('\n').filter(l => l.trim())`. */
  function CandidateLines(content: string): seq<string> {
    Filter(Split(content, '\n'), NonBlank)
  }

  /** Every candidate is a single non-blank line. */
  lemma {:induction false} CandidatesAreLogLines(content: string)
    ensures forall k :: 0 <= k < |CandidateLines(content)| ==> IsLogLine(CandidateLines(content)[k])
  {
    var pieces := Split(content, '\n');
  }

  /** `Math.floor(lastPosition / 100)`: the byte cursor read as a line index. */
  function StartIndex(lastPosition: nat): (index: nat)
    ensures 100 * index <= lastPosition < 100 * (index + 1)
  {
    lastPosition / 100
  }

  /** The poll found a file larger than the cursor. */
  predicate Grew(lastPosition: nat, snap: LogSnapshot) {
    snap.Present? && snap.size > lastPosition
  }

  /** The lines one poll submits for indexing, in order. */
  function Attempted(lastPosition: nat, snap: LogSnapshot): (r: seq<string>)
    ensures !Grew(lastPosition, snap) ==> r == []
    ensures Grew(lastPosition, snap) ==>
      var ls := CandidateLines(snap.content);
      && |r| == (if StartIndex(lastPosition) < |ls| then |ls| - StartIndex(lastPosition) else 0)
      && forall k :: 0 <= k < |r| ==> r[k] == ls[StartIndex(lastPosition) + k]
  {
    if Grew(lastPosition, snap) then
      var ls := CandidateLines(snap.content);
      if StartIndex(lastPosition) < |ls| then ls[StartIndex(lastPosition)..] else []
    else []
  }

  /** The cursor after one poll. */
  function NextPosition(lastPosition: nat, snap: LogSnapshot): (p: nat)
    ensures p >= lastPosition
    ensures Grew(lastPosition, snap) <==> p != lastPosition
    ensures p != lastPosition ==> p == snap.size
  {
    if Grew(lastPosition, snap) then snap.size else lastPosition
  }

  /** A line that parses and that the index accepts. */
  function Indexable(parses: string -> bool, accepts: string -> bool): string -> bool {
    l => parses(l) && accepts(l)
  }

  /** Submitting one more line adds it to the indexed lines exactly when it is indexable. */
  lemma {:induction false} IndexedStep(before: seq<string>, attempted: seq<string>, line: string,
                                       keep: string -> bool, indexed: seq<string>)
    requires indexed == before + Filter(attempted, keep)
    ensures (if keep(line) then indexed + [line] else indexed) == before + Filter(attempted + [line], keep)
  {
    FilterConcat(attempted, [line], keep);
    assert [line][1..] == [];
  }

  lemma {:induction false} SliceSnoc<T>(xs: seq<T>, from: nat, to: nat)
    requires from <= to < |xs|
    ensures xs[from..to + 1] == xs[from..to] + [xs[to]]
  {
  }

  /** The tailer's one piece of state, and the documents it has got into the index. */
  class Tailer {
    var lastPosition: nat
    /** The lines indexed so far, in submission order. */
    var indexed: seq<string>

    constructor ()
      ensures lastPosition == 0 && indexed == []
    {
      lastPosition := 0;
      indexed := [];
    }

    /**
     * One tick. `parses` stands for `JSON.parse` succeeding and `accepts` for
     * the index call succeeding; a line failing either is skipped and the loop
     * goes on.
     */
    method Poll(snap: LogSnapshot, parses: string -> bool, accepts: string -> bool)
      returns (attempted: seq<string>)
      modifies this
      ensures attempted == Attempted(old(lastPosition), snap)
      ensures indexed == old(indexed) + Filter(attempted, Indexable(parses, accepts))
      ensures lastPosition == NextPosition(old(lastPosition), snap)
    {
      attempted := [];
      if snap.Missing? || snap.size <= lastPosition {
        return;
      }
      var lines := CandidateLines(snap.content);
      var keep := Indexable(parses, accepts);
      var submitted := indexed;
      var i := StartIndex(lastPosition);
      if i < |lines| {
        ghost var start := i;
        while i < |lines|
          invariant start <= i <= |lines| && attempted == lines[start..i]
          invariant submitted == old(indexed) + Filter(attempted, keep)
        {
          var line := lines[i];
          IndexedStep(old(indexed), attempted, line, keep, submitted);
          if parses(line) && accepts(line) {
            submitted := submitted + [line];
          }
          SliceSnoc(lines, start, i);
          attempted := attempted + [line];
          i := i + 1;
        }
      }
      indexed := submitted;
      lastPosition := snap.size;
    }
  }

  // ---------------------------------------------------------------------------
  // The cursor over many polls
  // ---------------------------------------------------------------------------

  /** The cursor after the polls `snaps`, in order. */
  function PositionAfter(lastPosition: nat, snaps: seq<LogSnapshot>): nat
    decreases |snaps|
  {
    if snaps == [] then lastPosition
    else NextPosition(PositionAfter(lastPosition, snaps[..|snaps| - 1]), snaps[|snaps| - 1])
  }

  /** The largest of `lastPosition` and every size a poll saw. */
  function LargestSeen(lastPosition: nat, snaps: seq<LogSnapshot>): (m: nat)
    ensures m >= lastPosition
    ensures forall k :: 0 <= k < |snaps| && snaps[k].Present? ==> m >= snaps[k].size
    decreases |snaps|
  {
    if snaps == [] then lastPosition
    else
      var m := LargestSeen(lastPosition, snaps[..|snaps| - 1]);
      var last := snaps[|snaps| - 1];
      if last.Present? && last.size > m then last.size else m
  }

  /**
   * The cursor is the largest size ever seen: it never goes back, and a file
   * that shrank (truncated or rotated) is not read again until it outgrows
   * its old size.
   */
  lemma {:induction false} PositionIsLargestSeen(lastPosition: nat, snaps: seq<LogSnapshot>)
    ensures PositionAfter(lastPosition, snaps) == LargestSeen(lastPosition, snaps)
    decreases |snaps|
  {
    if snaps != [] {
      PositionIsLargestSeen(lastPosition, snaps[..|snaps| - 1]);
    }
  }

  // ---------------------------------------------------------------------------
  // What a poll submits, for a log written one JSON line at a time
  // ---------------------------------------------------------------------------

  /** The complete lines of a log, then an unterminated fragment: the non-blank ones come back in order. */
  lemma {:induction false} CandidatesOfLog(ls: seq<string>, fragment: string)
    requires forall k :: 0 <= k < |ls| ==> IsLogLine(ls[k])
    requires '\n' !in fragment
    ensures CandidateLines(Lines(ls) + fragment) == ls + (if Blank(fragment) then [] else [fragment])
  {
    SplitLines(ls, fragment);
    FilterConcat(ls, [fragment], NonBlank);
    assert forall k :: 0 <= k < |ls| ==> NonBlank(ls[k]);
    FilterAll(ls, NonBlank);
    assert [fragment][1..] == [];
    assert Filter([fragment], NonBlank) == if NonBlank(fragment) then [fragment] else [];
  }

  /** The first poll of a non-empty file submits every non-blank line. */
  lemma {:induction false} FirstPollSubmitsAll(snap: LogSnapshot)
    requires snap.Present? && snap.size > 0
    ensures Attempted(0, snap) == CandidateLines(snap.content)
  {
  }

  /** A line still being written when the file is read is submitted as it stands. */
  lemma {:induction false} FragmentSubmitted(lastPosition: nat, ls: seq<string>, fragment: string, size: nat)
    requires forall k :: 0 <= k < |ls| ==> IsLogLine(ls[k])
    requires IsLogLine(fragment)
    requires size > lastPosition && StartIndex(lastPosition) <= |ls|
    ensures Attempted(lastPosition, Present(size, Lines(ls) + fragment)) ==
      ls[StartIndex(lastPosition)..] + [fragment]
  {
    CandidatesOfLog(ls, fragment);
  }

  /** Lines of at least 99 characters take at least 100 bytes each with their line break. */
  lemma {:induction false} LongLinesSize(ls: seq<string>)
    requires forall k :: 0 <= k < |ls| ==> |ls[k]| >= 99
    ensures Utf8Size(Lines(ls)) >= |Lines(ls)| >= 100 * |ls|
    decreases |ls|
  {
    if ls != [] {
      LongLinesSize(ls[..|ls| - 1]);
    }
  }

  function Min(a: int, b: int): int {
    if a <= b then a else b
  }

  /** A log of complete lines gives its lines back. */
  lemma {:induction false} CompleteLogCandidates(ls: seq<string>)
    requires forall k :: 0 <= k < |ls| ==> IsLogLine(ls[k])
    ensures CandidateLines(Lines(ls)) == ls
  {
    CandidatesOfLog(ls, "");
    assert Lines(ls) + "" == Lines(ls);
  }

  /** Appending lines makes the file larger. */
  lemma {:induction false} LogGrows(read: seq<string>, added: seq<string>)
    requires added != []
    ensures Utf8Size(Lines(read + added)) > Utf8Size(Lines(read))
  {
    LinesConcat(read, added);
    Utf8SizeConcat(Lines(read), Lines(added));
    assert |Lines(added)| > 0;
  }

  /** What a poll submits, once the candidate lines of the content are known. */
  lemma {:induction false} AttemptedOfLines(lastPosition: nat, size: nat, content: string, ls: seq<string>)
    requires CandidateLines(content) == ls
    ensures Attempted(lastPosition, Present(size, content)) ==
      if size > lastPosition && StartIndex(lastPosition) < |ls| then ls[StartIndex(lastPosition)..] else []
  {
  }

  lemma {:induction false} ConcatLogLines(a: seq<string>, b: seq<string>)
    requires forall k :: 0 <= k < |a| ==> IsLogLine(a[k])
    requires forall k :: 0 <= k < |b| ==> IsLogLine(b[k])
    ensures forall k :: 0 <= k < |a + b| ==> IsLogLine((a + b)[k])
  {
    forall k | 0 <= k < |a + b|
      ensures IsLogLine((a + b)[k])
    {
      if k >= |a| {
        assert (a + b)[k] == b[k - |a|];
      }
    }
  }

  lemma {:induction false} SuffixOfConcat<T>(a: seq<T>, b: seq<T>, start: nat)
    requires |a| <= start <= |a + b|
    ensures (a + b)[start..] == b[start - |a|..]
  {
  }

  /**
   * When every line is at least 99 characters long (every record the target
   * writes is), a poll after the log of `read` has been read never submits a
   * line of `read` again: what it submits is a suffix of the added lines.
   */
  lemma {:induction false} NoResubmissionOfLongLines(read: seq<string>, added: seq<string>)
    requires forall k :: 0 <= k < |read| ==> IsLogLine(read[k]) && |read[k]| >= 99
    requires forall k :: 0 <= k < |added| ==> IsLogLine(added[k])
    ensures StartIndex(Utf8Size(Lines(read))) >= |read|
    ensures var p := Utf8Size(Lines(read));
      Attempted(p, Present(Utf8Size(Lines(read + added)), Lines(read + added))) ==
        added[Min(StartIndex(p) - |read|, |added|)..]
  {
    LongLinesSize(read);
    ConcatLogLines(read, added);
    CompleteLogCandidates(read + added);
    if added == [] {
      assert read + added == read;
    } else {
      LogGrows(read, added);
    }
    SubmittedAfterCursor(read, added, Utf8Size(Lines(read)), Utf8Size(Lines(read + added)), Lines(read + added));
  }

  /** The counting core of the lemma above: the cursor points at or past the first added line. */
  lemma {:induction false} SubmittedAfterCursor(read: seq<string>, added: seq<string>, p: nat, size: nat, content: string)
    requires CandidateLines(content) == read + added
    requires p >= 100 * |read|
    requires added == [] ==> size == p
    requires added != [] ==> size > p
    ensures Attempted(p, Present(size, content)) == added[Min(StartIndex(p) - |read|, |added|)..]
  {
    var all := read + added;
    var start := StartIndex(p);
    AttemptedOfLines(p, size, content, all);
    if added != [] && start < |all| {
      SuffixOfConcat(read, added, start);
    }
  }

  /**
   * The cursor can pass over a new line: after a first record of 199 or more
   * characters has been read, the next poll sees the second record arrive
   * and submits nothing, since the cursor already points past line 1.
   */
  lemma {:induction false} LongFirstRecordHidesSecond(a: string, b: string)
    requires IsLogLine(a) && |a| >= 199 && IsLogLine(b)
    ensures var p := Utf8Size(Lines([a]));
      && Grew(p, Present(Utf8Size(Lines([a, b])), Lines([a, b])))
      && Attempted(p, Present(Utf8Size(Lines([a, b])), Lines([a, b]))) == []
  {
    LinesSingle(a);
    assert [a, b] == [a] + [b];
    LogGrows([a], [b]);
    CompleteLogCandidates([a, b]);
  }

  /**
   * The cursor can also go back over lines already sent: while the log is
   * under 100 bytes, every poll that sees it grow submits every line again.
   */
  lemma {:induction false} ShortLogResubmitted(read: seq<string>, added: seq<string>)
    requires forall k :: 0 <= k < |read| ==> IsLogLine(read[k])
    requires forall k :: 0 <= k < |added| ==> IsLogLine(added[k])
    requires Utf8Size(Lines(read)) < 100 && added != []
    ensures var p := Utf8Size(Lines(read));
      Attempted(p, Present(Utf8Size(Lines(read + added)), Lines(read + added))) == read + added
  {
    CompleteLogCandidates(read + added);
    LogGrows(read, added);
  }

  /** A line that fails to parse or to index does not stop the lines after it. */
  lemma {:induction false} FailedLineSkipped(before: seq<string>, bad: string, after: seq<string>,
                          parses: string -> bool, accepts: string -> bool)
    requires !(parses(bad) && accepts(bad))
    ensures Filter(before + [bad] + after, Indexable(parses, accepts)) ==
      Filter(before, Indexable(parses, accepts)) + Filter(after, Indexable(parses, accepts))
  {
    var keep := Indexable(parses, accepts);
    FilterConcat(before + [bad], after, keep);
    FilterConcat(before, [bad], keep);
    assert [bad][1..] == [];
  }
}
