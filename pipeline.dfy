/**
 * The two halves of the pipeline together: the attack log that the monitored
 * application (target/server.js) writes, read by the dashboard's tailer
 * (soc-dashboard/server.js).
 */
module Pipeline {

  import opened Text
  import opened JsonLine
  import opened TargetApp
  import opened LogTailer

  /**
   * For a log file that the application created and filled with the records
   * `read + added`: once the tailer has read the log of `read`, its next poll
   * never submits a record of `read` again. Every record line is longer than
   * the 99 characters the cursor arithmetic needs, so the cursor already points
   * past all of `read`, and what is submitted is a suffix of `added`.
   */
  lemma {:induction false} RecordsNotResubmitted(read: seq<string>, added: seq<string>)
    requires RecordLines(read + added)
    ensures StartIndex(Utf8Size(Lines(read))) >= |read|
    ensures var p := Utf8Size(Lines(read));
      Attempted(p, Present(Utf8Size(Lines(read + added)), Lines(read + added))) ==
        added[Min(StartIndex(p) - |read|, |added|)..]
  {
    RecordLinesEach(read + added);
    forall k | 0 <= k < |read|
      ensures IsLogLine(read[k]) && |read[k]| >= 99
    {
      assert read[k] == (read + added)[k];
    }
    forall k | 0 <= k < |added|
      ensures IsLogLine(added[k])
    {
      assert added[k] == (read + added)[|read| + k];
    }
    NoResubmissionOfLongLines(read, added);
  }
}
