/**
 * One file's pass: the per-line loop over a cleaner object that owns the
 * seen-title set, the accepted records and the four counters, the stop flag
 * polled before each line, and the write-out of the accepted records.
 */
module Cleaner {
  import opened Wrappers
  import opened Json
  import opened FieldRewriter
  import opened LineScan
  import opened Chunking
  import opened DedupReference

  /** The loop state of one file's pass (json_cleaner.py:395-404). */
  class FileCleaner {
    const decode: Decoder
    var seenTitles: set<TitleKey>
    var uniqueRecords: seq<Record>
    var emptyLines: nat
    var duplicates: nat
    var parseErrors: nat
    var processedLines: nat

    /** The fields, as the value the specification functions work on. */
    function State(): Tally
      reads this
    {
      Tally(seenTitles, uniqueRecords, emptyLines, duplicates, parseErrors, processedLines)
    }

    /** A fresh pass: nothing seen, nothing kept, every counter zero. */
    constructor (decode: Decoder)
      ensures this.decode == decode && State() == Initial
    {
      this.decode := decode;
      seenTitles, uniqueRecords := {}, [];
      emptyLines, duplicates, parseErrors, processedLines := 0, 0, 0, 0;
    }

    /**
     * One iteration of the loop body (json_cleaner.py:420-455): the verdict
     * is the one Classify gives, and unless the title could not be hashed
     * the new state is the old one with that verdict applied. When it could
     * not, Python raises and the state stays as it was.
     */
    method ProcessLine(raw: string) returns (verdict: Verdict)
      modifies this
      ensures verdict == Classify(raw, decode, old(seenTitles))
      ensures State() == if verdict.Unhashable? then old(State()) else Apply(old(State()), verdict)
    {
      ghost var before := State();
      ghost var expected := Classify(raw, decode, seenTitles);
      var line := Strip(raw);
      if line == [] {
        emptyLines := emptyLines + 1;
        verdict := Blank;
        assert verdict == expected && State() == Apply(before, verdict);
      } else {
        var parsed := decode(line);
        if parsed.None? {
          parseErrors := parseErrors + 1;
          verdict := Unparsable;
          assert verdict == expected && State() == Apply(before, verdict);
        } else {
          var record := parsed.value;
          assert expected == ClassifyRecord(record, before.seenTitles);
          var title := Null;
          if TitleKeyName in record {
            title := record[TitleKeyName];
          } else if LocalTitleKeyName in record {
            title := record[LocalTitleKeyName];
          }
          assert title == TitleOf(record);
          var key: Option<TitleKey> := None;
          var isDuplicate := false;
          if !title.Null? {
            if !IsHashable(title) {
              assert expected == Unhashable;
              return Unhashable;
            }
            if KeyOf(title) in seenTitles {
              duplicates := duplicates + 1;
              isDuplicate := true;
            } else {
              seenTitles := seenTitles + {KeyOf(title)};
              key := Some(KeyOf(title));
            }
          }
          if isDuplicate {
            verdict := Duplicate(KeyOf(title));
            assert verdict == expected && State() == Apply(before, verdict);
          } else {
            record := ReplaceFieldValues(record);
            uniqueRecords := uniqueRecords + [record];
            processedLines := processedLines + 1;
            verdict := Accepted(key, record);
            assert verdict == expected && State() == Apply(before, verdict);
          }
        }
      }
    }
  }

  /** How one file's pass ends. */
  datatype FileOutcome =
    | Stopped                                       // the stop flag was seen: nothing written
    | Failed(lineNumber: nat)                       // TypeError raised at this line: nothing written
    | Saved(tally: Tally, files: seq<OutputFile>)   // the counters, and the files written in order

  /** The index of the first poll that sees the stop flag, or |stops| when none does. */
  function FirstStop(stops: seq<bool>): (k: nat)
    ensures k <= |stops|
    ensures k < |stops| ==> stops[k]
    ensures forall j :: 0 <= j < k ==> !stops[j]
  {
    if stops == [] then 0 else if stops[0] then 0 else 1 + FirstStop(stops[1..])
  }

  /** A poll that does not see the stop flag, at or before the first that does, moves past it. */
  lemma PollPassed(stops: seq<bool>, i: nat)
    requires i < |stops| && !stops[i] && i <= FirstStop(stops)
    ensures i + 1 <= FirstStop(stops)
  {
  }

  /**
   * What one file's pass does: lines are handled until the first poll that
   * sees the stop flag; an exception before that point fails the file; a
   * stop returns; otherwise the accepted records are written out.
   */
  function FileSpec(stem: string, lines: seq<string>, stops: seq<bool>, decode: Decoder): FileOutcome
    requires |stops| == |lines|
  {
    var k := FirstStop(stops);
    match Scan(lines, decode, k)
    case Raised(n) => Failed(n)
    case Scanned(t) => if k < |lines| then Stopped else Saved(t, OutputPlan(stem, t.uniqueRecords))
  }

  /**
   * `process_single_file` (json_cleaner.py:395-488): a fresh cleaner per
   * file, the stop flag `stops[i]` polled before line i, then the write-out.
   */
  method ProcessSingleFile(stem: string, lines: seq<string>, stops: seq<bool>, decode: Decoder)
    returns (outcome: FileOutcome)
    requires |stops| == |lines|
    ensures outcome == FileSpec(stem, lines, stops, decode)
  {
    var cleaner := new FileCleaner(decode);
    var i := 0;
    while i < |lines|
      invariant 0 <= i <= |lines| && i <= FirstStop(stops)
      invariant cleaner.decode == decode
      invariant Scan(lines, decode, i) == Scanned(cleaner.State())
    {
      if stops[i] {
        StopAt(stem, lines, stops, decode, i);
        return Stopped;
      }
      PollPassed(stops, i);
      ScanNext(lines, decode, i);
      var verdict := cleaner.ProcessLine(lines[i]);
      if verdict.Unhashable? {
        FailAt(stem, lines, stops, decode, i);
        return Failed(i + 1);
      }
      i := i + 1;
    }
    var files := WriteOutputs(stem, cleaner.uniqueRecords);
    outcome := Saved(cleaner.State(), files);
    SaveAt(stem, lines, stops, decode, cleaner.State());
  }

  /** The first poll to see the stop flag, after lines that ran cleanly, stops the pass. */
  lemma StopAt(stem: string, lines: seq<string>, stops: seq<bool>, decode: Decoder, i: nat)
    requires |stops| == |lines| && i < |lines| && stops[i] && i <= FirstStop(stops)
    requires Scan(lines, decode, i).Scanned?
    ensures FileSpec(stem, lines, stops, decode) == Stopped
  {
    assert FirstStop(stops) == i;
  }

  /** The first line that raises, before any poll saw the stop flag, fails the pass there. */
  lemma FailAt(stem: string, lines: seq<string>, stops: seq<bool>, decode: Decoder, i: nat)
    requires |stops| == |lines| && i < |lines| && !stops[i] && i <= FirstStop(stops)
    requires Scan(lines, decode, i + 1) == Raised(i + 1)
    ensures FileSpec(stem, lines, stops, decode) == Failed(i + 1)
  {
    PollPassed(stops, i);
    RaisedPersists(lines, decode, i + 1, FirstStop(stops));
  }

  /** A pass no poll stopped and no line failed writes out the records it accepted. */
  lemma SaveAt(stem: string, lines: seq<string>, stops: seq<bool>, decode: Decoder, t: Tally)
    requires |stops| == |lines| && FirstStop(stops) == |lines|
    requires Scan(lines, decode, |lines|) == Scanned(t)
    ensures FileSpec(stem, lines, stops, decode) == Saved(t, OutputPlan(stem, t.uniqueRecords))
  {
  }

  /** When any poll sees the stop flag, the pass ends without writing anything. */
  lemma StopWritesNothing(stem: string, lines: seq<string>, stops: seq<bool>, decode: Decoder)
    requires |stops| == |lines|
    ensures (exists i :: 0 <= i < |stops| && stops[i]) ==> !FileSpec(stem, lines, stops, decode).Saved?
    ensures FileSpec(stem, lines, stops, decode).Stopped? ==> FirstStop(stops) < |stops|
  {
  }

  /**
   * A failed pass failed at a line no stop poll preceded, and that line
   * decodes to a record whose title is a list or a dict.
   */
  lemma FailureComesFromUnhashableTitle(stem: string, lines: seq<string>, stops: seq<bool>, decode: Decoder)
    requires |stops| == |lines|
    requires FileSpec(stem, lines, stops, decode).Failed?
    ensures var n := FileSpec(stem, lines, stops, decode).lineNumber;
      && 0 < n <= |lines|
      && (forall j :: 0 <= j < n ==> !stops[j])
      && Strip(lines[n - 1]) != [] && decode(Strip(lines[n - 1])).Some?
      && (TitleOf(decode(Strip(lines[n - 1])).value).Arr? || TitleOf(decode(Strip(lines[n - 1])).value).Obj?)
  {
    var k := FirstStop(stops);
    RaisedAtUnhashableTitle(lines, decode, k);
    var n := Scan(lines, decode, k).lineNumber;
    UnhashableMeansListOrDictTitle(lines[n - 1], decode, Scan(lines, decode, n - 1).tally.seenTitles);
  }

  /**
   * A pass that writes its output saw no stop flag; its counters account for
   * every line; the files hold, in order and at most MaxLinesPerFile each,
   * exactly the rewritten first occurrences of the decoded records; and no
   * two records written share a non-null title.
   */
  lemma SavedOutputLaw(stem: string, lines: seq<string>, stops: seq<bool>, decode: Decoder)
    requires |stops| == |lines|
    requires FileSpec(stem, lines, stops, decode).Saved?
    ensures forall i :: 0 <= i < |stops| ==> !stops[i]
    ensures var out := FileSpec(stem, lines, stops, decode);
      var t := out.tally;
      && t.emptyLines + t.parseErrors + t.duplicates + t.processedLines == |lines|
      && t.processedLines == |t.uniqueRecords|
      && Flatten(RecordsOf(out.files)) == t.uniqueRecords
      && (forall i :: 0 <= i < |out.files| ==> |out.files[i].records| <= MaxLinesPerFile)
      && TitlesHashable(Decoded(lines, decode, |lines|))
      && t.uniqueRecords == RewrittenAll(FirstOccurrences(Decoded(lines, decode, |lines|)))
      && TitlesHashable(t.uniqueRecords) && DistinctTitles(t.uniqueRecords)
  {
    var out := FileSpec(stem, lines, stops, decode);
    assert FirstStop(stops) == |lines|;
    ScanAccounting(lines, decode, |lines|);
    ScanTitles(lines, decode, |lines|);
    ScanMatchesReference(lines, decode, |lines|);
    OutputPlanLaw(stem, out.tally.uniqueRecords);
  }
}
