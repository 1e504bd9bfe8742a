/**
 * The per-line decision of the cleaning loop and the tally it keeps, as
 * functions: what one raw line does to the counters, the seen-title set and
 * the accepted records, and the state after a whole sequence of lines.
 */
module LineScan {
  import opened Wrappers
  import opened Json
  import opened FieldRewriter

  /** Python's `str.isspace`, the set of characters `str.strip()` removes. */
  predicate IsSpace(c: char) {
    || ('\t' <= c <= '\r')
    || ('\U{1C}' <= c <= '\U{1F}')
    || c == ' ' || c == '\U{85}' || c == '\U{A0}' || c == '\U{1680}'
    || ('\U{2000}' <= c <= '\U{200A}')
    || c == '\U{2028}' || c == '\U{2029}' || c == '\U{202F}' || c == '\U{205F}' || c == '\U{3000}'
  }

  /** `s` without its leading whitespace. */
  function StripLeading(s: string): string
    decreases |s|
  {
    if s != [] && IsSpace(s[0]) then StripLeading(s[1..]) else s
  }

  /** `s` without its trailing whitespace. */
  function StripTrailing(s: string): string
    decreases |s|
  {
    if s != [] && IsSpace(s[|s| - 1]) then StripTrailing(s[..|s| - 1]) else s
  }

  /** Python's `line.strip()`. */
  function Strip(s: string): string {
    StripTrailing(StripLeading(s))
  }

  /** StripLeading drops a run of whitespace from the front and stops at the first other character. */
  lemma {:induction false} StripLeadingSpec(s: string)
    ensures var r := StripLeading(s);
      && |r| <= |s| && r == s[|s| - |r|..]
      && (forall i :: 0 <= i < |s| - |r| ==> IsSpace(s[i]))
      && (r != [] ==> !IsSpace(r[0]))
    decreases |s|
  {
    if s != [] && IsSpace(s[0]) {
      StripLeadingSpec(s[1..]);
    }
  }

  /** StripTrailing drops a run of whitespace from the back and stops at the last other character. */
  lemma {:induction false} StripTrailingSpec(s: string)
    ensures var r := StripTrailing(s);
      && |r| <= |s| && r == s[..|r|]
      && (forall i :: |r| <= i < |s| ==> IsSpace(s[i]))
      && (r != [] ==> !IsSpace(r[|r| - 1]))
    decreases |s|
  {
    if s != [] && IsSpace(s[|s| - 1]) {
      StripTrailingSpec(s[..|s| - 1]);
    }
  }

  /**
   * A line strips to nothing exactly when every character of it is
   * whitespace; otherwise the stripped text is a slice of it that starts and
   * ends with a non-whitespace character.
   */
  lemma StripSpec(s: string)
    ensures Strip(s) == [] <==> forall i :: 0 <= i < |s| ==> IsSpace(s[i])
    ensures Strip(s) != [] ==> !IsSpace(Strip(s)[0]) && !IsSpace(Strip(s)[|Strip(s)| - 1])
    ensures exists i, j :: 0 <= i <= j <= |s| && Strip(s) == s[i..j]
  {
    var lead := StripLeading(s);
    StripLeadingSpec(s);
    StripTrailingSpec(lead);
    var r := Strip(s);
    if r == [] {
      assert lead == [];
    } else {
      assert r[0] == lead[0];
    }
    var i := |s| - |lead|;
    assert r == s[i..i + |r|];
  }

  /** The decoder `json.loads`, as an oracle: the object a text decodes to, or None on a decode error. */
  type Decoder = string -> Option<Record>

  /** What the loop does with one raw line, given the titles seen so far. */
  datatype Verdict =
    | Blank                                           // empty after strip(): counted, never decoded
    | Unparsable                                      // decoding failed: counted
    | Unhashable                                      // list or dict title: `in` on the set raises TypeError
    | Duplicate(seenKey: TitleKey)                    // title already seen: counted, dropped
    | Accepted(newKey: Option<TitleKey>, record: Record) // rewritten record, kept; its title key if any

  /** The decision json_cleaner.py:420-455 takes for one line. */
  function Classify(raw: string, decode: Decoder, seen: set<TitleKey>): Verdict {
    var line := Strip(raw);
    if line == [] then Blank
    else match decode(line)
      case None => Unparsable
      case Some(record) => ClassifyRecord(record, seen)
  }

  /** The decision json_cleaner.py:436-451 takes for a decoded record. */
  function ClassifyRecord(record: Record, seen: set<TitleKey>): Verdict {
    var title := TitleOf(record);
    if title.Null? then Accepted(None, Rewritten(record))
    else if !IsHashable(title) then Unhashable
    else if KeyOf(title) in seen then Duplicate(KeyOf(title))
    else Accepted(Some(KeyOf(title)), Rewritten(record))
  }

  /** The loop's state: the seen-title set, the accepted records and the four counters. */
  datatype Tally = Tally(
    seenTitles: set<TitleKey>,
    uniqueRecords: seq<Record>,
    emptyLines: nat,
    duplicates: nat,
    parseErrors: nat,
    processedLines: nat)

  /** The state before the first line: every file starts with an empty seen set. */
  const Initial := Tally({}, [], 0, 0, 0, 0)

  /** The seen-set gains the accepted record's title key, if it has one. */
  function AddKey(seen: set<TitleKey>, key: Option<TitleKey>): set<TitleKey> {
    if key.Some? then seen + {key.value} else seen
  }

  /** The state after one line that did not raise. */
  function Apply(t: Tally, v: Verdict): (r: Tally)
    requires !v.Unhashable?
    ensures t.seenTitles <= r.seenTitles
  {
    match v
    case Blank => t.(emptyLines := t.emptyLines + 1)
    case Unparsable => t.(parseErrors := t.parseErrors + 1)
    case Duplicate(_) => t.(duplicates := t.duplicates + 1)
    case Accepted(key, record) =>
      t.(seenTitles := AddKey(t.seenTitles, key),
         uniqueRecords := t.uniqueRecords + [record],
         processedLines := t.processedLines + 1)
  }

  /** Where the loop stands: still going, or stopped by the exception raised at a 1-based line. */
  datatype ScanResult = Scanned(tally: Tally) | Raised(lineNumber: nat)

  /** The effect of one more line. */
  function Next(r: ScanResult, raw: string, decode: Decoder, lineNumber: nat): ScanResult {
    match r
    case Raised(n) => Raised(n)
    case Scanned(t) =>
      var v := Classify(raw, decode, t.seenTitles);
      if v.Unhashable? then Raised(lineNumber) else Scanned(Apply(t, v))
  }

  /** The loop run over the first `n` of `lines`, ignoring cancellation. */
  function Scan(lines: seq<string>, decode: Decoder, n: nat): ScanResult
    requires n <= |lines|
  {
    if n == 0 then Scanned(Initial)
    else Next(Scan(lines, decode, n - 1), lines[n - 1], decode, n)
  }

  /** A line that ended without an exception extends the tally before it by one step. */
  lemma ScanStep(lines: seq<string>, decode: Decoder, n: nat)
    requires 0 < n <= |lines| && Scan(lines, decode, n).Scanned?
    ensures Scan(lines, decode, n - 1).Scanned?
    ensures var t := Scan(lines, decode, n - 1).tally;
      var v := Classify(lines[n - 1], decode, t.seenTitles);
      !v.Unhashable? && Scan(lines, decode, n).tally == Apply(t, v)
  {
  }

  /** After a clean prefix, the next line either raises at its own number or applies its verdict. */
  lemma ScanNext(lines: seq<string>, decode: Decoder, i: nat)
    requires i < |lines| && Scan(lines, decode, i).Scanned?
    ensures var t := Scan(lines, decode, i).tally;
      var v := Classify(lines[i], decode, t.seenTitles);
      Scan(lines, decode, i + 1) == if v.Unhashable? then Raised(i + 1) else Scanned(Apply(t, v))
  {
  }

  /** The state after `n` lines depends on those lines only. */
  lemma {:induction false} ScanPrefix(lines: seq<string>, more: seq<string>, decode: Decoder, n: nat)
    requires n <= |lines|
    ensures Scan(lines + more, decode, n) == Scan(lines, decode, n)
  {
    if n > 0 {
      ScanPrefix(lines, more, decode, n - 1);
      assert (lines + more)[n - 1] == lines[n - 1];
    }
  }

  /** Once a line has raised, every later state is that same exception. */
  lemma {:induction false} RaisedPersists(lines: seq<string>, decode: Decoder, i: nat, k: nat)
    requires i <= k <= |lines|
    requires Scan(lines, decode, i).Raised?
    ensures Scan(lines, decode, k) == Scan(lines, decode, i)
    decreases k
  {
    if k > i {
      RaisedPersists(lines, decode, i, k - 1);
    }
  }

  /**
   * An exception comes from one line: the first `lineNumber - 1` lines ran
   * cleanly and line `lineNumber` holds a record whose title is a list or a dict.
   */
  lemma {:induction false} RaisedAtUnhashableTitle(lines: seq<string>, decode: Decoder, n: nat)
    requires n <= |lines| && Scan(lines, decode, n).Raised?
    ensures var m := Scan(lines, decode, n).lineNumber;
      && 0 < m <= n
      && Scan(lines, decode, m - 1).Scanned?
      && Classify(lines[m - 1], decode, Scan(lines, decode, m - 1).tally.seenTitles) == Unhashable
  {
    if Scan(lines, decode, n - 1).Raised? {
      RaisedAtUnhashableTitle(lines, decode, n - 1);
      assert Scan(lines, decode, n) == Scan(lines, decode, n - 1);
    } else {
      ScanNext(lines, decode, n - 1);
    }
  }

  /** Unhashable is the verdict exactly for a decoded record whose title is a list or a dict. */
  lemma UnhashableMeansListOrDictTitle(raw: string, decode: Decoder, seen: set<TitleKey>)
    ensures Classify(raw, decode, seen) == Unhashable <==>
      Strip(raw) != [] && decode(Strip(raw)).Some? &&
      (TitleOf(decode(Strip(raw)).value).Arr? || TitleOf(decode(Strip(raw)).value).Obj?)
  {
  }

  /**
   * A blank line is never decoded: its verdict is Blank whatever the decoder
   * and the seen set; a non-blank line's verdict depends on the decoder only
   * through the stripped text.
   */
  lemma BlankNeverDecoded(raw: string, d1: Decoder, d2: Decoder, seen: set<TitleKey>)
    ensures (forall i :: 0 <= i < |raw| ==> IsSpace(raw[i])) <==> Classify(raw, d1, seen) == Blank
    ensures (forall i :: 0 <= i < |raw| ==> IsSpace(raw[i])) ==> Classify(raw, d2, seen) == Blank
    ensures d1(Strip(raw)) == d2(Strip(raw)) ==> Classify(raw, d1, seen) == Classify(raw, d2, seen)
  {
    StripSpec(raw);
  }

  /**
   * A record whose title is absent or null is accepted whatever was seen
   * before, and leaves the seen set as it was.
   */
  lemma UntitledAlwaysAccepted(raw: string, decode: Decoder, t: Tally, record: Record)
    requires Strip(raw) != [] && decode(Strip(raw)) == Some(record)
    requires TitleOf(record).Null?
    ensures Classify(raw, decode, t.seenTitles) == Accepted(None, Rewritten(record))
    ensures Apply(t, Classify(raw, decode, t.seenTitles)).seenTitles == t.seenTitles
  {
  }

  /**
   * A decoded record with a hashable, non-null title is rejected as a
   * duplicate exactly when its title is already in the seen set; otherwise it
   * is accepted and its title joins the set.
   */
  lemma DuplicateExactlyWhenSeen(raw: string, decode: Decoder, t: Tally, record: Record)
    requires Strip(raw) != [] && decode(Strip(raw)) == Some(record)
    requires IsHashable(TitleOf(record)) && !TitleOf(record).Null?
    ensures Classify(raw, decode, t.seenTitles).Duplicate? <==> KeyOf(TitleOf(record)) in t.seenTitles
    ensures !Classify(raw, decode, t.seenTitles).Duplicate? ==>
      Apply(t, Classify(raw, decode, t.seenTitles)).seenTitles == t.seenTitles + {KeyOf(TitleOf(record))}
  {
  }

  /** The counters account for every line read, and processedLines counts the accepted records. */
  lemma {:induction false} ScanAccounting(lines: seq<string>, decode: Decoder, n: nat)
    requires n <= |lines| && Scan(lines, decode, n).Scanned?
    ensures var t := Scan(lines, decode, n).tally;
      && t.emptyLines + t.parseErrors + t.duplicates + t.processedLines == n
      && t.processedLines == |t.uniqueRecords|
  {
    if n > 0 {
      ScanStep(lines, decode, n);
      ScanAccounting(lines, decode, n - 1);
    }
  }

  /** Within one file the seen set only grows from line to line. */
  lemma {:induction false} SeenTitlesGrow(lines: seq<string>, decode: Decoder, i: nat, n: nat)
    requires i <= n <= |lines| && Scan(lines, decode, n).Scanned?
    ensures Scan(lines, decode, i).Scanned?
    ensures Scan(lines, decode, i).tally.seenTitles <= Scan(lines, decode, n).tally.seenTitles
    decreases n
  {
    if i < n {
      ScanStep(lines, decode, n);
      SeenTitlesGrow(lines, decode, i, n - 1);
    }
  }

  /** Every record's title is hashable (absent and null included). */
  predicate TitlesHashable(records: seq<Record>) {
    forall i :: 0 <= i < |records| ==> IsHashable(TitleOf(records[i]))
  }

  /** No two of the records share a non-null title (in Python's sense of equal). */
  predicate DistinctTitles(records: seq<Record>)
    requires TitlesHashable(records)
  {
    forall i, j :: 0 <= i < j < |records| && TitleKeyOf(records[i]).Some? ==> TitleKeyOf(records[i]) != TitleKeyOf(records[j])
  }

  /** The title keys of the records. */
  predicate HasTitleKey(records: seq<Record>, key: TitleKey)
    requires TitlesHashable(records)
  {
    exists i :: 0 <= i < |records| && TitleKeyOf(records[i]) == Some(key)
  }

  /**
   * What the loop keeps true of its state: the seen set is exactly the set
   * of titles of the accepted records, no two accepted records share a
   * title, and every accepted record is already rewritten.
   */
  ghost predicate TitlesTracked(t: Tally) {
    && TitlesHashable(t.uniqueRecords)
    && (forall k :: k in t.seenTitles <==> HasTitleKey(t.uniqueRecords, k))
    && DistinctTitles(t.uniqueRecords)
    && (forall i :: 0 <= i < |t.uniqueRecords| ==> Rewritten(t.uniqueRecords[i]) == t.uniqueRecords[i])
  }

  /**
   * An accepted record is rewritten, its title is hashable, its key is the
   * one the verdict carries, and that key had not been seen.
   */
  lemma AcceptedRecord(raw: string, decode: Decoder, seen: set<TitleKey>)
    requires Classify(raw, decode, seen).Accepted?
    ensures var v := Classify(raw, decode, seen);
      && IsHashable(TitleOf(v.record)) && TitleKeyOf(v.record) == v.newKey
      && Rewritten(v.record) == v.record
      && (v.newKey.Some? ==> v.newKey.value !in seen)
  {
    var rec := decode(Strip(raw)).value;
    RewrittenKeepsTitle(rec);
    RewrittenIdempotent(rec);
  }

  /** Accepting a rewritten record under its own, unseen key keeps the titles tracked. */
  lemma AcceptKeepsTitlesTracked(t: Tally, key: Option<TitleKey>, rec: Record)
    requires TitlesTracked(t)
    requires IsHashable(TitleOf(rec)) && TitleKeyOf(rec) == key && Rewritten(rec) == rec
    requires key.Some? ==> key.value !in t.seenTitles
    ensures TitlesTracked(Apply(t, Accepted(key, rec)))
  {
    var u := t.uniqueRecords + [rec];
    assert TitlesHashable(u) by {
      forall i | 0 <= i < |u| ensures IsHashable(TitleOf(u[i])) {
        if i < |t.uniqueRecords| {
          assert u[i] == t.uniqueRecords[i];
        }
      }
    }
    forall k ensures k in AddKey(t.seenTitles, key) <==> HasTitleKey(u, k) {
      if HasTitleKey(t.uniqueRecords, k) {
        var i :| 0 <= i < |t.uniqueRecords| && TitleKeyOf(t.uniqueRecords[i]) == Some(k);
        assert u[i] == t.uniqueRecords[i];
      }
      if HasTitleKey(u, k) {
        var i :| 0 <= i < |u| && TitleKeyOf(u[i]) == Some(k);
        if i < |t.uniqueRecords| {
          assert u[i] == t.uniqueRecords[i];
        }
      }
      if key == Some(k) {
        assert TitleKeyOf(u[|u| - 1]) == Some(k);
      }
    }
    forall i, j | 0 <= i < j < |u| && TitleKeyOf(u[i]).Some?
      ensures TitleKeyOf(u[i]) != TitleKeyOf(u[j])
    {
      if j == |u| - 1 {
        assert u[i] == t.uniqueRecords[i];
        assert HasTitleKey(t.uniqueRecords, TitleKeyOf(u[i]).value);
      } else {
        assert u[i] == t.uniqueRecords[i] && u[j] == t.uniqueRecords[j];
      }
    }
    assert forall i :: 0 <= i < |u| ==> Rewritten(u[i]) == u[i] by {
      forall i | 0 <= i < |u| ensures Rewritten(u[i]) == u[i] {
        if i < |t.uniqueRecords| {
          assert u[i] == t.uniqueRecords[i];
        }
      }
    }
  }

  /**
   * After any number of lines: the seen set is exactly the set of titles of
   * the accepted records, no two accepted records share a title, and every
   * accepted record is already rewritten.
   */
  lemma {:induction false} ScanTitles(lines: seq<string>, decode: Decoder, n: nat)
    requires n <= |lines| && Scan(lines, decode, n).Scanned?
    ensures TitlesTracked(Scan(lines, decode, n).tally)
  {
    if n > 0 {
      ScanStep(lines, decode, n);
      ScanTitles(lines, decode, n - 1);
      var t := Scan(lines, decode, n - 1).tally;
      var v := Classify(lines[n - 1], decode, t.seenTitles);
      if v.Accepted? {
        AcceptedRecord(lines[n - 1], decode, t.seenTitles);
        AcceptKeepsTitlesTracked(t, v.newKey, v.record);
      }
    }
  }
}
