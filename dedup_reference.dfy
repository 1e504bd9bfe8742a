/**
 * An independent statement of what the cleaning loop keeps: the decoded
 * records in line order, thinned to the first record of each title, with
 * their fields rewritten. The lemmas show the seen-set loop computes exactly
 * that, and that running it again over its own output changes nothing.
 */
module DedupReference {
  import opened Wrappers
  import opened Json
  import opened FieldRewriter
  import opened LineScan

  /** The records the first `n` lines decode to, in line order (blank and undecodable lines give none). */
  function Decoded(lines: seq<string>, decode: Decoder, n: nat): seq<Record>
    requires n <= |lines|
  {
    if n == 0 then [] else Decoded(lines, decode, n - 1) + DecodedLine(lines[n - 1], decode)
  }

  /** The record one raw line decodes to, if it is not blank and decodes. */
  function DecodedLine(raw: string, decode: Decoder): seq<Record> {
    var line := Strip(raw);
    if line != [] && decode(line).Some? then [decode(line).value] else []
  }

  /** Each record, keeping it only when no earlier record carries the same non-null title. */
  function FirstOccurrences(records: seq<Record>): seq<Record>
    requires TitlesHashable(records)
  {
    if records == [] then []
    else
      var init, last := records[..|records| - 1], records[|records| - 1];
      assert TitlesHashable(init) by {
        forall i | 0 <= i < |init| ensures IsHashable(TitleOf(init[i])) {
          assert init[i] == records[i];
        }
      }
      var key := TitleKeyOf(last);
      FirstOccurrences(init) + if key.Some? && HasTitleKey(init, key.value) then [] else [last]
  }

  /** Every record rewritten, in order. */
  function RewrittenAll(records: seq<Record>): (result: seq<Record>)
    ensures |result| == |records|
    ensures forall i :: 0 <= i < |records| ==> result[i] == Rewritten(records[i])
  {
    if records == [] then [] else RewrittenAll(records[..|records| - 1]) + [Rewritten(records[|records| - 1])]
  }

  /** `a` is `b` with some elements left out, the rest in their order. */
  predicate IsSubsequence<T(==)>(a: seq<T>, b: seq<T>)
    decreases |b|
  {
    if a == [] then true
    else if b == [] then false
    else (a[|a| - 1] == b[|b| - 1] && IsSubsequence(a[..|a| - 1], b[..|b| - 1])) || IsSubsequence(a, b[..|b| - 1])
  }

  /** Appending to the longer sequence, or to both, keeps a subsequence a subsequence. */
  lemma SubsequenceExtend<T>(a: seq<T>, b: seq<T>, x: T)
    requires IsSubsequence(a, b)
    ensures IsSubsequence(a, b + [x]) && IsSubsequence(a + [x], b + [x])
  {
    assert (b + [x])[..|b|] == b;
    assert (a + [x])[..|a|] == a;
  }

  /** Appending a record with a hashable title keeps every title hashable. */
  lemma TitlesHashableAppend(records: seq<Record>, r: Record)
    requires TitlesHashable(records) && IsHashable(TitleOf(r))
    ensures TitlesHashable(records + [r])
  {
    var ext := records + [r];
    forall i | 0 <= i < |ext| ensures IsHashable(TitleOf(ext[i])) {
      if i < |records| {
        assert ext[i] == records[i];
      }
    }
  }

  /** A title key occurs in records with one appended exactly when it occurs before or in the new one. */
  lemma HasTitleKeyAppend(records: seq<Record>, r: Record, key: TitleKey)
    requires TitlesHashable(records) && IsHashable(TitleOf(r))
    ensures TitlesHashable(records + [r])
    ensures HasTitleKey(records + [r], key) <==> HasTitleKey(records, key) || TitleKeyOf(r) == Some(key)
  {
    TitlesHashableAppend(records, r);
    var ext := records + [r];
    if HasTitleKey(records, key) {
      var i :| 0 <= i < |records| && TitleKeyOf(records[i]) == Some(key);
      assert ext[i] == records[i];
    }
    if HasTitleKey(ext, key) {
      var i :| 0 <= i < |ext| && TitleKeyOf(ext[i]) == Some(key);
      if i < |records| {
        assert ext[i] == records[i];
      }
    }
    if TitleKeyOf(r) == Some(key) {
      assert TitleKeyOf(ext[|records|]) == Some(key);
    }
  }

  /** FirstOccurrences over a record appended at the end. */
  lemma FirstOccurrencesAppend(records: seq<Record>, r: Record)
    requires TitlesHashable(records) && IsHashable(TitleOf(r))
    ensures TitlesHashable(records + [r])
    ensures FirstOccurrences(records + [r]) ==
      FirstOccurrences(records) + if TitleKeyOf(r).Some? && HasTitleKey(records, TitleKeyOf(r).value) then [] else [r]
  {
    TitlesHashableAppend(records, r);
    assert (records + [r])[..|records|] == records;
  }

  /** The agreement between the loop's state and the reference, after the lines that decoded to `decoded`. */
  ghost predicate AgreesWithReference(t: Tally, decoded: seq<Record>) {
    && TitlesHashable(decoded)
    && t.uniqueRecords == RewrittenAll(FirstOccurrences(decoded))
    && IsSubsequence(t.uniqueRecords, RewrittenAll(decoded))
    && (forall k :: k in t.seenTitles <==> HasTitleKey(decoded, k))
    && t.duplicates + |t.uniqueRecords| == |decoded|
  }

  /** Rewriting records with one appended rewrites the new one at the end. */
  lemma RewrittenAllAppend(records: seq<Record>, r: Record)
    ensures RewrittenAll(records + [r]) == RewrittenAll(records) + [Rewritten(r)]
  {
  }

  /** A decoded record whose title was seen is a duplicate for the reference too. */
  lemma DuplicateAgrees(t: Tally, decoded: seq<Record>, rec: Record)
    requires AgreesWithReference(t, decoded)
    requires IsHashable(TitleOf(rec)) && TitleKeyOf(rec).Some? && TitleKeyOf(rec).value in t.seenTitles
    ensures AgreesWithReference(t.(duplicates := t.duplicates + 1), decoded + [rec])
  {
    var ext := decoded + [rec];
    forall k ensures HasTitleKey(ext, k) <==> HasTitleKey(decoded, k) || TitleKeyOf(rec) == Some(k) {
      HasTitleKeyAppend(decoded, rec, k);
    }
    FirstOccurrencesAppend(decoded, rec);
    assert FirstOccurrences(ext) == FirstOccurrences(decoded);
    RewrittenAllAppend(decoded, rec);
    SubsequenceExtend(t.uniqueRecords, RewrittenAll(decoded), Rewritten(rec));
  }

  /** A decoded record whose title is null or unseen is a first occurrence for the reference too. */
  lemma FirstOccurrenceAgrees(t: Tally, decoded: seq<Record>, rec: Record)
    requires AgreesWithReference(t, decoded)
    requires IsHashable(TitleOf(rec)) && (TitleKeyOf(rec).Some? ==> TitleKeyOf(rec).value !in t.seenTitles)
    ensures AgreesWithReference(
      t.(seenTitles := AddKey(t.seenTitles, TitleKeyOf(rec)),
         uniqueRecords := t.uniqueRecords + [Rewritten(rec)],
         processedLines := t.processedLines + 1),
      decoded + [rec])
  {
    var ext := decoded + [rec];
    var t' := t.(seenTitles := AddKey(t.seenTitles, TitleKeyOf(rec)),
                 uniqueRecords := t.uniqueRecords + [Rewritten(rec)],
                 processedLines := t.processedLines + 1);
    TitlesHashableAppend(decoded, rec);
    forall k ensures k in t'.seenTitles <==> HasTitleKey(ext, k) {
      HasTitleKeyAppend(decoded, rec, k);
    }
    assert t'.uniqueRecords == RewrittenAll(FirstOccurrences(ext)) by {
      FirstOccurrencesAppend(decoded, rec);
      assert FirstOccurrences(ext) == FirstOccurrences(decoded) + [rec];
      RewrittenAllAppend(FirstOccurrences(decoded), rec);
    }
    assert IsSubsequence(t'.uniqueRecords, RewrittenAll(ext)) by {
      RewrittenAllAppend(decoded, rec);
      SubsequenceExtend(t.uniqueRecords, RewrittenAll(decoded), Rewritten(rec));
    }
    assert t'.duplicates + |t'.uniqueRecords| == |ext|;
  }

  /** A line the decoder accepts keeps the agreement, whichever verdict it gets. */
  lemma DecodedLineAgrees(t: Tally, decoded: seq<Record>, raw: string, decode: Decoder, rec: Record)
    requires AgreesWithReference(t, decoded)
    requires Strip(raw) != [] && decode(Strip(raw)) == Some(rec)
    requires !Classify(raw, decode, t.seenTitles).Unhashable?
    ensures AgreesWithReference(Apply(t, Classify(raw, decode, t.seenTitles)), decoded + [rec])
  {
    var title := TitleOf(rec);
    ClassifiedHashable(t, raw, decode, rec);
    if !title.Null? && KeyOf(title) in t.seenTitles {
      ClassifiedDuplicate(t, raw, decode, rec);
      DuplicateAgrees(t, decoded, rec);
    } else {
      ClassifiedFirst(t, raw, decode, rec);
      FirstOccurrenceAgrees(t, decoded, rec);
    }
  }

  lemma ClassifiedDuplicate(t: Tally, raw: string, decode: Decoder, rec: Record)
    requires Strip(raw) != [] && decode(Strip(raw)) == Some(rec)
    requires !TitleOf(rec).Null? && IsHashable(TitleOf(rec)) && KeyOf(TitleOf(rec)) in t.seenTitles
    ensures !Classify(raw, decode, t.seenTitles).Unhashable?
    ensures Apply(t, Classify(raw, decode, t.seenTitles)) == t.(duplicates := t.duplicates + 1)
  {
  }

  lemma ClassifiedFirst(t: Tally, raw: string, decode: Decoder, rec: Record)
    requires Strip(raw) != [] && decode(Strip(raw)) == Some(rec)
    requires IsHashable(TitleOf(rec)) && (TitleKeyOf(rec).Some? ==> TitleKeyOf(rec).value !in t.seenTitles)
    ensures !Classify(raw, decode, t.seenTitles).Unhashable?
    ensures Apply(t, Classify(raw, decode, t.seenTitles)) ==
      t.(seenTitles := AddKey(t.seenTitles, TitleKeyOf(rec)),
         uniqueRecords := t.uniqueRecords + [Rewritten(rec)],
         processedLines := t.processedLines + 1)
  {
  }

  lemma ClassifiedHashable(t: Tally, raw: string, decode: Decoder, rec: Record)
    requires Strip(raw) != [] && decode(Strip(raw)) == Some(rec)
    requires !Classify(raw, decode, t.seenTitles).Unhashable?
    ensures IsHashable(TitleOf(rec))
  {
  }

  /** Every line that does not raise keeps the agreement. */
  lemma LineAgrees(t: Tally, decoded: seq<Record>, raw: string, decode: Decoder)
    requires AgreesWithReference(t, decoded)
    requires !Classify(raw, decode, t.seenTitles).Unhashable?
    ensures AgreesWithReference(Apply(t, Classify(raw, decode, t.seenTitles)), decoded + DecodedLine(raw, decode))
  {
    var line := Strip(raw);
    if line != [] && decode(line).Some? {
      DecodedLineAgrees(t, decoded, raw, decode, decode(line).value);
    } else {
      assert decoded + DecodedLine(raw, decode) == decoded;
    }
  }

  /**
   * After any number of lines, the loop agrees with the reference: every
   * decoded record had a hashable title, the accepted records are exactly the
   * rewritten first occurrences of the decoded ones, in line order, hence a
   * subsequence of the rewritten decoded records; the seen set is the set of
   * titles decoded; and every decoded record not kept was counted a duplicate.
   */
  lemma {:induction false} ScanMatchesReference(lines: seq<string>, decode: Decoder, n: nat)
    requires n <= |lines| && Scan(lines, decode, n).Scanned?
    ensures AgreesWithReference(Scan(lines, decode, n).tally, Decoded(lines, decode, n))
  {
    if n == 0 {
      assert RewrittenAll([]) == [];
    } else {
      ScanStep(lines, decode, n);
      ScanMatchesReference(lines, decode, n - 1);
      LineAgrees(Scan(lines, decode, n - 1).tally, Decoded(lines, decode, n - 1), lines[n - 1], decode);
    }
  }

  /** The reference keeps every title that occurs: only later repeats are dropped. */
  lemma {:induction false} FirstOccurrencesKeepEveryTitle(records: seq<Record>, key: TitleKey)
    requires TitlesHashable(records)
    ensures TitlesHashable(FirstOccurrences(records))
    ensures HasTitleKey(FirstOccurrences(records), key) <==> HasTitleKey(records, key)
    decreases |records|
  {
    if records != [] {
      var init, last := records[..|records| - 1], records[|records| - 1];
      assert records == init + [last];
      assert TitlesHashable(init) by {
        forall i | 0 <= i < |init| ensures IsHashable(TitleOf(init[i])) {
          assert init[i] == records[i];
        }
      }
      FirstOccurrencesKeepEveryTitle(init, key);
      var fo := FirstOccurrences(init);
      HasTitleKeyAppend(init, last, key);
      HasTitleKeyAppend(fo, last, key);
      FirstOccurrencesAppend(init, last);
      if TitleKeyOf(last).Some? && HasTitleKey(init, TitleKeyOf(last).value) {
        assert FirstOccurrences(records) == fo;
        if TitleKeyOf(last) == Some(key) {
          assert HasTitleKey(init, key);
        }
      } else {
        assert FirstOccurrences(records) == fo + [last];
      }
    }
  }

  /** With distinct titles, no record's title occurs before it. */
  lemma DistinctMeansUnseen(records: seq<Record>, n: nat)
    requires 0 < n <= |records| && TitlesHashable(records) && DistinctTitles(records)
    ensures TitlesHashable(records[..n - 1])
    ensures TitleKeyOf(records[n - 1]).Some? ==> !HasTitleKey(records[..n - 1], TitleKeyOf(records[n - 1]).value)
  {
    var prefix := records[..n - 1];
    assert TitlesHashable(prefix) by {
      forall i | 0 <= i < |prefix| ensures IsHashable(TitleOf(prefix[i])) {
        assert prefix[i] == records[i];
      }
    }
  }

  /** The state of a rerun after the lines holding `prefix`: all kept, nothing counted against them. */
  ghost predicate KeptAsIs(t: Tally, prefix: seq<Record>) {
    && t.uniqueRecords == prefix && t.duplicates == 0 && t.emptyLines == 0 && t.parseErrors == 0
    && TitlesHashable(prefix) && forall k :: k in t.seenTitles <==> HasTitleKey(prefix, k)
  }

  /** Every record is a fixed point of the field rewriter. */
  ghost predicate AllRewritten(records: seq<Record>) {
    forall i :: 0 <= i < |records| ==> Rewritten(records[i]) == records[i]
  }

  /** One more line of already-clean output is accepted as it stands. */
  lemma RerunStep(t: Tally, prefix: seq<Record>, rec: Record, raw: string, decode: Decoder, lineNumber: nat)
    requires KeptAsIs(t, prefix)
    requires IsHashable(TitleOf(rec)) && (TitleKeyOf(rec).Some? ==> !HasTitleKey(prefix, TitleKeyOf(rec).value))
    requires Rewritten(rec) == rec
    requires Strip(raw) != [] && decode(Strip(raw)) == Some(rec)
    ensures Next(Scanned(t), raw, decode, lineNumber).Scanned?
    ensures KeptAsIs(Next(Scanned(t), raw, decode, lineNumber).tally, prefix + [rec])
  {
    ClassifiedFirst(t, raw, decode, rec);
    forall k ensures k in AddKey(t.seenTitles, TitleKeyOf(rec)) <==> HasTitleKey(prefix + [rec], k) {
      HasTitleKeyAppend(prefix, rec, k);
    }
  }

  /** Every line decodes to the record at the same position. */
  ghost predicate DecodesOneForOne(lines: seq<string>, decode: Decoder, records: seq<Record>) {
    |lines| == |records| &&
    forall i :: 0 <= i < |lines| ==> Strip(lines[i]) != [] && decode(Strip(lines[i])) == Some(records[i])
  }

  /**
   * The premises of a rerun, line by line: each of the first `n` lines decodes
   * to a rewritten record whose title is hashable and unseen before it.
   */
  ghost predicate RerunReady(lines: seq<string>, decode: Decoder, records: seq<Record>, n: nat)
    requires n <= |lines| && n <= |records|
  {
    n == 0 ||
    (&& RerunReady(lines, decode, records, n - 1)
     && Strip(lines[n - 1]) != [] && decode(Strip(lines[n - 1])) == Some(records[n - 1])
     && Rewritten(records[n - 1]) == records[n - 1]
     && TitlesHashable(records[..n - 1]) && IsHashable(TitleOf(records[n - 1]))
     && (TitleKeyOf(records[n - 1]).Some? ==> !HasTitleKey(records[..n - 1], TitleKeyOf(records[n - 1]).value)))
  }

  /** The premises of RerunChangesNothing give those of every prefix. */
  lemma {:induction false} ReadyFromPremises(lines: seq<string>, decode: Decoder, records: seq<Record>, n: nat)
    requires n <= |lines| && DecodesOneForOne(lines, decode, records)
    requires TitlesHashable(records) && DistinctTitles(records) && AllRewritten(records)
    ensures RerunReady(lines, decode, records, n)
  {
    if n > 0 {
      ReadyFromPremises(lines, decode, records, n - 1);
      DistinctMeansUnseen(records, n);
    }
  }

  /** A rerun over ready lines keeps each record as it stands. */
  lemma {:induction false} ReadyRerun(lines: seq<string>, decode: Decoder, records: seq<Record>, n: nat)
    requires n <= |lines| && n <= |records| && RerunReady(lines, decode, records, n)
    ensures Scan(lines, decode, n).Scanned?
    ensures KeptAsIs(Scan(lines, decode, n).tally, records[..n])
  {
    if n == 0 {
      assert records[..0] == [];
    } else {
      ReadyRerun(lines, decode, records, n - 1);
      var t, rec := Scan(lines, decode, n - 1).tally, records[n - 1];
      RerunStep(t, records[..n - 1], rec, lines[n - 1], decode, n);
      assert records[..n] == records[..n - 1] + [rec];
    }
  }

  /**
   * Cleaning the cleaner's own output again: lines that decode one for one to
   * records with distinct titles that are already rewritten come back
   * unchanged, with no duplicate, no blank line and no parse error.
   */
  lemma RerunChangesNothing(lines: seq<string>, decode: Decoder, records: seq<Record>, n: nat)
    requires n <= |lines| && DecodesOneForOne(lines, decode, records)
    requires TitlesHashable(records) && DistinctTitles(records) && AllRewritten(records)
    ensures Scan(lines, decode, n).Scanned?
    ensures KeptAsIs(Scan(lines, decode, n).tally, records[..n])
  {
    ReadyFromPremises(lines, decode, records, n);
    ReadyRerun(lines, decode, records, n);
  }

  /**
   * The accepted records of one pass meet every premise of RerunChangesNothing
   * that is about the records themselves; that the written lines decode back
   * one for one to them (DecodesOneForOne) rests on `json.dumps` and
   * `json.loads`, which are not modelled.
   */
  lemma CleanedOutputIsRerunnable(lines: seq<string>, decode: Decoder)
    requires Scan(lines, decode, |lines|).Scanned?
    ensures var u := Scan(lines, decode, |lines|).tally.uniqueRecords;
      TitlesHashable(u) && DistinctTitles(u) && AllRewritten(u)
  {
    ScanTitles(lines, decode, |lines|);
  }
}
