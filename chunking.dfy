/**
 * Output planning: the accepted records go to one file when they fit under
 * the per-file limit, and otherwise to consecutive, numbered part files.
 */
module Chunking {
  import opened Json

  /** The most records one output file holds (json_cleaner.py:32). */
  const MaxLinesPerFile: nat := 3000000

  /** One output file: the name it is written under and the records it holds, in order. */
  datatype OutputFile = OutputFile(name: string, records: seq<Record>)

  /** The groups laid end to end. */
  function Flatten<T>(groups: seq<seq<T>>): seq<T> {
    if groups == [] then [] else groups[0] + Flatten(groups[1..])
  }

  /** `s` cut into consecutive slices `s[i:i+size]` for i = 0, size, 2*size, … below |s|. */
  function Chunks<T>(s: seq<T>, size: nat): seq<seq<T>>
    requires size > 0
    decreases |s|
  {
    if s == [] then [] else if |s| <= size then [s] else [s[..size]] + Chunks(s[size..], size)
  }

  /** The suffix of `s` from `i` on, empty when `i` is past its end (Python's `s[i:]`). */
  function Drop<T>(s: seq<T>, i: nat): seq<T> {
    if i <= |s| then s[i..] else []
  }

  /** Laid end to end, the chunks give back exactly the input: nothing lost, reordered or repeated. */
  lemma {:induction false} ChunksFlatten<T>(s: seq<T>, size: nat)
    requires size > 0
    ensures Flatten(Chunks(s, size)) == s
    decreases |s|
  {
    if s != [] && |s| > size {
      ChunksFlatten(s[size..], size);
      assert Chunks(s, size)[1..] == Chunks(s[size..], size);
      assert s == s[..size] + s[size..];
    }
  }

  /** Every chunk is non-empty and at most `size` long, and every chunk but the last is exactly `size` long. */
  lemma {:induction false} ChunkSizes<T>(s: seq<T>, size: nat)
    requires size > 0
    ensures forall i :: 0 <= i < |Chunks(s, size)| ==> 0 < |Chunks(s, size)[i]| <= size
    ensures forall i :: 0 <= i < |Chunks(s, size)| - 1 ==> |Chunks(s, size)[i]| == size
    decreases |s|
  {
    if s != [] && |s| > size {
      ChunkSizes(s[size..], size);
      var c := Chunks(s, size);
      assert c[1..] == Chunks(s[size..], size);
      forall i | 1 <= i < |c| ensures c[i] == Chunks(s[size..], size)[i - 1] {
      }
    }
  }

  /** The number of chunks is the fewest groups of at most `size` that hold all of `s`: ceil(|s| / size). */
  lemma {:induction false} ChunkCount<T>(s: seq<T>, size: nat)
    requires size > 0
    ensures s == [] <==> |Chunks(s, size)| == 0
    ensures s != [] ==> (|Chunks(s, size)| - 1) * size < |s| <= |Chunks(s, size)| * size
    decreases |s|
  {
    if s != [] && |s| > size {
      ChunkCount(s[size..], size);
      var c, c' := |Chunks(s, size)|, |Chunks(s[size..], size)|;
      assert c == c' + 1;
      assert (c - 1) * size == c' * size;
      assert c * size == c' * size + size;
    }
  }

  /** The decimal digit `d` as a character. */
  function DigitChar(d: nat): char
    requires d < 10
  {
    (d + 48) as char
  }

  predicate IsDigits(s: string) {
    forall i :: 0 <= i < |s| ==> '0' <= s[i] <= '9'
  }

  /** Python's `str(n)` for a natural number: decimal, no leading zero. */
  function Decimal(n: nat): (s: string)
    ensures |s| > 0 && IsDigits(s)
    ensures s[0] == '0' ==> n == 0
    decreases n
  {
    if n < 10 then [DigitChar(n)] else Decimal(n / 10) + [DigitChar(n % 10)]
  }

  /** The number a string of decimal digits denotes. */
  function DecimalValue(s: string): nat
    requires IsDigits(s)
  {
    if s == [] then 0 else DecimalValue(s[..|s| - 1]) * 10 + (s[|s| - 1] as int - 48)
  }

  /** Reading back the decimal rendering of `n` gives `n`. */
  lemma {:induction false} DecimalRoundTrip(n: nat)
    ensures DecimalValue(Decimal(n)) == n
    decreases n
  {
    if n >= 10 {
      DecimalRoundTrip(n / 10);
      var s := Decimal(n);
      assert s[..|s| - 1] == Decimal(n / 10);
    }
  }

  /** The name of the single output file, `<stem>_cleaned.json`. */
  function SingleFileName(stem: string): string {
    stem + "_cleaned.json"
  }

  /** The name of part `part`, `<stem>_cleaned_part<part>.json`. */
  function PartFileName(stem: string, part: nat): string {
    stem + "_cleaned_part" + Decimal(part) + ".json"
  }

  /** Distinct part numbers give distinct file names, none of which is the single-file name. */
  lemma PartFileNamesDistinct(stem: string, j: nat, k: nat)
    ensures j != k ==> PartFileName(stem, j) != PartFileName(stem, k)
    ensures PartFileName(stem, j) != SingleFileName(stem)
  {
    var prefix := stem + "_cleaned_part";
    var a, b := PartFileName(stem, j), PartFileName(stem, k);
    if a == b {
      assert |Decimal(j)| == |Decimal(k)|;
      assert a[|prefix|..|prefix| + |Decimal(j)|] == Decimal(j);
      assert b[|prefix|..|prefix| + |Decimal(k)|] == Decimal(k);
      DecimalRoundTrip(j);
      DecimalRoundTrip(k);
    }
    assert a[|stem| + 8] == '_' && SingleFileName(stem)[|stem| + 8] == '.';
  }

  /** The chunks as files numbered from `first` on, in order. */
  function PartFiles(stem: string, chunks: seq<seq<Record>>, first: nat): (files: seq<OutputFile>)
    ensures |files| == |chunks|
    ensures forall i :: 0 <= i < |files| ==> files[i] == OutputFile(PartFileName(stem, first + i), chunks[i])
  {
    if chunks == [] then [] else [OutputFile(PartFileName(stem, first), chunks[0])] + PartFiles(stem, chunks[1..], first + 1)
  }

  /** Numbering the first chunk `first` and the rest from `first + 1`. */
  lemma PartFilesCons(stem: string, chunk: seq<Record>, rest: seq<seq<Record>>, first: nat)
    ensures PartFiles(stem, [chunk] + rest, first) == [OutputFile(PartFileName(stem, first), chunk)] + PartFiles(stem, rest, first + 1)
  {
    assert ([chunk] + rest)[1..] == rest;
  }

  /** The files written for the accepted records (json_cleaner.py:470-488). */
  function OutputPlan(stem: string, records: seq<Record>): seq<OutputFile> {
    if |records| <= MaxLinesPerFile then [OutputFile(SingleFileName(stem), records)]
    else PartFiles(stem, Chunks(records, MaxLinesPerFile), 1)
  }

  /** Records of the files, in file order. */
  function RecordsOf(files: seq<OutputFile>): (groups: seq<seq<Record>>)
    ensures |groups| == |files| && forall i :: 0 <= i < |files| ==> groups[i] == files[i].records
  {
    if files == [] then [] else [files[0].records] + RecordsOf(files[1..])
  }

  /**
   * Up to the limit there is one file, `<stem>_cleaned.json`, holding every
   * record; past it there are ceil(n / limit) part files numbered 1, 2, … in
   * order, each but the last holding exactly the limit, the last non-empty,
   * and together holding the records in their original order.
   */
  lemma OutputPlanLaw(stem: string, records: seq<Record>)
    ensures |records| <= MaxLinesPerFile ==> OutputPlan(stem, records) == [OutputFile(SingleFileName(stem), records)]
    ensures Flatten(RecordsOf(OutputPlan(stem, records))) == records
    ensures |records| > MaxLinesPerFile ==>
      var files := OutputPlan(stem, records);
      && |files| == (|records| + MaxLinesPerFile - 1) / MaxLinesPerFile
      && (forall i :: 0 <= i < |files| ==> files[i].name == PartFileName(stem, i + 1))
      && (forall i :: 0 <= i < |files| ==> 0 < |files[i].records| <= MaxLinesPerFile)
      && (forall i :: 0 <= i < |files| - 1 ==> |files[i].records| == MaxLinesPerFile)
  {
    var files := OutputPlan(stem, records);
    if |records| <= MaxLinesPerFile {
      assert RecordsOf(files) == [records];
      assert Flatten([records]) == records + Flatten([]);
    } else {
      var chunks := Chunks(records, MaxLinesPerFile);
      assert RecordsOf(files) == chunks;
      ChunksFlatten(records, MaxLinesPerFile);
      ChunkSizes(records, MaxLinesPerFile);
      ChunkCount(records, MaxLinesPerFile);
      var n, c := |records|, |files|;
      assert (c - 1) * MaxLinesPerFile < n <= c * MaxLinesPerFile;
      assert c == (n + MaxLinesPerFile - 1) / MaxLinesPerFile;
    }
  }

  /** Seven million accepted records make three files of 3,000,000, 3,000,000 and 1,000,000. */
  lemma SevenMillionRecords(stem: string, records: seq<Record>)
    requires |records| == 7000000
    ensures |OutputPlan(stem, records)| == 3
    ensures |OutputPlan(stem, records)[0].records| == 3000000
    ensures |OutputPlan(stem, records)[1].records| == 3000000
    ensures |OutputPlan(stem, records)[2].records| == 1000000
  {
    OutputPlanLaw(stem, records);
    var files := OutputPlan(stem, records);
    var groups := RecordsOf(files);
    assert Flatten(groups) == groups[0] + groups[1] + groups[2] by {
      assert Flatten(groups) == groups[0] + Flatten(groups[1..]);
      assert Flatten(groups[1..]) == groups[1] + Flatten(groups[2..]);
      assert Flatten(groups[2..]) == groups[2] + Flatten(groups[3..]);
      assert groups[3..] == [];
    }
  }

  /** The next chunk starting at `i`, and the chunks after it. */
  lemma ChunksFrom<T>(s: seq<T>, i: nat, size: nat)
    requires size > 0 && i < |s|
    ensures Chunks(Drop(s, i), size) ==
      [s[i..if i + size <= |s| then i + size else |s|]] + Chunks(Drop(s, i + size), size)
  {
    var rest := s[i..];
    if |rest| <= size {
      assert rest == s[i..|s|];
      assert Drop(s, i + size) == [];
    } else {
      assert rest[..size] == s[i..i + size];
      assert rest[size..] == s[i + size..];
    }
  }

  /** Writing the chunk at `i` as part `part` moves one chunk from the plan still ahead to the files written. */
  lemma NextPart(stem: string, records: seq<Record>, files: seq<OutputFile>, i: nat, part: nat)
    requires i < |records|
    ensures var end := if i + MaxLinesPerFile <= |records| then i + MaxLinesPerFile else |records|;
      files + PartFiles(stem, Chunks(Drop(records, i), MaxLinesPerFile), part)
      == (files + [OutputFile(PartFileName(stem, part), records[i..end])])
         + PartFiles(stem, Chunks(Drop(records, i + MaxLinesPerFile), MaxLinesPerFile), part + 1)
  {
    var end := if i + MaxLinesPerFile <= |records| then i + MaxLinesPerFile else |records|;
    var rest := Chunks(Drop(records, i + MaxLinesPerFile), MaxLinesPerFile);
    ChunksFrom(records, i, MaxLinesPerFile);
    PartFilesCons(stem, records[i..end], rest, part);
  }

  /**
   * The write-out step of the source: one file when the records fit, else a
   * loop over the slice starts 0, limit, 2*limit, … that numbers each part.
   */
  method WriteOutputs(stem: string, records: seq<Record>) returns (files: seq<OutputFile>)
    ensures files == OutputPlan(stem, records)
  {
    if |records| <= MaxLinesPerFile {
      files := [OutputFile(SingleFileName(stem), records)];
      return;
    }
    files := [];
    var partNumber := 1;
    var i := 0;
    while i < |records|
      invariant partNumber >= 1
      invariant files + PartFiles(stem, Chunks(Drop(records, i), MaxLinesPerFile), partNumber)
             == PartFiles(stem, Chunks(records, MaxLinesPerFile), 1)
      decreases |records| - i
    {
      var end := if i + MaxLinesPerFile <= |records| then i + MaxLinesPerFile else |records|;
      var chunk := records[i..end];
      var file := OutputFile(PartFileName(stem, partNumber), chunk);
      NextPart(stem, records, files, i, partNumber);
      files := files + [file];
      partNumber := partNumber + 1;
      i := i + MaxLinesPerFile;
    }
    assert Drop(records, i) == [];
  }
}
