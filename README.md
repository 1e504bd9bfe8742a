# json_cleaner in Dafny

A model of the record-cleaning core of `json_cleaner.py`, a desktop tool for
line-delimited JSON files, with proofs of its properties. For each
input file the tool strips every line and skips blank ones. It decodes the
remaining lines with `json.loads` and counts the lines that fail to decode.
It deduplicates the decoded records on their title, the value under `title`,
or under `Наименование` when `title` is absent. It overwrites the
stock, under-order and price fields, under any of their seven alias keys,
with fixed replacement strings. It writes the kept records to
`<stem>_cleaned.json`, or to `<stem>_cleaned_part<N>.json` files of at most
3 000 000 records each. A stop flag, polled before each line, abandons the
current file without writing anything.

`json_cleaner.py` has no line sanitiser, does not trim titles and writes no
error report: it compares the raw title and only counts parse errors and
duplicates.

Modules, one per file:

- `Wrappers` (`wrappers.dfy`): `Option`.
- `Json` (`json.dfy`): decoded JSON values, records, the title lookup, and
  Python's equality on hashable titles. `True == 1 == 1.0` share one set entry.
- `FieldRewriter` (`field_rewriter.dfy`): the replacement constants, the
  seven guarded overwrites as an imperative method, and `Rewritten`, the
  specification they meet.
- `LineScan` (`line_scan.dfy`): Python's `str.strip`, the per-line verdict,
  the loop state `Tally`, and `Scan`, the loop as a fold over the lines.
  Lemmas cover counting, dedup and the exception.
- `DedupReference` (`dedup_reference.dfy`): an independent reference for
  what the loop keeps: the rewritten first occurrence of each title. It
  includes the proof that the loop meets it, and that cleaning lines which
  decode one for one to the kept records changes nothing.
- `Chunking` (`chunking.dfy`): output planning. It covers slicing into
  parts, decimal part numbers and file names, and the write-out loop.
- `Cleaner` (`cleaner.dfy`): the class `FileCleaner` holding the loop's
  mutable state, the per-line method, and `ProcessSingleFile` with the stop
  flag and the write-out, proved against `FileSpec`.

A title that is a JSON list or object cannot be hashed. Python then raises
`TypeError` at `title in seen_titles`, the exception leaves
`process_single_file`, and `process_files` catches it. The file is abandoned
with nothing written, which the model shows as `Failed(lineNumber)`.

## Model

| member | source | states |
|---|---|---|
| Json.TitleOf | json_cleaner.py:436-440 | the title is the value under `title` when that key is present (even if null), else the value under `Наименование`, else null (Python's `None`) |
| Json.TitleKeyOf | json_cleaner.py:442-448 | a hashable title gives no set entry exactly when it is null; otherwise its entry is the key that `KeyOfMatchesPyEquals` relates to Python's `==` |
| Json.KeyOfMatchesPyEquals | json_cleaner.py:443-448 | two non-null hashable titles share a seen-set entry exactly when Python's `==` holds between them (`True == 1 == 1.0`, strings by content) |
| FieldRewriter.Rewritten | json_cleaner.py:493-521 | rewriting adds and removes no key, gives each alias key present its field's replacement (`188`, `5-8 дней`, `110 руб`), and leaves every other key's value alone |
| FieldRewriter.PutsMakeRewritten | json_cleaner.py:500-519 | the seven guarded overwrites, in the source's order, produce exactly `Rewritten` |
| FieldRewriter.ReplaceFieldValues | json_cleaner.py:493-521 | the imperative overwrite sequence returns `Rewritten(record)` |
| FieldRewriter.RewrittenIdempotent | json_cleaner.py:493-521 | rewriting a rewritten record changes nothing |
| FieldRewriter.RewrittenKeepsTitle | json_cleaner.py:493-521 | rewriting never touches either title key, so a record's title is the same before and after |
| Chunking.ChunksFlatten | json_cleaner.py:480-481 | the slices `records[i:i+limit]` laid end to end are exactly the records: none lost, repeated or reordered |
| Chunking.ChunkSizes | json_cleaner.py:480-481 | every slice is non-empty and at most the limit, and every slice but the last is exactly the limit |
| Chunking.ChunkCount | json_cleaner.py:480 | there are no slices exactly for no records, and otherwise the fewest slices of at most the limit that hold them all |
| Chunking.Decimal | json_cleaner.py:484 | a part number renders as a non-empty string of decimal digits with no leading zero |
| Chunking.DecimalRoundTrip | json_cleaner.py:484 | reading the rendered part number back gives the number |
| Chunking.PartFileNamesDistinct | json_cleaner.py:472-484 | part files with different numbers get different names, and no part file is named like the single output file |
| Chunking.PartFiles | json_cleaner.py:479-488 | the i-th part file is named with number first+i and holds the i-th slice |
| Chunking.OutputPlanLaw | json_cleaner.py:470-488 | up to 3 000 000 records make one `<stem>_cleaned.json` holding them all. More make ceil(n/3 000 000) part files numbered 1, 2, … in order: each holds between 1 and 3 000 000 records, every file but the last is full, and together they hold the records in order |
| Chunking.SevenMillionRecords | json_cleaner.py:470-488 | 7 000 000 records make three files of 3 000 000, 3 000 000 and 1 000 000 |
| Chunking.WriteOutputs | json_cleaner.py:470-488 | the write-out loop over `range(0, n, limit)` with a running part number produces exactly `OutputPlan` |
| LineScan.StripLeadingSpec | json_cleaner.py:420 | stripping the front removes a run of whitespace and stops at the first other character |
| LineScan.StripTrailingSpec | json_cleaner.py:420 | stripping the back removes a run of whitespace and stops at the last other character |
| LineScan.StripSpec | json_cleaner.py:420 | `strip()` gives the empty string exactly for all-whitespace lines; otherwise it gives a slice of the line that begins and ends with non-whitespace |
| LineScan.BlankNeverDecoded | json_cleaner.py:420-425 | a line is Blank exactly when it is all whitespace, whatever the decoder; otherwise the verdict depends on the decoder only through the stripped text |
| LineScan.UnhashableMeansListOrDictTitle | json_cleaner.py:443-444 | the loop raises on a line exactly when it decodes to a record whose title is a list or an object |
| LineScan.UntitledAlwaysAccepted | json_cleaner.py:436-455 | a record with an absent or null title is always kept, rewritten, and leaves the seen set unchanged |
| LineScan.DuplicateExactlyWhenSeen | json_cleaner.py:443-448 | a record with a non-null hashable title is a duplicate exactly when its title was seen before; otherwise its title joins the seen set |
| LineScan.Apply | json_cleaner.py:420-455 | a line that does not raise never removes a title from the seen set |
| LineScan.ScanPrefix | json_cleaner.py:407-408 | the state after the first n lines depends on those lines only, not on any later line |
| LineScan.RaisedPersists | json_cleaner.py:443-444 | once a line has raised, no later line is handled |
| LineScan.RaisedAtUnhashableTitle | json_cleaner.py:443-444 | when the loop has raised, the lines before the failing one ran cleanly, and the failing line's verdict is Unhashable |
| LineScan.ScanAccounting | json_cleaner.py:400-455 | after n lines, empty lines + parse errors + duplicates + processed lines == n, and processed lines == the number of kept records |
| LineScan.SeenTitlesGrow | json_cleaner.py:443-448 | within one file the seen set only grows from line to line |
| LineScan.AcceptedRecord | json_cleaner.py:443-455 | a kept record is already rewritten, its title is hashable, and its title was unseen before it |
| LineScan.AcceptKeepsTitlesTracked | json_cleaner.py:443-455 | keeping such a record preserves the loop invariant: seen set = titles of the kept records, kept titles distinct, kept records rewritten |
| LineScan.ScanTitles | json_cleaner.py:436-455 | after any number of lines, the seen set is exactly the set of titles of the kept records, no two kept records share a title, and every kept record is a fixed point of the rewriter |
| DedupReference.ScanMatchesReference | json_cleaner.py:436-455 | after any number of lines, every decoded title is hashable. The kept records are exactly the rewritten first occurrences of the decoded records, in line order, and a subsequence of the rewritten decoded records. The seen set is the set of decoded titles, and each decoded record not kept was counted a duplicate |
| DedupReference.FirstOccurrencesKeepEveryTitle | json_cleaner.py:443-448 | every title that occurs among the decoded records occurs among the kept ones; only later repeats are dropped |
| DedupReference.RerunChangesNothing | json_cleaner.py:443-455 | cleaning lines that decode one for one to rewritten records with distinct titles keeps every record unchanged, with no duplicate, blank line or parse error |
| DedupReference.CleanedOutputIsRerunnable | json_cleaner.py:443-454 | the records a pass keeps meet every premise of `RerunChangesNothing` about the records: their titles are hashable and distinct, and each is already rewritten. The premise that the written lines decode back one for one to them is not proved (see Left out) |
| Cleaner.FileCleaner.constructor | json_cleaner.py:395-404 | a fresh pass starts with an empty seen set, no kept records and every counter at zero |
| Cleaner.FileCleaner.ProcessLine | json_cleaner.py:420-455 | one loop iteration returns the line's verdict. A line that does not raise updates the fields exactly as `Apply` prescribes; a raising line leaves them untouched |
| Cleaner.FirstStop | json_cleaner.py:408-411 | the index of the first poll that sees the stop flag, with no stop before it, or the line count when no poll does |
| Cleaner.ProcessSingleFile | json_cleaner.py:360-488 | the pass returns exactly `FileSpec`. An unhashable title before the first stop fails the file at that line; a stop before the end returns with nothing written; otherwise the counters are kept and `OutputPlan` of the kept records is written |
| Cleaner.StopWritesNothing | json_cleaner.py:410-411 | when any poll sees the stop flag nothing is written, and a stopped pass saw the flag at some poll |
| Cleaner.FailureComesFromUnhashableTitle | json_cleaner.py:443-444 | a failed pass failed at a line reached before any stop, and that line decodes to a record whose title is a list or an object |
| Cleaner.SavedOutputLaw | json_cleaner.py:395-488 | a pass that writes saw no stop. Its four counters sum to the line count. Its files hold, in order and at most 3 000 000 each, exactly the rewritten first occurrences of the decoded records, and no two written records share a title |

## Left out

- The Tk user interface, the worker thread, logging, progress bars and timing: they do not affect what is written.
- File I/O is not modelled. A file is given as its sequence of lines, already split. The line-count pass (json_cleaner.py:383-386) only feeds the progress bar.
- `save_records_to_file` and `json.dumps` are not modelled. An output file is modelled as its name and its records.
- `json.loads` is an oracle parameter, `Decoder`, returning the decoded object or None for `JSONDecodeError`.
- A line that decodes to a top-level value that is not an object (array, string, number, literal) is out of the model. For such values Python's `in` and item assignment behave differently or raise.
- Numbers are exact reals. Float rounding, NaN and Infinity, which Python's `json` accepts, are not modelled, so two number literals that round to the same double count as distinct titles.
- The directory and extension handling of `os.path` is left out: the stem of the file name is a parameter.
- `process_files` is not modelled beyond what one file sees. Each file gets a fresh `FileCleaner`, and the caught `TypeError` surfaces as `Failed`. The loop over files and its own stop check are left out.
- Exceptions other than the unhashable-title `TypeError` are left out, e.g. I/O errors, decoding errors of the file's text encoding, and `MemoryError`.
- The stop flag is set by another thread. It is modelled as a given sequence holding the value each per-line poll reads.
- A write-out is modelled as all or nothing. The stop flag is not polled while writing, but a failure during writing (an I/O error, the worker thread dying) could leave some part files on disk; that is not modelled.
- DedupReference.CleanedOutputIsRerunnable: that the written lines decode back one for one to the kept records (`DecodesOneForOne`), the remaining premise of `RerunChangesNothing`, is not proved, because it is a round trip through `json.dumps` and `json.loads`, neither of which is modelled.
