# tidyss FASTQ discovery, modelled in Dafny

tidyss walks directories for FASTQ files. It classifies each file by its
name and by the sequence identifier on its first line. It then groups the
files into samples and read groups, and prints the result as a JSON or
YAML samplesheet. Optionally it merges the samples into an existing
samplesheet. This project models the library core of that command,
`tidyss/fastq.py`, and proves properties of the model.

- `filenames.dfy` (module `FastqFilenames`): `os.path.basename` and the
  `FastqFilename` pattern, written as a scanner. The pattern's greedy
  `.*` becomes "the longest name whose remainder is one of the four
  extensions".
- `seqids.dfy` (module `SequenceIds`): the Illumina V1 and V2
  sequence-identifier patterns as field-by-field scanners. Each has a
  soundness lemma and a completeness lemma against a layout function.
- `fastq.dfy` (module `FastqModel`): `Fastq.__init__`.
  - `Classify` specifies the whole construction as a value.
  - `class Fastq` carries the attributes as fields. Its loop methods
    over `filename_patterns` and `seqid_patterns` are proved to compute
    `Classify`.
- `dicts.dfy` (module `Dicts`): an insertion-ordered string-keyed dict.
  Key order is what the serializers see.
- `samples.dfy` (module `Samples`): `build_samples`.
  - The loop `BuildSamples` is proved equal to the declarative
    `SamplesOf`.
  - Lemmas say what `SamplesOf` holds: keys, their order, read groups
    and slots.
- `filter.dfy` (module `PathFilter`): `filter_paths`.
- `samplesheet.dfy` (module `Samplesheets`):
  - format dispatch in `print_samplesheet` and `load_samplesheet`;
  - the output file as a small class;
  - the append-merge and printing at the end of `discover`.

### Where the model follows the code rather than its stated intent

The docstring of `Fastq.__init__` says it extracts name, lane and read
from the filename, and the flow-cell id from the first line. The code
does otherwise, and the model follows the code.

- **The filename loop has no `break`.** `FastqFilename` comes last in
  `filename_patterns`, and it matches every name that passed the gate.
  So the attributes always come from it, whatever the Illumina pattern
  matched. For example, `SampleA_L001_R1_001.fastq.gz` ends up with name
  `SampleA_L001_R1_001`, lane `'1'` and read 1. In the program the
  Illumina pattern therefore has no observable effect: its `read` group
  is `R\d`, which `int()` always accepts after stripping the `R`, so the
  extension gate is the only way construction fails (`ClassifyGateOnly`).
  The model leaves the Illumina matcher arbitrary, and only for a matcher
  whose read text `int()` rejects does it carry an `InvalidReadNumber`
  error (`FilenameFoldOutcome`).
- **The seqid loop's `else` clause always runs,** because there is no
  `break`. So `seqid_pattern` is always None and `fcid` always
  `'Unknown'`, and the read group is `'Unknown' + lane`. The lane and
  instrument that a seqid match set survive (`SeqidFoldOutcome`).
- **One check in `build_samples` is vacuous.** The inner
  `'name' not in samples[...]` check can never fire: every entry is
  created with a `name`.

## Model

| member | source | states |
|---|---|---|
| FastqFilenames.Basename | tidyss/fastq.py:42 | the basename is a suffix of the path, holds no '/', and is the whole path or follows a '/' |
| FastqFilenames.MatchFastqFilename | tidyss/fastq.py:11-12 | matches exactly when the name ends in one of the four extensions; then name + extension is the filename, and no shorter tail is an extension (greedy `.*`) |
| FastqFilenames.MatchSplitsAt | tidyss/fastq.py:11 | a filename whose tail from position k is an extension is split at k and nowhere else |
| FastqFilenames.DottedGzSplit | tidyss/fastq.py:11 | "x.fq.gz" is split as name "x." and extension "fq.gz", because the last alternative has no dot |
| FastqFilenames.DotlessGzAccepted | tidyss/fastq.py:11 | "xfq.gz" passes the pattern, with name "x" |
| FastqFilenames.OtherExtensionRejected | tidyss/fastq.py:11-12 | "x.fq.bz2" does not match, so the constructor rejects it |
| SequenceIds.TakeRun | tidyss/fastq.py:21-26 | a greedy character-class run: the run and the remainder make up the text, and the remainder does not start with a class character |
| SequenceIds.Field | tidyss/fastq.py:21-26 | one separator then a greedy run; None exactly when the separator is missing |
| SequenceIds.MatchV2Sound | tidyss/fastq.py:26 | every V2 match has well-formed groups, and the line is those groups laid out with the V2 separators |
| SequenceIds.MatchV2Complete | tidyss/fastq.py:26 | every line laid out from well-formed V2 groups matches, with exactly those groups |
| SequenceIds.MatchV1Sound | tidyss/fastq.py:21 | every V1 match has well-formed groups (index `#\d` or bases), and the line begins with their layout |
| SequenceIds.MatchV1Complete | tidyss/fastq.py:21 | every line that begins with a well-formed V1 layout matches, with exactly those groups |
| SequenceIds.MatchV2 | tidyss/fastq.py:25-27 | `IlluminaSeqidV2.match` as a field-by-field scan; specified by `MatchV2Sound` and `MatchV2Complete` |
| SequenceIds.MatchV1 | tidyss/fastq.py:20-22 | `IlluminaSeqidV1.match` as a field-by-field scan; specified by `MatchV1Sound` and `MatchV1Complete` |
| SequenceIds.MatchSeqid | tidyss/fastq.py:20-31 | dispatch by pattern class; a V1 match has no run number and no flow-cell id, and a V2 match has both |
| SequenceIds.MatchSeqidGroups | tidyss/fastq.py:71-76 | the instrument and lane `gd.get` reads are the match's own fields, and for V2 so are the run number and flow-cell id |
| FastqModel.Or | tidyss/fastq.py:53-54 | `v or default`: the result is the default or the value, the value whenever it is a non-empty string, and empty only when the default is |
| FastqModel.MatchFilename | tidyss/fastq.py:10-12 | the `FastqFilename` entry matches exactly the names with a recognised extension, and sets no lane or read |
| FastqModel.TrimLeft | tidyss/fastq.py:55 | `lstrip`: only copies of the character are dropped, and what is left does not start with it |
| FastqModel.TrimRight | tidyss/fastq.py:55 | `rstrip`: only copies of the character are dropped, and what is left does not end with it |
| FastqModel.Strip | tidyss/fastq.py:55 | `strip('R')`: the text is R's + result + R's, and the result neither starts nor ends with 'R' |
| FastqModel.DecimalValue | tidyss/fastq.py:55 | the value `int()` gives a run of digits: smaller than 10 to the number of digits, one digit giving its own value |
| FastqModel.DecimalValueFromLeft | tidyss/fastq.py:55 | read from the first digit instead of the last, the leading digit is worth its value times 10 to the number of digits after it |
| FastqModel.ReadNumber | tidyss/fastq.py:55 | `int(read.strip('R'))` succeeds exactly when the stripped text is a non-empty run of digits |
| FastqModel.ReadNumberOfDefault | tidyss/fastq.py:54-55 | the default read text "1" reads as 1 |
| FastqModel.ReadNumberOfRDigit | tidyss/fastq.py:16 | the `R\d` read group of the Illumina pattern reads as its digit |
| FastqModel.ReadNumberOfDigit | tidyss/fastq.py:55 | a text that strips to a single digit reads as that digit |
| FastqModel.StripNothing | tidyss/fastq.py:55 | a text that neither starts nor ends with the character is its own strip |
| FastqModel.FilenameUpdate | tidyss/fastq.py:48-55 | one loop pass: no match leaves the attributes; a match raises exactly when `int()` rejects its read text, and otherwise sets pattern, name and lane (`'1'` by default) |
| FastqModel.FilenameFold | tidyss/fastq.py:47-55 | the loop over the patterns: attributes that are set come from a pattern of the list that matched; none are set only when no pattern matched |
| FastqModel.FilenameFoldStops | tidyss/fastq.py:47-55 | an exception in the filename loop ends it: later patterns change nothing |
| FastqModel.FilenameFoldSets | tidyss/fastq.py:43-55 | once the gate has passed, a filename loop that raises nothing has set the attributes |
| FastqModel.IlluminaShapeReadOk | tidyss/fastq.py:16 | an Illumina match whose read group is absent or `R\d` never makes `int()` raise |
| FastqModel.FilenameFoldOutcome | tidyss/fastq.py:47-55 | after the loop the attributes are those of `FastqFilename` (name before the extension, lane '1', read 1), unless `int()` rejected the Illumina read first |
| FastqModel.IlluminaStep | tidyss/fastq.py:48-55 | the Illumina pass raises exactly when `int()` rejects its read text |
| FastqModel.FastqFilenameStep | tidyss/fastq.py:48-55 | the `FastqFilename` pass matches and overwrites every attribute an earlier pass set |
| FastqModel.SeqidUpdate | tidyss/fastq.py:69-76 | one loop pass: no match leaves the attributes; a match records the pattern and instrument, and changes the lane only to its own non-empty lane |
| FastqModel.SeqidFold | tidyss/fastq.py:68-76 | the loop over the patterns: a recorded pattern is one of the list, and a non-empty lane never becomes empty |
| FastqModel.SeqidFoldOutcome | tidyss/fastq.py:68-76 | after the seqid loop, lane, instrument and run number are those of the last pattern that matched (a non-empty seqid lane wins over the filename's); V1 sets run number to None |
| FastqModel.Resolve | tidyss/fastq.py:57-81 | the attributes after the seqid loop and its `else`: seqid_pattern None and fcid 'Unknown' |
| FastqModel.ResolveFromSeqid | tidyss/fastq.py:57-81 | readgroup is fcid + lane, a non-empty lane stays non-empty, lane/instrument/run number are the seqid readings, and the other attributes come from the path and the filename loop |
| FastqModel.Classify | tidyss/fastq.py:41-81 | `Fastq(path)` as a value: a basename without a recognised extension is the "does not match" error, and a constructed record keeps the path, basename and first line; `ClassifyFailure` and `ClassifySuccess` give the rest |
| FastqModel.ClassifyResolved | tidyss/fastq.py:57-81 | once the filename loop has set its attributes, the object is those attributes completed by the seqid loop |
| FastqModel.ClassifyFailure | tidyss/fastq.py:43-55 | the constructor raises "does not match" exactly when the basename has no recognised extension; it raises at all exactly then or when `int()` rejects the Illumina read; the error never depends on the file's first line |
| FastqModel.ClassifySuccess | tidyss/fastq.py:41-81 | a constructed object has pattern `FastqFilename`, read 1, gzipped iff the path ends in "gz", seqid_pattern None, fcid 'Unknown', readgroup fcid + lane, and lane/instrument/run number from the seqid |
| FastqModel.ClassifyGateOnly | tidyss/fastq.py:43-55 | with the Illumina pattern's read shape, the only constructor failure is the extension gate |
| FastqModel.Fastq.constructor | tidyss/fastq.py:41-42 | path and filename set; no pattern, instrument, run number or flow-cell id recorded |
| FastqModel.Fastq.ApplyFilenameMatch | tidyss/fastq.py:49-55 | one body pass: a match overwrites pattern, name, lane and read, or raises on the read; the seqid attributes other than lane are untouched |
| FastqModel.Fastq.MatchFilenamePatterns | tidyss/fastq.py:47-55 | the loop leaves the attributes that the filename fold computes, or reports that fold's exception |
| FastqModel.Fastq.ApplySeqidMatch | tidyss/fastq.py:70-76 | one body pass: a match sets pattern name, instrument, run number and flow-cell id, and the lane when the seqid lane is non-empty |
| FastqModel.Fastq.MatchSeqidPatterns | tidyss/fastq.py:68-76 | the loop leaves the attributes the seqid fold computes; the filename attributes are unchanged |
| FastqModel.Fastq.ResolveSeqid | tidyss/fastq.py:58-81 | gzipped flag, seqid loop, `else` clause and read group: the object then holds `Resolve` of its filename attributes |
| FastqModel.Fastq.New | tidyss/fastq.py:34-81 | `Fastq(path)`: fails with exactly the error `Classify` gives, or yields a fresh object whose attributes are `Classify`'s record |
| Dicts.Dict.Put | tidyss/fastq.py:144-152 | `d[k] = v`: k maps to v, other keys keep their values, and a new key goes last in the order |
| Dicts.PutTwice | tidyss/fastq.py:144-156 | assigning a key twice equals assigning it once with the second value |
| Dicts.Singleton | tidyss/fastq.py:254 | `{k: v}` is a valid dict with the one key |
| Samples.Dedup | tidyss/fastq.py:143-144 | the distinct elements, the same set, no duplicates |
| Samples.DedupOrder | tidyss/fastq.py:143-144 | distinct elements are listed in the order of their first occurrence |
| Samples.Names | tidyss/fastq.py:142-143 | the file names in order |
| Samples.Pad | tidyss/fastq.py:151-152 | appending None until the list holds `read` slots keeps the old slots and adds only None |
| Samples.ReadgroupsOfMembers | tidyss/fastq.py:149-150 | a read group is listed for a name exactly when some file has that name and read group |
| Samples.SlotCountBounds | tidyss/fastq.py:150-152 | a list has at least 1 slot and at least every read number; its length is 1 or one of them |
| Samples.LastPathIsLast | tidyss/fastq.py:156 | slot `read` is filled exactly when some file has that read, and then with the path of the last such file |
| Samples.LastPathBeyond | tidyss/fastq.py:151-156 | no slot is filled beyond the slot count |
| Samples.SamplesOf | tidyss/fastq.py:140-157 | the declarative samples section: at most one key per file and each sample named by its key; `SamplesOfKeys`, `SamplesOfOrder`, `SamplesOfReadgroups` and `SamplesOfSlots` give the rest |
| Samples.SamplesOfAppend | tidyss/fastq.py:142-156 | one more file changes only its own sample, which gains it in its read group |
| Samples.SamplesOfKeys | tidyss/fastq.py:141-146 | the samples' keys are exactly the file names, and each sample's `name` is its key |
| Samples.SamplesOfOrder | tidyss/fastq.py:143-144 | sample keys come in the order in which names first occur |
| Samples.SamplesOfReadgroups | tidyss/fastq.py:147-150 | a sample's read groups are exactly the read groups of its files, in first-occurrence order |
| Samples.SamplesOfSlots | tidyss/fastq.py:150-156 | a read-group list has max(1, largest read) slots, and slot k holds the last path with read k+1, or None |
| Samples.SlotsOfReadOne | tidyss/fastq.py:150-156 | when every file has read 1 (as every constructed `Fastq` does), each list is the single last path |
| Samples.BuildStep | tidyss/fastq.py:142-156 | one loop pass (create sample, create list, pad, fill slot) takes `SamplesOf` of the prefix to `SamplesOf` of the prefix plus the file |
| Samples.PadSlots | tidyss/fastq.py:151-152 | the padding loop leaves `Pad` of the list: at least `read` slots, old ones kept, new ones None |
| Samples.AddFastq | tidyss/fastq.py:143-156 | one pass of the loop body takes `SamplesOf` of the earlier files to `SamplesOf` of them plus this file |
| Samples.BuildSamples | tidyss/fastq.py:140-157 | the loop's result is `SamplesOf` of the files |
| PathFilter.FilterPaths | tidyss/fastq.py:123-125 | the result is no longer than the input |
| PathFilter.FilterPathsSubsequence | tidyss/fastq.py:123-125 | the result is the subsequence of the paths at increasing positions, exactly the positions whose path matches |
| PathFilter.FilterPathsIdempotent | tidyss/fastq.py:123-125 | filtering twice with the same pattern equals filtering once |
| Samplesheets.SlotsValue | tidyss/fastq.py:248-254 | a read-group list becomes a list document of the same length, slot by slot |
| Samplesheets.SampleValue | tidyss/fastq.py:144-150 | a sample becomes `{'name': ..., 'readgroups': {...}}`, with its read groups in order and each list converted slot by slot |
| Samplesheets.SamplesValue | tidyss/fastq.py:248-254 | the samples document has the samples' keys, in the same order, and each entry is that sample's document |
| Samplesheets.PrintCodec | tidyss/fastq.py:160-166 | the serializer is chosen exactly for "json" and "yaml", JSON exactly for "json" |
| Samplesheets.LoadCodec | tidyss/fastq.py:172-178 | the loader is chosen exactly for "json" and "yaml", YAML exactly for "yaml" |
| Samplesheets.CodecsAgree | tidyss/fastq.py:160-178 | printing and loading accept the same names and map each to the same format |
| Samplesheets.LoadSamplesheet | tidyss/fastq.py:172-181 | an unsupported format is a ValueError; any exception of the loader becomes `LoadFailed(path)`; otherwise the loaded document |
| Samplesheets.LoadRejectsFirst | tidyss/fastq.py:172-180 | an unsupported format is rejected before the loader runs, whatever the loader would do |
| Samplesheets.Output.Write | tidyss/fastq.py:167 | the text is appended to what was written |
| Samplesheets.Output.Close | tidyss/fastq.py:169 | the file is closed, its contents unchanged |
| Samplesheets.PrintSamplesheet | tidyss/fastq.py:160-169 | fails exactly for a format other than json/yaml, with nothing written and the file open; otherwise writes the serialized document and closes the file |
| Samplesheets.HasSamples | tidyss/fastq.py:251 | `'samples' in doc` is defined exactly for dicts, lists and strings (else TypeError), and for a dict is key membership |
| Samplesheets.HasSamplesInString | tidyss/fastq.py:251 | a string holding "samples" as a substring counts, a shorter one does not, a list needs the item, an integer raises TypeError |
| Samplesheets.MergeSamples | tidyss/fastq.py:251-252 | a dict with "samples" is kept as is; a dict without it gains "samples" as its last key; a list or string with "samples" is kept; anything else is a TypeError |
| Samplesheets.MergeKeepsOtherKeys | tidyss/fastq.py:251-252 | merging never adds, removes or changes a key other than "samples" |
| Samplesheets.MergeIdempotent | tidyss/fastq.py:251-252 | after a merge into a dict "samples" is present, and a second merge changes nothing |
| Samplesheets.SamplesheetFor | tidyss/fastq.py:249-254 | without `--append` (or with an empty one) the document is `{'samples': samples}` |
| Samplesheets.SamplesheetForAppend | tidyss/fastq.py:249-252 | with `--append`, a load failure is the result; a loaded dict that holds "samples" is printed unchanged; one that lacks it gains the new samples last; a non-container is a TypeError |
| Samplesheets.WriteSamplesheet | tidyss/fastq.py:246-256 | builds the samples, forms the document and prints it: errors leave the output untouched and open, otherwise the document is written in the chosen format and the file closed |

## Left out

- `scan_dir` (tidyss/fastq.py:128-137): it walks the file system with `os.walk`. The paths are an input of the model instead.
- File I/O in `Fastq.__init__`, `gzip.open` and `readline().strip()` (tidyss/fastq.py:58-65): the stripped first line is the `seqid` parameter. Only the `gzipped` flag is computed.
- `Fastq.length` and `Fastq.__str__` (tidyss/fastq.py:83-100): file I/O, with floating-point division in `length`.
- `as_yaml`, `as_json`, `load_json`, `load_yaml` (tidyss/fastq.py:103-120): the serializers and parsers are the function parameters `render` and `load`.
- `get_args_discover`, `get_args_check`, `check`, and the stderr summary in `discover` (tidyss/fastq.py:184-244, 259-270): argument parsing and logging. The `args.out is not None` guard is the caller's choice to call `WriteSamplesheet`.
- `fp.flush()` (tidyss/fastq.py:168): it has no effect on the written contents in this model.
- Building every `Fastq` in `discover` (tidyss/fastq.py:232): the list comprehension is `Fastq.New` per path. The first exception aborts it, which is not modelled as a loop of its own.
- The `IlluminaFastqFilename` pattern (tidyss/fastq.py:16) is the uninterpreted parameter `illumina`. Only the shape of its `read` group (`R\d`) is assumed, in `ClassifyGateOnly`. Its lazy `.+?` and optional groups are not scanned, because its match never decides any attribute.
- The user's `--filter` regex is the predicate `matches` in `FilterPaths`.
- Regex details, assuming names and seqids without newlines:
  - `$` also matching before a final newline;
  - `.` not matching a newline;
  - `\d` and `\s` taken as ASCII only.
- ReadNumber: models `int()` on ASCII digits only. Signs, surrounding whitespace, underscores and non-ASCII digits, which Python also accepts, read as errors here.
- BuildSamples: requires read numbers of at least 1, as the source's own comment assumes. A read of 0 or less would use Python's negative indexing.
- FastqModel.SeqidState: an attribute never set and one set to None are both None. The two are distinguished only by `AttributeError` on access.
- Samplesheets.LoadSamplesheet: every exception the loader raises (a missing file, a parse error) is the one error `LoadFailed(path)`; which exception it was is not kept.
- Samplesheets.Value: floats, dates and other YAML-specific types have no constructor.
- WriteSamplesheet: `samplesheet['samples'] = samples` mutates the loaded object in place. The model returns the new document instead, so aliasing is not represented.
