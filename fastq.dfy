/**
  `Fastq.__init__` (tidyss/fastq.py:35-81): the gate on the basename, the
  loop over `filename_patterns`, the loop over `seqid_patterns` with its
  `else` clause, and the read-group key.

  The two loops have no `break`, so every pattern that matches overwrites
  the attributes an earlier one set, and the `else` of the second loop runs
  every time. `Classify` states, as one function, what the class's
  imperative construction `Fastq.New` computes; the lemmas below it say
  what that comes to.
*/
module FastqModel {
  import opened Wrappers
  import opened FastqFilenames
  import opened SequenceIds

  // ---------------------------------------------------------------------
  // The filename registry

  datatype FilenamePattern = IlluminaFastqFilename | FastqFilename

  /** `filename_patterns`, tidyss/fastq.py:30, in order. */
  const FilenamePatterns: seq<FilenamePattern> := [IlluminaFastqFilename, FastqFilename]

  /** `groupdict()` of a filename match as `__init__` reads it: `name`,
      and `lane` and `read`, None where the pattern has no such group or
      the optional group did not take part. */
  datatype FilenameGroups = FilenameGroups(name: string, lane: Option<string>, read: Option<string>)

  /** `IlluminaFastqFilename.match`, left uninterpreted: any function
      from a basename to the groups of a match. */
  type IlluminaMatcher = string -> Option<FilenameGroups>

  function MatchFilename(p: FilenamePattern, filename: string, illumina: IlluminaMatcher): (r: Option<FilenameGroups>)
    ensures p == FastqFilename ==> (r.Some? <==> HasFastqExtension(filename))
    ensures p == FastqFilename && r.Some? ==> r.value.lane.None? && r.value.read.None?
  {
    match p
    case IlluminaFastqFilename => illumina(filename)
    case FastqFilename =>
      match MatchFastqFilename(filename)
      case None => None
      case Some(m) => Some(FilenameGroups(m.name, None, None))
  }

  /** Python's `v or default` for a value that is a string or None: the
      empty string counts as false. */
  function Or(v: Option<string>, default: string): (r: string)
    ensures r == default || (v.Some? && r == v.value)
    ensures r == "" ==> default == ""
    ensures v.Some? && v.value != "" ==> r == v.value
  {
    if v.Some? && v.value != "" then v.value else default
  }

  // ---------------------------------------------------------------------
  // int(read.strip('R'))

  /** `n` copies of `c`. */
  function Repeat(c: char, n: nat): (r: string)
    ensures |r| == n && forall k :: 0 <= k < n ==> r[k] == c
  {
    seq(n, _ => c)
  }

  /** `str.lstrip(c)`: drop every leading `c`. */
  function TrimLeft(s: string, c: char): (r: string)
    ensures |r| <= |s|
    ensures s == Repeat(c, |s| - |r|) + r
    ensures r == [] || r[0] != c
  {
    if s != [] && s[0] == c then
      var r := TrimLeft(s[1..], c);
      assert s == [c] + s[1..];
      assert Repeat(c, |s| - |r|) == [c] + Repeat(c, |s| - 1 - |r|);
      r
    else
      assert Repeat(c, 0) == [];
      s
  }

  /** `str.rstrip(c)`: drop every trailing `c`. */
  function TrimRight(s: string, c: char): (r: string)
    ensures |r| <= |s|
    ensures s == r + Repeat(c, |s| - |r|)
    ensures r == [] || r[|r| - 1] != c
  {
    if s != [] && s[|s| - 1] == c then
      var r := TrimRight(s[..|s| - 1], c);
      assert s == s[..|s| - 1] + [c];
      assert Repeat(c, |s| - |r|) == Repeat(c, |s| - 1 - |r|) + [c];
      r
    else
      assert Repeat(c, 0) == [];
      s
  }

  /** `str.strip(c)`: what is left is empty or neither starts nor ends
      with `c`, and everything dropped is `c`. */
  function Strip(s: string, c: char): (r: string)
    ensures r == [] || (r[0] != c && r[|r| - 1] != c)
    ensures |r| <= |TrimLeft(s, c)|
    ensures s == Repeat(c, |s| - |TrimLeft(s, c)|) + r + Repeat(c, |TrimLeft(s, c)| - |r|)
  {
    var t := TrimLeft(s, c);
    var r := TrimRight(t, c);
    assert r == t[..|r|];
    r
  }

  function DigitValue(c: char): nat
    requires IsDigit(c)
  {
    c as int - '0' as int
  }

  function Pow10(k: nat): (p: nat)
    ensures p >= 1
  {
    if k == 0 then 1 else 10 * Pow10(k - 1)
  }

  /** The value of a string of decimal digits, read from the last digit
      back: it has fewer digits than the next power of ten. */
  function DecimalValue(s: string): (n: nat)
    requires AllIn(s, Digit)
    ensures n < Pow10(|s|)
    ensures |s| == 1 ==> n == DigitValue(s[0])
  {
    if s == [] then 0 else 10 * DecimalValue(s[..|s| - 1]) + DigitValue(s[|s| - 1])
  }

  /** Read from the first digit instead: the leading digit counts
      `Pow10` of the number of digits after it. */
  lemma {:induction false} DecimalValueFromLeft(d: char, s: string)
    requires IsDigit(d) && AllIn(s, Digit)
    ensures AllIn([d] + s, Digit)
    ensures DecimalValue([d] + s) == DigitValue(d) * Pow10(|s|) + DecimalValue(s)
  {
    var t := [d] + s;
    assert forall k :: 0 <= k < |t| ==> t[k] == if k == 0 then d else s[k - 1];
    if s == [] {
      assert t == [d];
    } else {
      var init := s[..|s| - 1];
      assert t[..|t| - 1] == [d] + init;
      assert t[|t| - 1] == s[|s| - 1];
      DecimalValueFromLeft(d, init);
      var a: int, p: int := DigitValue(d), Pow10(|init|);
      assert DecimalValue(t) == 10 * DecimalValue([d] + init) + DigitValue(s[|s| - 1]);
      assert DecimalValue(s) == 10 * DecimalValue(init) + DigitValue(s[|s| - 1]);
      assert Pow10(|s|) == 10 * p;
      ScaleByTen(a, p);
    }
  }

  lemma ScaleByTen(a: int, p: int)
    ensures 10 * (a * p) == a * (10 * p)
  {
  }

  /** `int(text.strip('R'))`: None where `int` raises ValueError. Only
      ASCII digits are read. */
  function ReadNumber(text: string): (r: Option<nat>)
    ensures r.Some? <==> Strip(text, 'R') != [] && AllIn(Strip(text, 'R'), Digit)
  {
    var digits := Strip(text, 'R');
    if digits != [] && AllIn(digits, Digit) then Some(DecimalValue(digits)) else None
  }

  /** The default read text "1" is read 1. */
  lemma ReadNumberOfDefault()
    ensures ReadNumber("1") == Some(1)
  {
    var one := "1";
    StripNothing(one, 'R');
    ReadNumberOfDigit(one, '1');
  }

  /** The `R\d` group of the Illumina pattern reads as its digit. */
  lemma ReadNumberOfRDigit(d: char)
    requires IsDigit(d)
    ensures ReadNumber(['R', d]) == Some(DigitValue(d))
  {
    var t := ['R', d];
    assert t[1..] == [d];
    assert Strip(t, 'R') == Strip([d], 'R');
    StripNothing([d], 'R');
    ReadNumberOfDigit(t, d);
  }

  /** A text that strips to one digit reads as that digit. */
  lemma ReadNumberOfDigit(text: string, d: char)
    requires IsDigit(d) && Strip(text, 'R') == [d]
    ensures ReadNumber(text) == Some(DigitValue(d))
  {
    var digits := Strip(text, 'R');
    assert AllIn(digits, Digit);
    assert DecimalValue(digits) == DigitValue(d);
  }

  /** A text that neither starts nor ends with `c` is its own strip. */
  lemma StripNothing(s: string, c: char)
    requires s != [] && s[0] != c && s[|s| - 1] != c
    ensures Strip(s, c) == s
  {
    assert TrimLeft(s, c) == s;
    assert TrimRight(s, c) == s;
  }

  // ---------------------------------------------------------------------
  // The first loop: tidyss/fastq.py:47-55

  /** The four attributes one filename match sets. */
  datatype FilenameFields = FilenameFields(pattern: FilenamePattern, name: string, lane: string, read: int)

  datatype FastqError =
    | UnrecognizedFilename(filename: string)  // the ValueError of line 44
    | InvalidReadNumber(text: string)         // a ValueError from int()

  /** One iteration: a pattern that matches overwrites all four
      attributes; one that does not leaves them as they were. */
  function FilenameStep(prev: Option<FilenameFields>, p: FilenamePattern, filename: string,
                        illumina: IlluminaMatcher): Result<Option<FilenameFields>, FastqError>
  {
    FilenameUpdate(prev, p, MatchFilename(p, filename, illumina))
  }

  /** The same, given the groups of the match (None: no match). */
  function FilenameUpdate(prev: Option<FilenameFields>, p: FilenamePattern, groups: Option<FilenameGroups>)
    : (r: Result<Option<FilenameFields>, FastqError>)
    ensures groups.None? ==> r == Success(prev)
    ensures r.Failure? <==> groups.Some? && ReadNumber(Or(groups.value.read, "1")).None?
    ensures r.Success? && groups.Some? ==>
      && r.value.Some? && r.value.value.pattern == p && r.value.value.name == groups.value.name
      && r.value.value.lane == Or(groups.value.lane, "1")
  {
    match groups
    case None => Success(prev)
    case Some(gd) =>
      var text := Or(gd.read, "1");
      match ReadNumber(text)
      case None => Failure(InvalidReadNumber(text))
      case Some(n) => Success(Some(FilenameFields(p, gd.name, Or(gd.lane, "1"), n)))
  }

  /** The attributes after running the loop body over `ps` in order
      (None: no pattern has matched yet); the first exception ends it. */
  function FilenameFold(ps: seq<FilenamePattern>, filename: string, illumina: IlluminaMatcher)
    : (r: Result<Option<FilenameFields>, FastqError>)
    ensures r.Success? && r.value.Some? ==>
      r.value.value.pattern in ps && MatchFilename(r.value.value.pattern, filename, illumina).Some?
    ensures r.Success? && r.value.None? ==>
      forall k :: 0 <= k < |ps| ==> MatchFilename(ps[k], filename, illumina).None?
  {
    if ps == [] then Success(None)
    else
      match FilenameFold(ps[..|ps| - 1], filename, illumina)
      case Failure(e) => Failure(e)
      case Success(prev) => FilenameStep(prev, ps[|ps| - 1], filename, illumina)
  }

  /** Once the gate has passed, a loop that raises nothing has set the
      attributes. */
  lemma FilenameFoldSets(filename: string, illumina: IlluminaMatcher)
    requires MatchFastqFilename(filename).Some?
    ensures FilenameFold(FilenamePatterns, filename, illumina).Success? ==>
      FilenameFold(FilenamePatterns, filename, illumina).value.Some?
  {
    FilenameFoldOutcome(filename, illumina);
  }

  /** The first exception ends the loop: the patterns after it do not run. */
  lemma {:induction false} FilenameFoldStops(ps: seq<FilenamePattern>, k: nat, filename: string, illumina: IlluminaMatcher)
    requires k <= |ps| && FilenameFold(ps[..k], filename, illumina).Failure?
    ensures FilenameFold(ps, filename, illumina) == FilenameFold(ps[..k], filename, illumina)
    decreases |ps| - k
  {
    if k < |ps| {
      var q := ps[..|ps| - 1];
      assert q[..k] == ps[..k];
      FilenameFoldStops(q, k, filename, illumina);
    } else {
      assert ps[..k] == ps;
    }
  }

  /** The Illumina match, if any, carries a read text `int()` accepts. */
  predicate IlluminaReadOk(g: Option<FilenameGroups>) {
    g.None? || ReadNumber(Or(g.value.read, "1")).Some?
  }

  /** The `read` group of the real Illumina pattern is absent or `R\d`,
      and such a match never makes `int()` raise. */
  lemma IlluminaShapeReadOk(g: Option<FilenameGroups>)
    requires g.Some? && g.value.read.Some? ==>
      |g.value.read.value| == 2 && g.value.read.value[0] == 'R' && IsDigit(g.value.read.value[1])
    ensures IlluminaReadOk(g)
  {
    if g.Some? && g.value.read.Some? && g.value.read.value != "" {
      var t := g.value.read.value;
      ReadNumberOfRDigit(t[1]);
      assert t == ['R', t[1]];
    } else {
      ReadNumberOfDefault();
    }
  }

  /** Once the gate has passed, the loop leaves the attributes of the
      `FastqFilename` match whatever the Illumina pattern did, unless
      `int()` raised on the Illumina read first. */
  lemma {:induction false} FilenameFoldOutcome(filename: string, illumina: IlluminaMatcher)
    requires HasFastqExtension(filename)
    ensures FilenameFold(FilenamePatterns, filename, illumina) ==
      if IlluminaReadOk(illumina(filename))
      then Success(Some(FilenameFields(FastqFilename, MatchFastqFilename(filename).value.name, "1", 1)))
      else Failure(InvalidReadNumber(Or(illumina(filename).value.read, "1")))
  {
    var ps := FilenamePatterns;
    assert ps[..1] == [IlluminaFastqFilename] && ps[..1][..0] == [];
    var first := FilenameStep(None, IlluminaFastqFilename, filename, illumina);
    assert FilenameFold(ps[..1], filename, illumina) == first;
    assert FilenameFold(ps, filename, illumina) ==
      if first.Failure? then first else FilenameStep(first.value, FastqFilename, filename, illumina);
    IlluminaStep(filename, illumina);
    if first.Success? {
      FastqFilenameStep(first.value, filename, illumina);
    }
  }

  /** The Illumina pass fails exactly when `int()` rejects its read. */
  lemma IlluminaStep(filename: string, illumina: IlluminaMatcher)
    ensures FilenameStep(None, IlluminaFastqFilename, filename, illumina).Failure? <==> !IlluminaReadOk(illumina(filename))
    ensures !IlluminaReadOk(illumina(filename)) ==>
      FilenameStep(None, IlluminaFastqFilename, filename, illumina) == Failure(InvalidReadNumber(Or(illumina(filename).value.read, "1")))
  {
  }

  /** The `FastqFilename` pass always matches once the gate has passed,
      and overwrites whatever the Illumina pass set. */
  lemma FastqFilenameStep(prev: Option<FilenameFields>, filename: string, illumina: IlluminaMatcher)
    requires HasFastqExtension(filename)
    ensures FilenameStep(prev, FastqFilename, filename, illumina)
         == Success(Some(FilenameFields(FastqFilename, MatchFastqFilename(filename).value.name, "1", 1)))
  {
    var g := MatchFilename(FastqFilename, filename, illumina);
    assert g == Some(FilenameGroups(MatchFastqFilename(filename).value.name, None, None));
    assert Or(None, "1") == "1";
    ReadNumberOfDefault();
  }

  // ---------------------------------------------------------------------
  // The second loop: tidyss/fastq.py:68-79

  /** The attributes the seqid loop reads and writes (None: not set, or
      set to None). */
  datatype SeqidState = SeqidState(
    pattern: Option<SeqidPattern>, instrument: Option<string>, runNumber: Option<string>,
    fcid: Option<string>, lane: string)

  /** One iteration: a match sets the pattern name, instrument, run number
      and flow-cell id, and the lane when its lane group is non-empty. */
  function SeqidStep(st: SeqidState, p: SeqidPattern, seqid: string): SeqidState {
    SeqidUpdate(st, p, MatchSeqid(p, seqid))
  }

  /** The same, given the groups of the match (None: no match). */
  function SeqidUpdate(st: SeqidState, p: SeqidPattern, groups: Option<SeqidGroups>): (r: SeqidState)
    ensures groups.None? ==> r == st
    ensures groups.Some? ==> r.pattern == Some(p) && r.instrument == Some(groups.value.instrument)
    ensures r.lane == st.lane || (groups.Some? && r.lane == groups.value.lane && r.lane != "")
  {
    match groups
    case None => st
    case Some(gd) =>
      SeqidState(Some(p), Some(gd.instrument), gd.runNumber, gd.flowcellId, Or(Some(gd.lane), st.lane))
  }

  function SeqidFold(ps: seq<SeqidPattern>, seqid: string, init: SeqidState): (r: SeqidState)
    ensures r.pattern == init.pattern || (r.pattern.Some? && r.pattern.value in ps)
    ensures init.lane != "" ==> r.lane != ""
  {
    if ps == [] then init else SeqidStep(SeqidFold(ps[..|ps| - 1], seqid, init), ps[|ps| - 1], seqid)
  }

  /** Reference reading of the lane: the V1 lane if V1 matches with a
      non-empty lane, else the V2 lane if V2 does, else the filename's. */
  function LaneFromSeqid(seqid: string, filenameLane: string): string {
    var v1 := MatchV1(seqid);
    var v2 := MatchV2(seqid);
    if v1.Some? && v1.value.lane != "" then v1.value.lane
    else if v2.Some? && v2.value.lane != "" then v2.value.lane
    else filenameLane
  }

  /** The instrument attribute: the later pattern's wins; None when
      neither matched and the attribute is never set. */
  function InstrumentFromSeqid(seqid: string): Option<string> {
    var v1 := MatchV1(seqid);
    var v2 := MatchV2(seqid);
    if v1.Some? then Some(v1.value.instrument)
    else if v2.Some? then Some(v2.value.instrument)
    else None
  }

  /** The run number: V1 has no such group and sets it to None. */
  function RunNumberFromSeqid(seqid: string): Option<string> {
    var v1 := MatchV1(seqid);
    var v2 := MatchV2(seqid);
    if v1.Some? then None
    else if v2.Some? then Some(v2.value.runNumber)
    else None
  }

  lemma {:induction false} SeqidFoldOutcome(seqid: string, lane: string)
    ensures var st := SeqidFold(SeqidPatterns, seqid, SeqidState(None, None, None, None, lane));
      && st.lane == LaneFromSeqid(seqid, lane)
      && st.instrument == InstrumentFromSeqid(seqid)
      && st.runNumber == RunNumberFromSeqid(seqid)
  {
    var ps := SeqidPatterns;
    var init := SeqidState(None, None, None, None, lane);
    assert ps[..1] == [IlluminaSeqidV2] && ps[..1][..0] == [];
    var st1 := SeqidStep(init, IlluminaSeqidV2, seqid);
    assert SeqidFold(ps[..1], seqid, init) == st1;
    assert SeqidFold(ps, seqid, init) == SeqidStep(st1, IlluminaSeqidV1, seqid);
  }

  // ---------------------------------------------------------------------
  // The classifier

  /** Every attribute of a constructed `Fastq`. */
  datatype FastqRecord = FastqRecord(
    path: string, filename: string, filenamePattern: FilenamePattern, name: string,
    lane: string, read: int, gzipped: bool, seqid: string,
    seqidPattern: Option<SeqidPattern>, instrument: Option<string>,
    runNumber: Option<string>, fcid: string, readgroup: string)

  /** `Fastq(path)` where the stripped first line of the file is `seqid`. */
  function Classify(path: string, seqid: string, illumina: IlluminaMatcher): (r: Result<FastqRecord, FastqError>)
    ensures !HasFastqExtension(Basename(path)) ==> r == Failure(UnrecognizedFilename(Basename(path)))
    ensures r.Success? ==> r.value.path == path && r.value.filename == Basename(path) && r.value.seqid == seqid
  {
    var filename := Basename(path);
    if MatchFastqFilename(filename).None? then Failure(UnrecognizedFilename(filename))
    else
      match FilenameFold(FilenamePatterns, filename, illumina)
      case Failure(e) => Failure(e)
      // never taken: FastqFilename matches whatever passed the gate (FilenameFoldOutcome)
      case Success(None) => Failure(UnrecognizedFilename(filename))
      case Success(Some(ff)) => Success(Resolve(path, filename, ff, seqid))
  }

  /** The attributes once both loops have run, from those of the first. */
  function Resolve(path: string, filename: string, ff: FilenameFields, seqid: string): (r: FastqRecord)
    ensures r.seqidPattern.None? && r.fcid == "Unknown"
  {
    var st := SeqidFold(SeqidPatterns, seqid, SeqidState(None, None, None, None, ff.lane));
    // the loop's `else`: seqid_pattern = None, fcid = 'Unknown'
    FastqRecord(
      path, filename, ff.pattern, ff.name, st.lane, ff.read, EndsWith(path, "gz"), seqid,
      None, st.instrument, st.runNumber, "Unknown", "Unknown" + st.lane)
  }

  /** The attributes `Resolve` takes from the first line, and those it
      keeps from the filename. */
  lemma ResolveFromSeqid(path: string, filename: string, ff: FilenameFields, seqid: string)
    ensures var r := Resolve(path, filename, ff, seqid);
      && r.readgroup == r.fcid + r.lane && (ff.lane != "" ==> r.lane != "")
      && r.lane == LaneFromSeqid(seqid, ff.lane)
      && r.instrument == InstrumentFromSeqid(seqid) && r.runNumber == RunNumberFromSeqid(seqid)
      && r.path == path && r.filename == filename && r.seqid == seqid && r.gzipped == EndsWith(path, "gz")
      && r.filenamePattern == ff.pattern && r.name == ff.name && r.read == ff.read
  {
    SeqidFoldOutcome(seqid, ff.lane);
  }

  /** `Classify` once the first loop has left `ff`. */
  lemma ClassifyResolved(path: string, seqid: string, illumina: IlluminaMatcher, ff: FilenameFields)
    requires MatchFastqFilename(Basename(path)).Some?
    requires FilenameFold(FilenamePatterns, Basename(path), illumina) == Success(Some(ff))
    ensures Classify(path, seqid, illumina) == Success(Resolve(path, Basename(path), ff, seqid))
  {
  }

  /** `ValueError` is raised exactly when the basename does not end in a
      recognised extension (or, for a matcher unlike the real Illumina
      pattern, when `int()` rejects its read); which error, and whether
      there is one, does not depend on the file's first line, so it comes
      before the file is opened. */
  lemma ClassifyFailure(path: string, seqid: string, other: string, illumina: IlluminaMatcher)
    ensures (Classify(path, seqid, illumina) == Failure(UnrecognizedFilename(Basename(path))))
            <==> !HasFastqExtension(Basename(path))
    ensures Classify(path, seqid, illumina).Failure?
            <==> !HasFastqExtension(Basename(path)) || !IlluminaReadOk(illumina(Basename(path)))
    ensures Classify(path, seqid, illumina).Failure? ==> Classify(path, seqid, illumina) == Classify(path, other, illumina)
    ensures Classify(path, seqid, illumina).Failure? == Classify(path, other, illumina).Failure?
  {
    var filename := Basename(path);
    if HasFastqExtension(filename) {
      FilenameFoldOutcome(filename, illumina);
    }
  }

  /** What a constructed `Fastq` holds: the fields always come from
      `FastqFilename` (name before the extension, lane '1' unless the
      first line overrides it, read 1), `fcid` is always 'Unknown' and
      `seqid_pattern` always None, and `readgroup` is `fcid + lane`. */
  lemma ClassifySuccess(path: string, seqid: string, illumina: IlluminaMatcher)
    requires Classify(path, seqid, illumina).Success?
    ensures var rec := Classify(path, seqid, illumina).value;
      && rec.path == path && rec.filename == Basename(path) && rec.seqid == seqid
      && rec.filenamePattern == FastqFilename
      && rec.name == MatchFastqFilename(rec.filename).value.name
      && rec.read == 1
      && rec.gzipped == EndsWith(path, "gz")
      && rec.seqidPattern.None? && rec.fcid == "Unknown"
      && rec.lane == LaneFromSeqid(seqid, "1")
      && rec.instrument == InstrumentFromSeqid(seqid)
      && rec.runNumber == RunNumberFromSeqid(seqid)
      && rec.readgroup == rec.fcid + rec.lane
  {
    var filename := Basename(path);
    FilenameFoldOutcome(filename, illumina);
    SeqidFoldOutcome(seqid, "1");
  }

  /** With the real Illumina pattern's read shape the only failure is the
      gate. */
  lemma ClassifyGateOnly(path: string, seqid: string, illumina: IlluminaMatcher)
    requires var g := illumina(Basename(path));
      g.Some? && g.value.read.Some? ==>
        |g.value.read.value| == 2 && g.value.read.value[0] == 'R' && IsDigit(g.value.read.value[1])
    ensures Classify(path, seqid, illumina).Failure? <==> !HasFastqExtension(Basename(path))
  {
    IlluminaShapeReadOk(illumina(Basename(path)));
    ClassifyFailure(path, seqid, seqid, illumina);
  }

  // ---------------------------------------------------------------------
  // The object

  class Fastq {
    var path: string
    var filename: string
    var filenamePattern: Option<FilenamePattern>
    var name: string
    var lane: string
    var read: int
    var gzipped: bool
    var seqid: string
    var seqidPattern: Option<SeqidPattern>
    var instrument: Option<string>
    var runNumber: Option<string>
    var fcid: Option<string>
    var readgroup: string

    /** The object as `__init__` finds it after lines 41-42: path and
        filename set, no pattern recorded yet. */
    constructor (path: string, filename: string)
      ensures this.path == path && this.filename == filename
      ensures filenamePattern.None? && seqidPattern.None?
      ensures instrument.None? && runNumber.None? && fcid.None?
    {
      this.path := path;
      this.filename := filename;
      filenamePattern := None;
      name, lane, read := "", "", 0;
      gzipped, seqid := false, "";
      seqidPattern, instrument, runNumber, fcid := None, None, None, None;
      readgroup := "";
    }

    /** The attributes the first loop sets, None while none is set. */
    function FilenameAttributes(): Option<FilenameFields>
      reads this
    {
      if filenamePattern.None? then None
      else Some(FilenameFields(filenamePattern.value, name, lane, read))
    }

    function SeqidAttributes(): SeqidState
      reads this
    {
      SeqidState(seqidPattern, instrument, runNumber, fcid, lane)
    }

    ghost predicate Resolved()
      reads this
    {
      filenamePattern.Some? && fcid.Some?
    }

    function Record(): FastqRecord
      reads this
      requires Resolved()
    {
      FastqRecord(path, filename, filenamePattern.value, name, lane, read, gzipped, seqid,
        seqidPattern, instrument, runNumber, fcid.value, readgroup)
    }

    /** One pass of the loop body of tidyss/fastq.py:49-55, given what
        `pattern.match(self.filename)` returned. */
    method ApplyFilenameMatch(pattern: FilenamePattern, groups: Option<FilenameGroups>) returns (err: Option<FastqError>)
      modifies this
      ensures err.Some? ==> FilenameUpdate(old(FilenameAttributes()), pattern, groups) == Failure(err.value)
      ensures err.None? ==> FilenameUpdate(old(FilenameAttributes()), pattern, groups) == Success(FilenameAttributes())
      ensures path == old(path) && filename == old(filename) && seqid == old(seqid) && gzipped == old(gzipped)
      ensures SeqidAttributes() == old(SeqidAttributes()).(lane := lane)
    {
      if groups.Some? {
        var gd := groups.value;
        filenamePattern := Some(pattern);
        name := gd.name;
        lane := Or(gd.lane, "1");
        var text := Or(gd.read, "1");
        var number := ReadNumber(text);
        if number.None? {
          return Some(InvalidReadNumber(text));
        }
        read := number.value;
      }
      err := None;
    }

    /** The loop over `filename_patterns` (tidyss/fastq.py:47-55). */
    method MatchFilenamePatterns(illumina: IlluminaMatcher) returns (err: Option<FastqError>)
      modifies this
      requires filenamePattern.None?
      ensures err.Some? ==> FilenameFold(FilenamePatterns, filename, illumina) == Failure(err.value)
      ensures err.None? ==> FilenameFold(FilenamePatterns, filename, illumina) == Success(FilenameAttributes())
      ensures path == old(path) && filename == old(filename) && seqid == old(seqid) && gzipped == old(gzipped)
      ensures SeqidAttributes() == old(SeqidAttributes()).(lane := lane)
    {
      for i := 0 to |FilenamePatterns|
        invariant path == old(path) && filename == old(filename) && seqid == old(seqid) && gzipped == old(gzipped)
        invariant SeqidAttributes() == old(SeqidAttributes()).(lane := lane)
        invariant FilenameFold(FilenamePatterns[..i], filename, illumina) == Success(FilenameAttributes())
      {
        assert FilenamePatterns[..i + 1][..i] == FilenamePatterns[..i];
        var groups := MatchFilename(FilenamePatterns[i], filename, illumina);
        err := ApplyFilenameMatch(FilenamePatterns[i], groups);
        if err.Some? {
          FilenameFoldStops(FilenamePatterns, i + 1, filename, illumina);
          return;
        }
      }
      assert FilenamePatterns[..|FilenamePatterns|] == FilenamePatterns;
      err := None;
    }

    /** One pass of the loop body of tidyss/fastq.py:70-77, given what
        `pattern.match(self.seqid)` returned. */
    method ApplySeqidMatch(pattern: SeqidPattern, groups: Option<SeqidGroups>)
      modifies this
      ensures SeqidAttributes() == SeqidUpdate(old(SeqidAttributes()), pattern, groups)
      ensures filenamePattern == old(filenamePattern) && name == old(name) && read == old(read)
      ensures path == old(path) && filename == old(filename) && seqid == old(seqid) && gzipped == old(gzipped)
    {
      if groups.Some? {
        var gd := groups.value;
        seqidPattern := Some(pattern);
        instrument := Some(gd.instrument);
        runNumber := gd.runNumber;
        fcid := gd.flowcellId;
        lane := Or(Some(gd.lane), lane);
      }
    }

    /** The loop over `seqid_patterns` (tidyss/fastq.py:68-77), before
        its `else`. */
    method MatchSeqidPatterns()
      modifies this
      ensures SeqidAttributes() == SeqidFold(SeqidPatterns, seqid, old(SeqidAttributes()))
      ensures filenamePattern == old(filenamePattern) && name == old(name) && read == old(read)
      ensures path == old(path) && filename == old(filename) && seqid == old(seqid) && gzipped == old(gzipped)
    {
      for j := 0 to |SeqidPatterns|
        invariant filenamePattern == old(filenamePattern) && name == old(name) && read == old(read)
        invariant path == old(path) && filename == old(filename) && seqid == old(seqid) && gzipped == old(gzipped)
        invariant SeqidFold(SeqidPatterns[..j], seqid, old(SeqidAttributes())) == SeqidAttributes()
      {
        assert SeqidPatterns[..j + 1][..j] == SeqidPatterns[..j];
        var groups := MatchSeqid(SeqidPatterns[j], seqid);
        ApplySeqidMatch(SeqidPatterns[j], groups);
      }
      assert SeqidPatterns[..|SeqidPatterns|] == SeqidPatterns;
    }

    /** Lines 58-81 of `__init__`: record whether the file is gzipped and
        its first line, run the seqid loop and its `else`, and form the
        read-group key. */
    method ResolveSeqid(seqid: string)
      modifies this
      requires filenamePattern.Some?
      requires seqidPattern.None? && instrument.None? && runNumber.None? && fcid.None?
      ensures path == old(path) && filename == old(filename) && Resolved()
      ensures Record() == Resolve(path, filename, old(FilenameAttributes()).value, seqid)
    {
      gzipped := EndsWith(path, "gz");
      this.seqid := seqid;
      MatchSeqidPatterns();
      // the loop's `else`
      seqidPattern := None;
      fcid := Some("Unknown");
      readgroup := fcid.value + lane;
    }

    /** `Fastq(path)`, given the stripped first line `seqid` of the file:
        the gate, then the two loops over the pattern registries. */
    static method New(path: string, seqid: string, illumina: IlluminaMatcher) returns (r: Result<Fastq, FastqError>)
      ensures r.Failure? ==> Classify(path, seqid, illumina) == Failure(r.error)
      ensures r.Success? ==> fresh(r.value) && r.value.Resolved()
      ensures r.Success? ==> Classify(path, seqid, illumina) == Success(r.value.Record())
    {
      var filename := Basename(path);
      if MatchFastqFilename(filename).None? {
        return Failure(UnrecognizedFilename(filename));
      }
      var f := new Fastq(path, filename);
      var err := f.MatchFilenamePatterns(illumina);
      if err.Some? {
        return Failure(err.value);
      }
      FilenameFoldSets(filename, illumina);
      ghost var ff := f.FilenameAttributes().value;
      f.ResolveSeqid(seqid);
      ClassifyResolved(path, seqid, illumina, ff);
      r := Success(f);
    }
  }
}
