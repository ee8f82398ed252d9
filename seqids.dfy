/**
  The two sequence-identifier patterns of tidyss, `IlluminaSeqidV2` and
  `IlluminaSeqidV1`, as field-by-field scanners. Both are used with
  `re.match`, so they only need to match a prefix of the line.

  No character class of either pattern contains the character that follows
  it, so a greedy `[...]*` can never give a character back: taking the
  longest run and then expecting the next separator is exactly what the
  backtracking engine does.
*/
module SequenceIds {
  import opened Wrappers

  /** The character classes the two patterns use. `\d` and `\s` are read
      as their ASCII members. */
  datatype CharClass =
    | Exactly(c: char)
    | InstrumentChar  // [a-zA-Z0-9_-]
    | Digit           // \d
    | AlphaNumeric    // [a-zA-Z0-9]
    | Base            // [NACTG]
    | Whitespace      // \s
    | FilterFlag      // [YN]

  predicate IsDigit(c: char) { '0' <= c <= '9' }

  predicate IsAlphaNumeric(c: char) { 'a' <= c <= 'z' || 'A' <= c <= 'Z' || IsDigit(c) }

  predicate InClass(c: char, cc: CharClass) {
    match cc
    case Exactly(d) => c == d
    case InstrumentChar => IsAlphaNumeric(c) || c == '_' || c == '-'
    case Digit => IsDigit(c)
    case AlphaNumeric => IsAlphaNumeric(c)
    case Base => c == 'N' || c == 'A' || c == 'C' || c == 'T' || c == 'G'
    // space, \t \n \v \f \r and the four ASCII separators 0x1c-0x1f
    case Whitespace => c == ' ' || 9 <= c as int <= 13 || 28 <= c as int <= 31
    case FilterFlag => c == 'Y' || c == 'N'
  }

  predicate AllIn(w: string, cc: CharClass) {
    forall k :: 0 <= k < |w| ==> InClass(w[k], cc)
  }

  /** The text does not begin with a member of the class. */
  predicate StopsRun(t: string, cc: CharClass) {
    t == [] || !InClass(t[0], cc)
  }

  /** A separator character, a group, and what follows them. */
  function Sep(c: char, group: string, tail: string): string {
    [c] + (group + tail)
  }

  /** A greedy `[...]*`: the longest prefix of `s` inside the class, and
      the remainder. */
  function TakeRun(s: string, cc: CharClass): (r: (string, string))
    ensures r.0 + r.1 == s
    ensures AllIn(r.0, cc) && StopsRun(r.1, cc)
  {
    if s != [] && InClass(s[0], cc) then
      var (w, t) := TakeRun(s[1..], cc);
      assert [s[0]] + w + t == s;
      ([s[0]] + w, t)
    else ([], s)
  }

  /** A run followed by text that stops it is taken whole. */
  lemma {:induction false} TakeRunOf(w: string, t: string, cc: CharClass)
    requires AllIn(w, cc) && StopsRun(t, cc)
    ensures TakeRun(w + t, cc) == (w, t)
  {
    if w == [] {
      assert w + t == t;
    } else {
      var s := w + t;
      assert s[0] == w[0] && s[1..] == w[1..] + t;
      assert InClass(s[0], cc);
      TakeRunOf(w[1..], t, cc);
      assert TakeRun(s, cc) == ([s[0]] + w[1..], t);
      assert [w[0]] + w[1..] == w;
    }
  }

  /** The first two characters of a text, as a separator and a group. */
  lemma SplitTwo(s: string)
    requires |s| >= 2
    ensures s == Sep(s[0], [s[1]], s[2..])
  {
    assert s == [s[0]] + ([s[1]] + s[2..]);
  }

  /** A scanned field: the separator that opened it, its group, the rest. */
  datatype Scanned = Scanned(sep: char, group: string, rest: string)

  /** One separator from `sep`, then a greedy run of `cc`. */
  function Field(s: string, sep: CharClass, cc: CharClass): (r: Option<Scanned>)
    ensures r.None? <==> !(s != [] && InClass(s[0], sep))
    ensures r.Some? ==> s == Sep(r.value.sep, r.value.group, r.value.rest)
    ensures r.Some? ==> InClass(r.value.sep, sep) && AllIn(r.value.group, cc) && StopsRun(r.value.rest, cc)
  {
    if s != [] && InClass(s[0], sep) then
      var (w, t) := TakeRun(s[1..], cc);
      Some(Scanned(s[0], w, t))
    else None
  }

  lemma FieldOf(c: char, w: string, t: string, sep: CharClass, cc: CharClass)
    requires InClass(c, sep) && AllIn(w, cc) && StopsRun(t, cc)
    ensures Field(Sep(c, w, t), sep, cc) == Some(Scanned(c, w, t))
  {
    assert Sep(c, w, t)[1..] == w + t;
    TakeRunOf(w, t, cc);
  }

  // ---------------------------------------------------------------------
  // IlluminaSeqidV2, tidyss/fastq.py:26:
  //   @instrument:run_number:flowcellID:lane:tile:x_pos:y_pos\sread:is_filtered:control_number:index_sequence

  /** The named groups of a V2 match, and the one `\s` character. */
  datatype V2Fields = V2Fields(
    instrument: string, runNumber: string, flowcellId: string, lane: string,
    tile: string, xPos: string, yPos: string, separator: char, read: string,
    isFiltered: char, controlNumber: string, indexSequence: string)

  predicate WellFormedV2(f: V2Fields) {
    && AllIn(f.instrument, InstrumentChar) && AllIn(f.runNumber, Digit)
    && AllIn(f.flowcellId, AlphaNumeric) && AllIn(f.lane, Digit)
    && AllIn(f.tile, Digit) && AllIn(f.xPos, Digit) && AllIn(f.yPos, Digit)
    && InClass(f.separator, Whitespace) && AllIn(f.read, Digit)
    && InClass(f.isFiltered, FilterFlag) && AllIn(f.controlNumber, Digit)
    && AllIn(f.indexSequence, Base)
  }

  /** The text a V2 match covers, followed by `rest`. */
  function LayoutV2(f: V2Fields, rest: string): string {
    Sep('@', f.instrument, Sep(':', f.runNumber, Sep(':', f.flowcellId,
    Sep(':', f.lane, Sep(':', f.tile, Sep(':', f.xPos, Sep(':', f.yPos,
    Sep(f.separator, f.read, Sep(':', [f.isFiltered],
    Sep(':', f.controlNumber, Sep(':', f.indexSequence, rest)))))))))))
  }

  /** `IlluminaSeqidV2.match(line)`. */
  function MatchV2(line: string): Option<V2Fields> {
    var instrument := Field(line, Exactly('@'), InstrumentChar);
    if instrument.None? then None else
    var runNumber := Field(instrument.value.rest, Exactly(':'), Digit);
    if runNumber.None? then None else
    var flowcellId := Field(runNumber.value.rest, Exactly(':'), AlphaNumeric);
    if flowcellId.None? then None else
    var lane := Field(flowcellId.value.rest, Exactly(':'), Digit);
    if lane.None? then None else
    var tile := Field(lane.value.rest, Exactly(':'), Digit);
    if tile.None? then None else
    var xPos := Field(tile.value.rest, Exactly(':'), Digit);
    if xPos.None? then None else
    var yPos := Field(xPos.value.rest, Exactly(':'), Digit);
    if yPos.None? then None else
    var read := Field(yPos.value.rest, Whitespace, Digit);
    if read.None? then None else
    var s := read.value.rest;
    if !(|s| >= 3 && s[0] == ':' && InClass(s[1], FilterFlag)) then None else
    var controlNumber := Field(s[2..], Exactly(':'), Digit);
    if controlNumber.None? then None else
    var indexSequence := Field(controlNumber.value.rest, Exactly(':'), Base);
    if indexSequence.None? then None else
    Some(V2Fields(
      instrument.value.group, runNumber.value.group, flowcellId.value.group,
      lane.value.group, tile.value.group, xPos.value.group, yPos.value.group,
      read.value.sep, read.value.group, s[1], controlNumber.value.group,
      indexSequence.value.group))
  }

  /** Folding the separator/group steps of a V2 scan back into one layout. */
  lemma LayoutV2Chain(line: string, f: V2Fields, s1: string, s2: string, s3: string,
                      s4: string, s5: string, s6: string, s7: string, s8: string,
                      s9: string, s10: string, rest: string)
    requires line == Sep('@', f.instrument, s1) && s1 == Sep(':', f.runNumber, s2)
    requires s2 == Sep(':', f.flowcellId, s3) && s3 == Sep(':', f.lane, s4)
    requires s4 == Sep(':', f.tile, s5) && s5 == Sep(':', f.xPos, s6)
    requires s6 == Sep(':', f.yPos, s7) && s7 == Sep(f.separator, f.read, s8)
    requires s8 == Sep(':', [f.isFiltered], s9) && s9 == Sep(':', f.controlNumber, s10)
    requires s10 == Sep(':', f.indexSequence, rest)
    ensures line == LayoutV2(f, rest)
  {
  }

  /** What a V2 match returns is well formed and is how the line begins;
      the index sequence is as long as it can be. */
  lemma MatchV2Sound(line: string)
    requires MatchV2(line).Some?
    ensures WellFormedV2(MatchV2(line).value)
    ensures exists rest :: line == LayoutV2(MatchV2(line).value, rest) && StopsRun(rest, Base)
  {
    var f := MatchV2(line).value;
    var instrument := Field(line, Exactly('@'), InstrumentChar).value;
    var runNumber := Field(instrument.rest, Exactly(':'), Digit).value;
    var flowcellId := Field(runNumber.rest, Exactly(':'), AlphaNumeric).value;
    var lane := Field(flowcellId.rest, Exactly(':'), Digit).value;
    var tile := Field(lane.rest, Exactly(':'), Digit).value;
    var xPos := Field(tile.rest, Exactly(':'), Digit).value;
    var yPos := Field(xPos.rest, Exactly(':'), Digit).value;
    var read := Field(yPos.rest, Whitespace, Digit).value;
    var s := read.rest;
    var controlNumber := Field(s[2..], Exactly(':'), Digit).value;
    var indexSequence := Field(controlNumber.rest, Exactly(':'), Base).value;
    assert f == V2Fields(
      instrument.group, runNumber.group, flowcellId.group,
      lane.group, tile.group, xPos.group, yPos.group,
      read.sep, read.group, s[1], controlNumber.group, indexSequence.group);
    SplitTwo(s);
    LayoutV2Chain(line, f, instrument.rest, runNumber.rest, flowcellId.rest, lane.rest,
      tile.rest, xPos.rest, yPos.rest, s, s[2..], controlNumber.rest, indexSequence.rest);
  }

  /** Every well-formed V2 identifier is read back field for field,
      whatever follows it, as long as that does not extend the index
      sequence. */
  lemma MatchV2Complete(f: V2Fields, rest: string)
    requires WellFormedV2(f) && StopsRun(rest, Base)
    ensures MatchV2(LayoutV2(f, rest)) == Some(f)
  {
    var t10 := Sep(':', f.indexSequence, rest);
    var t9 := Sep(':', f.controlNumber, t10);
    var t8 := Sep(':', [f.isFiltered], t9);
    var t7 := Sep(f.separator, f.read, t8);
    var t6 := Sep(':', f.yPos, t7);
    var t5 := Sep(':', f.xPos, t6);
    var t4 := Sep(':', f.tile, t5);
    var t3 := Sep(':', f.lane, t4);
    var t2 := Sep(':', f.flowcellId, t3);
    var t1 := Sep(':', f.runNumber, t2);
    FieldOf('@', f.instrument, t1, Exactly('@'), InstrumentChar);
    FieldOf(':', f.runNumber, t2, Exactly(':'), Digit);
    FieldOf(':', f.flowcellId, t3, Exactly(':'), AlphaNumeric);
    FieldOf(':', f.lane, t4, Exactly(':'), Digit);
    FieldOf(':', f.tile, t5, Exactly(':'), Digit);
    FieldOf(':', f.xPos, t6, Exactly(':'), Digit);
    FieldOf(':', f.yPos, t7, Exactly(':'), Digit);
    FieldOf(f.separator, f.read, t8, Whitespace, Digit);
    assert t8[2..] == t9;
    FieldOf(':', f.controlNumber, t10, Exactly(':'), Digit);
    FieldOf(':', f.indexSequence, rest, Exactly(':'), Base);
  }

  // ---------------------------------------------------------------------
  // IlluminaSeqidV1, tidyss/fastq.py:21:
  //   @instrument:lane:tile:x_pos:y_pos(#\d|[NACTG]*)/read

  /** The named groups of a V1 match. `read` is a single digit. */
  datatype V1Fields = V1Fields(
    instrument: string, lane: string, tile: string, xPos: string, yPos: string,
    indexNumber: string, read: char)

  /** The alternation `#\d|[NACTG]*`. */
  predicate WellFormedIndexNumber(w: string) {
    (|w| == 2 && w[0] == '#' && IsDigit(w[1])) || AllIn(w, Base)
  }

  predicate WellFormedV1(f: V1Fields) {
    && AllIn(f.instrument, InstrumentChar) && AllIn(f.lane, Digit)
    && AllIn(f.tile, Digit) && AllIn(f.xPos, Digit) && AllIn(f.yPos, Digit)
    && WellFormedIndexNumber(f.indexNumber) && IsDigit(f.read)
  }

  function LayoutV1(f: V1Fields, rest: string): string {
    Sep('@', f.instrument, Sep(':', f.lane, Sep(':', f.tile, Sep(':', f.xPos,
    Sep(':', f.yPos, f.indexNumber + Sep('/', [f.read], rest))))))
  }

  /** The alternation `(#\d|[NACTG]*)` followed by `\/`: the first
      alternative when the text starts with '#' and a digit, the second
      (possibly empty) otherwise. When the first alternative is followed by
      anything but '/', the second one matches the empty string in front
      of '#', which is not '/' either, so the choice made here loses no
      match. */
  function TakeIndexNumber(s: string): (r: (string, string))
    ensures r.0 + r.1 == s && WellFormedIndexNumber(r.0)
  {
    if |s| >= 2 && s[0] == '#' && IsDigit(s[1]) then (s[..2], s[2..])
    else TakeRun(s, Base)
  }

  /** `IlluminaSeqidV1.match(line)`. */
  function MatchV1(line: string): Option<V1Fields> {
    var instrument := Field(line, Exactly('@'), InstrumentChar);
    if instrument.None? then None else
    var lane := Field(instrument.value.rest, Exactly(':'), Digit);
    if lane.None? then None else
    var tile := Field(lane.value.rest, Exactly(':'), Digit);
    if tile.None? then None else
    var xPos := Field(tile.value.rest, Exactly(':'), Digit);
    if xPos.None? then None else
    var yPos := Field(xPos.value.rest, Exactly(':'), Digit);
    if yPos.None? then None else
    var (indexNumber, s) := TakeIndexNumber(yPos.value.rest);
    if !(|s| >= 2 && s[0] == '/' && IsDigit(s[1])) then None else
    Some(V1Fields(
      instrument.value.group, lane.value.group, tile.value.group,
      xPos.value.group, yPos.value.group, indexNumber, s[1]))
  }

  /** Folding the separator/group steps of a V1 scan back into one layout. */
  lemma LayoutV1Chain(line: string, f: V1Fields, s1: string, s2: string, s3: string,
                      s4: string, s5: string, s6: string, rest: string)
    requires line == Sep('@', f.instrument, s1) && s1 == Sep(':', f.lane, s2)
    requires s2 == Sep(':', f.tile, s3) && s3 == Sep(':', f.xPos, s4)
    requires s4 == Sep(':', f.yPos, s5) && s5 == f.indexNumber + s6
    requires s6 == Sep('/', [f.read], rest)
    ensures line == LayoutV1(f, rest)
  {
  }

  /** What a V1 match returns is well formed and is how the line begins. */
  lemma MatchV1Sound(line: string)
    requires MatchV1(line).Some?
    ensures WellFormedV1(MatchV1(line).value)
    ensures exists rest :: line == LayoutV1(MatchV1(line).value, rest)
  {
    var f := MatchV1(line).value;
    var instrument := Field(line, Exactly('@'), InstrumentChar).value;
    var lane := Field(instrument.rest, Exactly(':'), Digit).value;
    var tile := Field(lane.rest, Exactly(':'), Digit).value;
    var xPos := Field(tile.rest, Exactly(':'), Digit).value;
    var yPos := Field(xPos.rest, Exactly(':'), Digit).value;
    var (indexNumber, s) := TakeIndexNumber(yPos.rest);
    assert f == V1Fields(
      instrument.group, lane.group, tile.group, xPos.group, yPos.group, indexNumber, s[1]);
    SplitTwo(s);
    LayoutV1Chain(line, f, instrument.rest, lane.rest, tile.rest, xPos.rest, yPos.rest, s, s[2..]);
  }

  /** Every well-formed V1 identifier is read back field for field,
      whatever follows it. */
  lemma MatchV1Complete(f: V1Fields, rest: string)
    requires WellFormedV1(f)
    ensures MatchV1(LayoutV1(f, rest)) == Some(f)
  {
    var t6 := Sep('/', [f.read], rest);
    var t5 := f.indexNumber + t6;
    var t4 := Sep(':', f.yPos, t5);
    var t3 := Sep(':', f.xPos, t4);
    var t2 := Sep(':', f.tile, t3);
    var t1 := Sep(':', f.lane, t2);
    assert StopsRun(t5, Digit) by {
      if f.indexNumber == [] { assert t5[0] == '/'; } else { assert t5[0] == f.indexNumber[0]; }
    }
    FieldOf('@', f.instrument, t1, Exactly('@'), InstrumentChar);
    FieldOf(':', f.lane, t2, Exactly(':'), Digit);
    FieldOf(':', f.tile, t3, Exactly(':'), Digit);
    FieldOf(':', f.xPos, t4, Exactly(':'), Digit);
    FieldOf(':', f.yPos, t5, Exactly(':'), Digit);
    if |f.indexNumber| == 2 && f.indexNumber[0] == '#' && IsDigit(f.indexNumber[1]) {
      assert t5[..2] == f.indexNumber && t5[2..] == t6;
    } else {
      assert f.indexNumber == [] || t5[0] == f.indexNumber[0];
      TakeRunOf(f.indexNumber, t6, Base);
    }
    assert TakeIndexNumber(t5) == (f.indexNumber, t6);
  }

  // ---------------------------------------------------------------------
  // The registry `seqid_patterns` and the group dictionary the classifier
  // reads from a match.

  datatype SeqidPattern = IlluminaSeqidV2 | IlluminaSeqidV1

  /** `seqid_patterns`, tidyss/fastq.py:31, in order. */
  const SeqidPatterns: seq<SeqidPattern> := [IlluminaSeqidV2, IlluminaSeqidV1]

  /** `gd.get(...)` for the four groups the classifier reads; a group the
      pattern does not have reads as None. */
  datatype SeqidGroups = SeqidGroups(
    instrument: string, runNumber: Option<string>, flowcellId: Option<string>, lane: string)

  function MatchSeqid(p: SeqidPattern, line: string): (r: Option<SeqidGroups>)
    ensures p == IlluminaSeqidV1 ==> r.Some? == MatchV1(line).Some?
    ensures p == IlluminaSeqidV2 ==> r.Some? == MatchV2(line).Some?
    ensures r.Some? && p == IlluminaSeqidV1 ==> r.value.runNumber.None? && r.value.flowcellId.None?
    ensures r.Some? && p == IlluminaSeqidV2 ==> r.value.runNumber.Some? && r.value.flowcellId.Some?
  {
    match p
    case IlluminaSeqidV2 =>
      (match MatchV2(line)
       case None => None
       case Some(f) => Some(SeqidGroups(f.instrument, Some(f.runNumber), Some(f.flowcellId), f.lane)))
    case IlluminaSeqidV1 =>
      (match MatchV1(line)
       case None => None
       case Some(f) => Some(SeqidGroups(f.instrument, None, None, f.lane)))
  }

  /** The groups `MatchSeqid` reports are the fields of the underlying
      match: for V1 the instrument and lane, for V2 also the run number
      and flow-cell id. */
  lemma MatchSeqidGroups(line: string)
    ensures var r := MatchSeqid(IlluminaSeqidV1, line);
      r.Some? ==> r.value.instrument == MatchV1(line).value.instrument && r.value.lane == MatchV1(line).value.lane
    ensures var r := MatchSeqid(IlluminaSeqidV2, line);
      r.Some? ==>
        && r.value.instrument == MatchV2(line).value.instrument && r.value.lane == MatchV2(line).value.lane
        && r.value.runNumber == Some(MatchV2(line).value.runNumber)
        && r.value.flowcellId == Some(MatchV2(line).value.flowcellId)
  {
  }
}
