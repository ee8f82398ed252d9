/**
  `build_samples` (tidyss/fastq.py:140-157): the samples section of a
  samplesheet, folded from the classified files in order.

  `BuildSamples` is the loop; `SamplesOf` is a declarative description of
  its result (the distinct names in first-occurrence order, and for each
  name its distinct read groups, each with one slot per read number
  holding the last path seen with that read); `SamplesOfAppend` and its
  helpers say how one more file changes the description, which is what
  the loop invariant needs.
*/
module Samples {
  import opened Wrappers
  import opened Dicts
  import opened FastqModel

  /** A read-group list: slot k holds the path of read k + 1, or None. */
  type Slots = seq<Option<string>>

  /** `{'name': ..., 'readgroups': {...}}` */
  datatype Sample = Sample(name: string, readgroups: Dict<Slots>)

  // ---------------------------------------------------------------------
  // First-occurrence order

  /** The distinct elements of `s`, each where it first occurs. */
  function Dedup(s: seq<string>): (r: seq<string>)
    ensures Distinct(r)
    ensures forall x :: x in r <==> x in s
    ensures |r| <= |s|
  {
    if s == [] then []
    else
      var d := Dedup(s[..|s| - 1]);
      assert s == s[..|s| - 1] + [s[|s| - 1]];
      if s[|s| - 1] in d then d else d + [s[|s| - 1]]
  }

  /** The index of the first occurrence of `x` in `s`. */
  function FirstIndex(s: seq<string>, x: string): (i: nat)
    requires x in s
    ensures i < |s| && s[i] == x && forall j :: 0 <= j < i ==> s[j] != x
  {
    if s[0] == x then 0 else 1 + FirstIndex(s[1..], x)
  }

  lemma FirstIndexPrefix(s: seq<string>, t: seq<string>, x: string)
    requires x in s
    ensures FirstIndex(s + t, x) == FirstIndex(s, x)
  {
    var u := s + t;
    var i := FirstIndex(s, x);
    assert u[i] == x;
  }

  /** `Dedup` lists the distinct elements in the order of their first
      occurrences. */
  lemma {:induction false} DedupOrder(s: seq<string>)
    ensures forall i, j :: 0 <= i < j < |Dedup(s)| ==>
      FirstIndex(s, Dedup(s)[i]) < FirstIndex(s, Dedup(s)[j])
  {
    if s != [] {
      var init := s[..|s| - 1];
      var x := s[|s| - 1];
      assert s == init + [x];
      var d := Dedup(init);
      DedupOrder(init);
      forall y | y in d
        ensures FirstIndex(s, y) == FirstIndex(init, y) < |init|
      {
        FirstIndexPrefix(init, [x], y);
      }
      if x !in d {
        assert FirstIndex(s, x) == |init| by {
          assert s[|init|] == x;
        }
        assert Dedup(s) == d + [x];
        forall i, j | 0 <= i < j < |Dedup(s)|
          ensures FirstIndex(s, Dedup(s)[i]) < FirstIndex(s, Dedup(s)[j])
        {
          assert Dedup(s)[i] == d[i];
          if j < |d| {
            assert Dedup(s)[j] == d[j];
          }
        }
      }
    }
  }

  // ---------------------------------------------------------------------
  // What the files say about one (name, read group)

  predicate Matches(f: FastqRecord, name: string, readgroup: string) {
    f.name == name && f.readgroup == readgroup
  }

  /** The names of the files, in order. */
  function Names(fs: seq<FastqRecord>): (r: seq<string>)
    ensures |r| == |fs| && forall i :: 0 <= i < |fs| ==> r[i] == fs[i].name
  {
    if fs == [] then [] else Names(fs[..|fs| - 1]) + [fs[|fs| - 1].name]
  }

  /** The read groups of the files named `name`, in order. */
  function ReadgroupsOf(fs: seq<FastqRecord>, name: string): seq<string> {
    if fs == [] then []
    else
      var f := fs[|fs| - 1];
      ReadgroupsOf(fs[..|fs| - 1], name) + (if f.name == name then [f.readgroup] else [])
  }

  /** The number of slots: the largest read number of the matching files,
      and at least 1. */
  function SlotCount(fs: seq<FastqRecord>, name: string, readgroup: string): nat {
    if fs == [] then 1
    else
      var f := fs[|fs| - 1];
      var m := SlotCount(fs[..|fs| - 1], name, readgroup);
      if Matches(f, name, readgroup) && f.read > m then f.read else m
  }

  /** The path of the last matching file with read number `read`. */
  function LastPath(fs: seq<FastqRecord>, name: string, readgroup: string, read: int): Option<string> {
    if fs == [] then None
    else
      var f := fs[|fs| - 1];
      if Matches(f, name, readgroup) && f.read == read then Some(f.path)
      else LastPath(fs[..|fs| - 1], name, readgroup, read)
  }

  function SlotsOf(fs: seq<FastqRecord>, name: string, readgroup: string): Slots {
    seq(SlotCount(fs, name, readgroup), k => LastPath(fs, name, readgroup, k + 1))
  }

  /** A read group is listed exactly when some file has it with that name. */
  lemma {:induction false} ReadgroupsOfMembers(fs: seq<FastqRecord>, name: string)
    ensures forall rg :: rg in ReadgroupsOf(fs, name) <==> exists i :: 0 <= i < |fs| && Matches(fs[i], name, rg)
  {
    if fs != [] {
      var init := fs[..|fs| - 1];
      ReadgroupsOfMembers(init, name);
      assert forall i :: 0 <= i < |init| ==> fs[i] == init[i];
    }
  }

  /** The slot count is at least 1 and at least every matching read
      number, and it is 1 or one of them. */
  lemma {:induction false} SlotCountBounds(fs: seq<FastqRecord>, name: string, readgroup: string)
    ensures SlotCount(fs, name, readgroup) >= 1
    ensures forall i :: 0 <= i < |fs| && Matches(fs[i], name, readgroup) ==> fs[i].read <= SlotCount(fs, name, readgroup)
    ensures SlotCount(fs, name, readgroup) == 1
         || exists i :: 0 <= i < |fs| && Matches(fs[i], name, readgroup) && fs[i].read == SlotCount(fs, name, readgroup)
  {
    if fs != [] {
      var init := fs[..|fs| - 1];
      SlotCountBounds(init, name, readgroup);
      assert forall i :: 0 <= i < |init| ==> fs[i] == init[i];
    }
  }

  /** The slot of read `read` is filled exactly when some matching file
      has that read number, and then with the path of the last such file
      (later files overwrite earlier ones). */
  lemma {:induction false} LastPathIsLast(fs: seq<FastqRecord>, name: string, readgroup: string, read: int)
    ensures var r := LastPath(fs, name, readgroup, read);
      && (r.Some? <==> exists i :: 0 <= i < |fs| && Matches(fs[i], name, readgroup) && fs[i].read == read)
      && (r.Some? ==> exists i :: (0 <= i < |fs| && Matches(fs[i], name, readgroup) && fs[i].read == read
            && fs[i].path == r.value
            && forall j :: i < j < |fs| ==> !(Matches(fs[j], name, readgroup) && fs[j].read == read)))
  {
    if fs != [] {
      var init := fs[..|fs| - 1];
      var f := fs[|fs| - 1];
      LastPathIsLast(init, name, readgroup, read);
      assert forall i :: 0 <= i < |init| ==> fs[i] == init[i];
      if Matches(f, name, readgroup) && f.read == read {
        assert fs[|fs| - 1] == f;
      }
    }
  }

  /** No file has a read number beyond the slot count. */
  lemma LastPathBeyond(fs: seq<FastqRecord>, name: string, readgroup: string, read: int)
    requires read > SlotCount(fs, name, readgroup)
    ensures LastPath(fs, name, readgroup, read) == None
  {
    SlotCountBounds(fs, name, readgroup);
    LastPathIsLast(fs, name, readgroup, read);
  }

  function SampleOf(fs: seq<FastqRecord>, name: string): Sample {
    var rgs := ReadgroupsOf(fs, name);
    Sample(name, Dict(Dedup(rgs), map rg | rg in rgs :: SlotsOf(fs, name, rg)))
  }

  /** The samples section `build_samples` returns, described declaratively. */
  function SamplesOf(fs: seq<FastqRecord>): (r: Dict<Sample>)
    ensures |r.keys| <= |fs|
    ensures forall n :: n in r.entries ==> r.entries[n].name == n
  {
    var names := Names(fs);
    Dict(Dedup(names), map n | n in names :: SampleOf(fs, n))
  }

  // ---------------------------------------------------------------------
  // One more file

  /** `lst.append(None)` until `len(lst) >= read`. */
  function Pad(s: Slots, read: int): (r: Slots)
    ensures |r| == if |s| < read then read else |s|
    ensures r[..|s|] == s
    ensures forall k :: |s| <= k < |r| ==> r[k] == None
    decreases read - |s|
  {
    if |s| < read then Pad(s + [None], read) else s
  }

  lemma AppendPrefix(fs: seq<FastqRecord>, f: FastqRecord)
    ensures (fs + [f])[..|fs|] == fs && (fs + [f])[|fs|] == f && |fs + [f]| == |fs| + 1
  {
  }

  /** A file with another (name, read group) leaves the slots alone. */
  lemma SlotsOfOther(fs: seq<FastqRecord>, f: FastqRecord, name: string, readgroup: string)
    requires !Matches(f, name, readgroup)
    ensures SlotsOf(fs + [f], name, readgroup) == SlotsOf(fs, name, readgroup)
  {
    AppendPrefix(fs, f);
  }

  /** A file with this (name, read group) pads the list to its read number
      and puts its path in that slot. */
  lemma SlotsOfSame(fs: seq<FastqRecord>, f: FastqRecord)
    requires f.read >= 1
    ensures SlotsOf(fs + [f], f.name, f.readgroup)
         == Pad(SlotsOf(fs, f.name, f.readgroup), f.read)[f.read - 1 := Some(f.path)]
  {
    AppendPrefix(fs, f);
    var old_ := SlotsOf(fs, f.name, f.readgroup);
    var new_ := SlotsOf(fs + [f], f.name, f.readgroup);
    var padded := Pad(old_, f.read)[f.read - 1 := Some(f.path)];
    assert |new_| == |padded|;
    forall k | 0 <= k < |new_|
      ensures new_[k] == padded[k]
    {
      if k + 1 != f.read {
        assert new_[k] == LastPath(fs, f.name, f.readgroup, k + 1);
        if k < |old_| {
          assert Pad(old_, f.read)[..|old_|][k] == old_[k];
        } else {
          LastPathBeyond(fs, f.name, f.readgroup, k + 1);
        }
      }
    }
  }

  /** A read group no earlier file had starts as `[None]`. */
  lemma SlotsOfAbsent(fs: seq<FastqRecord>, name: string, readgroup: string)
    requires readgroup !in ReadgroupsOf(fs, name)
    ensures SlotsOf(fs, name, readgroup) == [None]
  {
    ReadgroupsOfMembers(fs, name);
    SlotCountBounds(fs, name, readgroup);
    LastPathIsLast(fs, name, readgroup, 1);
  }

  lemma DedupSnoc(s: seq<string>, x: string)
    ensures Dedup(s + [x]) == if x in s then Dedup(s) else Dedup(s) + [x]
  {
    assert (s + [x])[..|s|] == s;
  }

  lemma NamesSnoc(fs: seq<FastqRecord>, f: FastqRecord)
    ensures Names(fs + [f]) == Names(fs) + [f.name]
  {
    AppendPrefix(fs, f);
  }

  lemma ReadgroupsOfSnoc(fs: seq<FastqRecord>, f: FastqRecord, name: string)
    ensures ReadgroupsOf(fs + [f], name) == ReadgroupsOf(fs, name) + (if f.name == name then [f.readgroup] else [])
  {
    AppendPrefix(fs, f);
  }

  lemma SampleOfOther(fs: seq<FastqRecord>, f: FastqRecord, name: string)
    requires f.name != name
    ensures SampleOf(fs + [f], name) == SampleOf(fs, name)
  {
    var rgs := ReadgroupsOf(fs, name);
    ReadgroupsOfSnoc(fs, f, name);
    assert ReadgroupsOf(fs + [f], name) == rgs;
    forall rg | rg in rgs
      ensures SlotsOf(fs + [f], name, rg) == SlotsOf(fs, name, rg)
    {
      SlotsOfOther(fs, f, name, rg);
    }
  }

  lemma SampleOfSame(fs: seq<FastqRecord>, f: FastqRecord)
    ensures var s := SampleOf(fs, f.name);
      SampleOf(fs + [f], f.name) == s.(readgroups := s.readgroups.Put(f.readgroup, SlotsOf(fs + [f], f.name, f.readgroup)))
  {
    var n, x := f.name, f.readgroup;
    var rgs := ReadgroupsOf(fs, n);
    ReadgroupsOfSnoc(fs, f, n);
    DedupSnoc(rgs, x);
    var a := map rg | rg in rgs + [x] :: SlotsOf(fs + [f], n, rg);
    var b := map rg | rg in rgs :: SlotsOf(fs, n, rg);
    var c := b[x := SlotsOf(fs + [f], n, x)];
    assert a.Keys == c.Keys;
    forall rg | rg in a
      ensures a[rg] == c[rg]
    {
      if rg != x {
        SlotsOfOther(fs, f, n, rg);
      }
    }
    MapsEqual(a, c);
  }

  /** What one more file does to the samples section: its sample is
      created if new, and otherwise updated in place. */
  lemma SamplesOfAppend(fs: seq<FastqRecord>, f: FastqRecord)
    ensures SamplesOf(fs + [f]) == SamplesOf(fs).Put(f.name, SampleOf(fs + [f], f.name))
  {
    NamesSnoc(fs, f);
    DedupSnoc(Names(fs), f.name);
    SampleMapSnoc(fs, f);
  }

  lemma SampleMapSnoc(fs: seq<FastqRecord>, f: FastqRecord)
    ensures (map n | n in Names(fs) + [f.name] :: SampleOf(fs + [f], n))
         == (map n | n in Names(fs) :: SampleOf(fs, n))[f.name := SampleOf(fs + [f], f.name)]
  {
    var a := map n | n in Names(fs) + [f.name] :: SampleOf(fs + [f], n);
    var c := (map n | n in Names(fs) :: SampleOf(fs, n))[f.name := SampleOf(fs + [f], f.name)];
    forall n | n in a
      ensures a[n] == c[n]
    {
      if n != f.name {
        SampleOfOther(fs, f, n);
      }
    }
    MapsEqual(a, c);
  }

  /** A name no earlier file had starts as `{'name': name, 'readgroups': {}}`. */
  lemma SampleOfAbsent(fs: seq<FastqRecord>, name: string)
    requires name !in Names(fs)
    ensures SampleOf(fs, name) == Sample(name, Empty())
  {
    assert forall i :: 0 <= i < |fs| ==> fs[i].name == Names(fs)[i];
    ReadgroupsOfAbsent(fs, name);
  }

  lemma {:induction false} ReadgroupsOfAbsent(fs: seq<FastqRecord>, name: string)
    requires forall i :: 0 <= i < |fs| ==> fs[i].name != name
    ensures ReadgroupsOf(fs, name) == []
  {
    if fs != [] {
      ReadgroupsOfAbsent(fs[..|fs| - 1], name);
    }
  }

  // ---------------------------------------------------------------------
  // What the samples section holds

  /** The keys are exactly the distinct names, and each sample's `name`
      is its key. */
  lemma SamplesOfKeys(fs: seq<FastqRecord>)
    ensures SamplesOf(fs).Valid()
    ensures forall n :: n in SamplesOf(fs).entries <==> exists i :: 0 <= i < |fs| && fs[i].name == n
    ensures forall n :: n in SamplesOf(fs).entries ==> SamplesOf(fs).entries[n].name == n
  {
    forall n | n in Names(fs)
      ensures exists i :: 0 <= i < |fs| && fs[i].name == n
    {
      var i :| 0 <= i < |Names(fs)| && Names(fs)[i] == n;
      assert fs[i].name == n;
    }
  }

  /** The keys come in the order in which the names first occur. */
  lemma SamplesOfOrder(fs: seq<FastqRecord>)
    ensures forall i, j :: 0 <= i < j < |SamplesOf(fs).keys| ==>
      FirstIndex(Names(fs), SamplesOf(fs).keys[i]) < FirstIndex(Names(fs), SamplesOf(fs).keys[j])
  {
    DedupOrder(Names(fs));
  }

  /** A sample's read-group keys are exactly the distinct read groups of
      the files with its name, in first-occurrence order. */
  lemma SamplesOfReadgroups(fs: seq<FastqRecord>, name: string)
    requires name in SamplesOf(fs).entries
    ensures var rgs := SamplesOf(fs).entries[name].readgroups;
      && rgs.Valid()
      && (forall rg :: rg in rgs.entries <==> exists i :: 0 <= i < |fs| && Matches(fs[i], name, rg))
      && forall i, j :: 0 <= i < j < |rgs.keys| ==>
           FirstIndex(ReadgroupsOf(fs, name), rgs.keys[i]) < FirstIndex(ReadgroupsOf(fs, name), rgs.keys[j])
  {
    ReadgroupsOfMembers(fs, name);
    DedupOrder(ReadgroupsOf(fs, name));
  }

  /** A read-group list has max(1, largest read number) slots, and slot k
      holds the path of the last file with read number k + 1, or None
      when there is none. */
  lemma SamplesOfSlots(fs: seq<FastqRecord>, name: string, readgroup: string)
    requires name in SamplesOf(fs).entries && readgroup in SamplesOf(fs).entries[name].readgroups.entries
    ensures SlotsMeaning(fs, name, readgroup, SamplesOf(fs).entries[name].readgroups.entries[readgroup])
  {
    assert SamplesOf(fs).entries[name] == SampleOf(fs, name);
    SlotsOfMeaning(fs, name, readgroup);
  }

  /** `slots` has max(1, largest read number) slots, and slot k holds the
      path of the last file with read number k + 1, or None when there is
      none. */
  ghost predicate SlotsMeaning(fs: seq<FastqRecord>, name: string, readgroup: string, slots: Slots) {
    && |slots| >= 1
    && (forall i :: 0 <= i < |fs| && Matches(fs[i], name, readgroup) ==> fs[i].read <= |slots|)
    && (|slots| == 1 || exists i :: 0 <= i < |fs| && Matches(fs[i], name, readgroup) && fs[i].read == |slots|)
    && forall k :: 0 <= k < |slots| ==> SlotMeaning(fs, name, readgroup, k + 1, slots[k])
  }

  ghost predicate SlotMeaning(fs: seq<FastqRecord>, name: string, readgroup: string, read: int, slot: Option<string>) {
    && (slot.Some? <==> exists i :: 0 <= i < |fs| && Matches(fs[i], name, readgroup) && fs[i].read == read)
    && (slot.Some? ==> exists i :: (0 <= i < |fs| && Matches(fs[i], name, readgroup) && fs[i].read == read
          && fs[i].path == slot.value
          && forall j :: i < j < |fs| ==> !(Matches(fs[j], name, readgroup) && fs[j].read == read)))
  }

  lemma SlotsOfMeaning(fs: seq<FastqRecord>, name: string, readgroup: string)
    ensures SlotsMeaning(fs, name, readgroup, SlotsOf(fs, name, readgroup))
  {
    var slots := SlotsOf(fs, name, readgroup);
    SlotCountBounds(fs, name, readgroup);
    forall k | 0 <= k < |slots|
      ensures SlotMeaning(fs, name, readgroup, k + 1, slots[k])
    {
      LastPathIsLast(fs, name, readgroup, k + 1);
    }
  }

  /** Files classified by `Fastq` all have read 1, so every list has the
      single slot of the last such file. */
  lemma {:induction false} SlotsOfReadOne(fs: seq<FastqRecord>, name: string, readgroup: string)
    requires forall i :: 0 <= i < |fs| ==> fs[i].read == 1
    ensures SlotsOf(fs, name, readgroup) == [LastPath(fs, name, readgroup, 1)]
  {
    SlotCountBounds(fs, name, readgroup);
  }

  // ---------------------------------------------------------------------
  // The loop

  predicate ReadsPositive(fs: seq<FastqRecord>) {
    forall i :: 0 <= i < |fs| ==> fs[i].read >= 1
  }

  lemma TakeOneMore(fs: seq<FastqRecord>, i: nat)
    requires i < |fs|
    ensures fs[..i + 1] == fs[..i] + [fs[i]]
  {
  }

  /** The loop body in one step: the sample of the new file, with its
      read group's list padded and its slot filled. */
  lemma BuildStep(seen: seq<FastqRecord>, fastq: FastqRecord, padded: Slots)
    requires fastq.read >= 1
    requires padded == Pad(SlotsOf(seen, fastq.name, fastq.readgroup), fastq.read)
    ensures var s := SampleOf(seen, fastq.name);
      SamplesOf(seen + [fastq])
      == SamplesOf(seen).Put(fastq.name,
           s.(readgroups := s.readgroups.Put(fastq.readgroup, padded[fastq.read - 1 := Some(fastq.path)])))
  {
    SlotsOfSame(seen, fastq);
    SampleOfSame(seen, fastq);
    SamplesOfAppend(seen, fastq);
  }

  /** `while len(lst) < read: lst.append(None)` */
  method PadSlots(slots: Slots, read: int) returns (padded: Slots)
    ensures padded == Pad(slots, read) && |padded| >= read
  {
    padded := slots;
    while |padded| < read
      invariant |slots| <= |padded| <= if |slots| < read then read else |slots|
      invariant Pad(padded, read) == Pad(slots, read)
      decreases read - |padded|
    {
      padded := padded + [None];
    }
  }

  /** The loop body of `build_samples` for one file, on the samples built
      from the files before it. */
  method AddFastq(samples: Dict<Sample>, ghost seen: seq<FastqRecord>, fastq: FastqRecord)
    returns (after: Dict<Sample>)
    requires fastq.read >= 1
    requires samples == SamplesOf(seen)
    ensures after == SamplesOf(seen + [fastq])
  {
    var created := samples;
    if fastq.name !in created.entries {
      SampleOfAbsent(seen, fastq.name);
      created := created.Put(fastq.name, Sample(fastq.name, Empty()));
    }
    var sample := created.entries[fastq.name];
    assert sample == SampleOf(seen, fastq.name);
    var slots: Slots;
    if fastq.readgroup in sample.readgroups.entries {
      slots := sample.readgroups.entries[fastq.readgroup];
    } else {
      SlotsOfAbsent(seen, fastq.name, fastq.readgroup);
      slots := [None];
    }
    assert slots == SlotsOf(seen, fastq.name, fastq.readgroup);
    slots := PadSlots(slots, fastq.read);
    BuildStep(seen, fastq, slots);
    slots := slots[fastq.read - 1 := Some(fastq.path)];
    var updated := sample.(readgroups := sample.readgroups.Put(fastq.readgroup, slots));
    PutTwice(samples, fastq.name, Sample(fastq.name, Empty()), updated);
    after := created.Put(fastq.name, updated);
  }

  /** `build_samples(fastqs)`. The source assumes no read number is below
      1 (a slot index of `read - 1`). */
  method BuildSamples(fastqs: seq<FastqRecord>) returns (samples: Dict<Sample>)
    requires ReadsPositive(fastqs)
    ensures samples == SamplesOf(fastqs)
  {
    samples := Empty();
    assert fastqs[..0] == [];
    var i := 0;
    while i < |fastqs|
      invariant 0 <= i <= |fastqs|
      invariant samples == SamplesOf(fastqs[..i])
    {
      TakeOneMore(fastqs, i);
      samples := AddFastq(samples, fastqs[..i], fastqs[i]);
      i := i + 1;
    }
    assert fastqs[..i] == fastqs;
  }
}
