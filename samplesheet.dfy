/**
  The samplesheet document: choosing a serializer or loader by format name
  (`print_samplesheet`, `load_samplesheet`, tidyss/fastq.py:160-181) and the
  append-merge at the end of `discover` (tidyss/fastq.py:246-256).

  The serializers and loaders themselves (`json.dumps`, `yaml.dump`,
  `json.load`, `yaml.load`) are parameters: `render` and `load`.
*/
module Samplesheets {
  import opened Wrappers
  import opened Dicts
  import opened Samples
  import opened FastqModel

  /** A JSON/YAML document as the loaders return it. */
  datatype Value =
    | Null
    | Bool(b: bool)
    | Int(i: int)
    | Str(s: string)
    | List(items: seq<Value>)
    | Object(fields: Dict<Value>)

  datatype Codec = Json | Yaml

  datatype SamplesheetError =
    | UnsupportedFormat(format: string)  // the ValueError of lines 166 and 178
    | LoadFailed(path: string)           // whatever the loader raised
    | TypeError                          // `in` or `[...] =` on a document that is no dict

  // ---------------------------------------------------------------------
  // The samples section as a document

  function SlotValue(slot: Option<string>): Value {
    if slot.Some? then Str(slot.value) else Null
  }

  function SlotsValue(slots: Slots): (v: Value)
    ensures v.List? && |v.items| == |slots|
    ensures forall k :: 0 <= k < |slots| ==> v.items[k] == SlotValue(slots[k])
  {
    List(seq(|slots|, k requires 0 <= k < |slots| => SlotValue(slots[k])))
  }

  function SampleValue(s: Sample): (v: Value)
    ensures v.Object? && v.fields.keys == ["name", "readgroups"]
    ensures v.fields.entries.Keys == {"name", "readgroups"} && v.fields.entries["name"] == Str(s.name)
    ensures var rgs := v.fields.entries["readgroups"];
      && rgs.Object? && rgs.fields.keys == s.readgroups.keys
      && rgs.fields.entries.Keys == s.readgroups.entries.Keys
      && forall rg :: rg in s.readgroups.entries ==> rgs.fields.entries[rg] == SlotsValue(s.readgroups.entries[rg])
  {
    var rgs := s.readgroups;
    Object(Dict(["name", "readgroups"], map[
      "name" := Str(s.name),
      "readgroups" := Object(Dict(rgs.keys, map rg | rg in rgs.entries :: SlotsValue(rgs.entries[rg])))]))
  }

  /** `build_samples`' result as the dict that goes into the document. */
  function SamplesValue(samples: Dict<Sample>): (v: Value)
    ensures v.Object? && v.fields.keys == samples.keys && v.fields.entries.Keys == samples.entries.Keys
    ensures forall n :: n in samples.entries ==> v.fields.entries[n] == SampleValue(samples.entries[n])
  {
    Object(Dict(samples.keys, map n | n in samples.entries :: SampleValue(samples.entries[n])))
  }

  // ---------------------------------------------------------------------
  // Format dispatch

  /** The serializer `print_samplesheet` picks. */
  function PrintCodec(format: string): (r: Option<Codec>)
    ensures r.Some? <==> format == "json" || format == "yaml"
    ensures r == Some(Json) <==> format == "json"
  {
    if format == "json" then Some(Json)
    else if format == "yaml" then Some(Yaml)
    else None
  }

  /** The loader `load_samplesheet` picks (it tests "yaml" first). */
  function LoadCodec(format: string): (r: Option<Codec>)
    ensures r.Some? <==> format == "json" || format == "yaml"
    ensures r == Some(Yaml) <==> format == "yaml"
  {
    if format == "yaml" then Some(Yaml)
    else if format == "json" then Some(Json)
    else None
  }

  /** Both accept the same two names and map each to the same codec. */
  lemma CodecsAgree(format: string)
    ensures PrintCodec(format) == LoadCodec(format)
  {
  }

  /** `load_samplesheet(path, format)`; `load(c, path)` is the loader's
      result, None where it raises. */
  function LoadSamplesheet(path: string, format: string, load: (Codec, string) -> Option<Value>)
    : (r: Result<Value, SamplesheetError>)
    ensures LoadCodec(format).None? ==> r == Failure(UnsupportedFormat(format))
    ensures LoadCodec(format).Some? && load(LoadCodec(format).value, path).Some? ==>
      r == Success(load(LoadCodec(format).value, path).value)
    ensures LoadCodec(format).Some? && load(LoadCodec(format).value, path).None? ==>
      r == Failure(LoadFailed(path))
  {
    match LoadCodec(format)
    case None => Failure(UnsupportedFormat(format))
    case Some(c) =>
      match load(c, path)
      case None => Failure(LoadFailed(path))
      case Some(doc) => Success(doc)
  }

  /** An unsupported format is rejected before the loader runs: what the
      loader would do makes no difference. */
  lemma LoadRejectsFirst(path: string, format: string, load: (Codec, string) -> Option<Value>,
                         other: (Codec, string) -> Option<Value>)
    requires format != "json" && format != "yaml"
    ensures LoadSamplesheet(path, format, load) == LoadSamplesheet(path, format, other)
    ensures LoadSamplesheet(path, format, load) == Failure(UnsupportedFormat(format))
  {
  }

  /** An output file: what has been written to it, and whether it is
      closed. */
  class Output {
    var written: string
    var closed: bool

    constructor ()
      ensures written == [] && !closed
    {
      written := [];
      closed := false;
    }

    /** `fp.write(text)` */
    method Write(text: string)
      modifies this
      requires !closed
      ensures written == old(written) + text && closed == old(closed)
    {
      written := written + text;
    }

    /** `fp.close()` */
    method Close()
      modifies this
      ensures closed && written == old(written)
    {
      closed := true;
    }
  }

  /** `print_samplesheet(doc, fp, format)`; `render(c, doc)` is the text
      the serializer produces. An unsupported format raises before
      anything is written and leaves the file open. */
  method PrintSamplesheet(doc: Value, fp: Output, format: string, render: (Codec, Value) -> string)
    returns (err: Option<SamplesheetError>)
    modifies fp
    requires !fp.closed
    ensures err.Some? <==> format != "json" && format != "yaml"
    ensures err.Some? ==> (err.value == UnsupportedFormat(format) && fp.written == old(fp.written) && !fp.closed)
    ensures err.None? ==> fp.written == old(fp.written) + render(PrintCodec(format).value, doc) && fp.closed
  {
    var codec: Codec;
    if format == "json" {
      codec := Json;
    } else if format == "yaml" {
      codec := Yaml;
    } else {
      return Some(UnsupportedFormat(format));
    }
    fp.Write(render(codec, doc));
    fp.Close();
    err := None;
  }

  // ---------------------------------------------------------------------
  // The append-merge

  predicate OccursAt(sub: string, s: string, i: int) {
    0 <= i && i + |sub| <= |s| && s[i..i + |sub|] == sub
  }

  /** `sub in s` for strings. */
  predicate IsSubstring(sub: string, s: string) {
    exists i :: 0 <= i <= |s| - |sub| && OccursAt(sub, s, i)
  }

  /** `'samples' in doc`: a key of a dict, an item of a list, a substring
      of a string; any other document raises TypeError. */
  function HasSamples(doc: Value): (r: Result<bool, SamplesheetError>)
    ensures r.Success? <==> doc.Object? || doc.List? || doc.Str?
    ensures r.Failure? ==> r.error == TypeError
    ensures doc.Object? ==> r == Success("samples" in doc.fields.entries)
    ensures doc.Str? && r.value ==> |doc.s| >= |"samples"|
  {
    match doc
    case Object(d) => Success("samples" in d.entries)
    case List(items) => Success(Str("samples") in items)
    case Str(s) => Success(IsSubstring("samples", s))
    case _ => Failure(TypeError)
  }

  /** For a string document `in` is a substring test, so a file name that
      merely mentions samples counts as holding them. */
  lemma HasSamplesInString()
    ensures HasSamples(Str("my_samples.yaml")) == Success(true)
    ensures HasSamples(Str("sample")) == Success(false)
    ensures HasSamples(List([Str("samples")])) == Success(true)
    ensures HasSamples(Int(7)) == Failure(TypeError)
  {
    var s := "my_samples.yaml";
    assert OccursAt("samples", s, 3);
  }

  /** `if 'samples' not in doc: doc['samples'] = samples`, the document
      afterwards. Only a dict supports the assignment. */
  function MergeSamples(doc: Value, samples: Value): (r: Result<Value, SamplesheetError>)
    ensures doc.Object? && "samples" in doc.fields.entries ==> r == Success(doc)
    ensures doc.Object? && "samples" !in doc.fields.entries ==>
      && r.Success? && r.value.Object?
      && r.value.fields.keys == doc.fields.keys + ["samples"]
      && r.value.fields.entries == doc.fields.entries["samples" := samples]
    ensures r.Success? <==> HasSamples(doc) == Success(true) || doc.Object?
    ensures r.Success? && !doc.Object? ==> r == Success(doc)
  {
    match HasSamples(doc)
    case Failure(e) => Failure(e)
    case Success(present) =>
      if present then Success(doc)
      else if doc.Object? then Success(Object(doc.fields.Put("samples", samples)))
      else Failure(TypeError)
  }

  /** The merge never touches a key other than "samples". */
  lemma MergeKeepsOtherKeys(doc: Value, samples: Value, k: string)
    requires doc.Object? && k != "samples"
    ensures MergeSamples(doc, samples).Success? && MergeSamples(doc, samples).value.Object?
    ensures var after := MergeSamples(doc, samples).value.fields;
      (k in after.entries <==> k in doc.fields.entries)
      && (k in doc.fields.entries ==> after.entries[k] == doc.fields.entries[k])
  {
  }

  /** After a successful merge into a dict, "samples" is present, and a
      second merge changes nothing. */
  lemma MergeIdempotent(doc: Value, samples: Value, again: Value)
    requires doc.Object?
    ensures var r := MergeSamples(doc, samples);
      && r.Success? && r.value.Object? && "samples" in r.value.fields.entries
      && MergeSamples(r.value, again) == r
  {
  }

  /** The document the command prints, before serializing: the loaded
      samplesheet merged with the new samples when `--append` names a
      file (an empty name counts as none), else `{'samples': samples}`. */
  function SamplesheetFor(samples: Value, append: Option<string>, loader: string,
                          load: (Codec, string) -> Option<Value>): (r: Result<Value, SamplesheetError>)
    ensures append.None? || append.value == "" ==> r == Success(Object(Singleton("samples", samples)))
  {
    if append.Some? && append.value != "" then
      match LoadSamplesheet(append.value, loader, load)
      case Failure(e) => Failure(e)
      case Success(doc) => MergeSamples(doc, samples)
    else Success(Object(Singleton("samples", samples)))
  }

  /** With `--append`, a samplesheet that already holds "samples" is printed
      as loaded (the new samples are dropped); one that lacks it gains the
      new samples under that key, after its own keys; a failed load is the
      result. */
  lemma SamplesheetForAppend(samples: Value, file: string, loader: string,
                             load: (Codec, string) -> Option<Value>)
    requires file != ""
    ensures var loaded, r := LoadSamplesheet(file, loader, load), SamplesheetFor(samples, Some(file), loader, load);
      && (loaded.Failure? ==> r == Failure(loaded.error))
      && (loaded.Success? && loaded.value.Object? && "samples" in loaded.value.fields.entries ==>
            r == loaded)
      && (loaded.Success? && loaded.value.Object? && "samples" !in loaded.value.fields.entries ==>
            && r.Success? && r.value.Object?
            && r.value.fields.keys == loaded.value.fields.keys + ["samples"]
            && r.value.fields.entries == loaded.value.fields.entries["samples" := samples])
      && (loaded.Success? && !loaded.value.Object? && !loaded.value.List? && !loaded.value.Str? ==>
            r == Failure(TypeError))
  {
  }

  /** Lines 246-256 of `discover`: build the samples, form the document,
      and print it. */
  method WriteSamplesheet(fastqs: seq<FastqRecord>, append: Option<string>, loader: string, format: string,
                          fp: Output, load: (Codec, string) -> Option<Value>, render: (Codec, Value) -> string)
    returns (err: Option<SamplesheetError>)
    modifies fp
    requires ReadsPositive(fastqs)
    requires !fp.closed
    ensures var doc := SamplesheetFor(SamplesValue(SamplesOf(fastqs)), append, loader, load);
      && (doc.Failure? ==> err == Some(doc.error) && fp.written == old(fp.written) && !fp.closed)
      && (doc.Success? && PrintCodec(format).None? ==>
            err == Some(UnsupportedFormat(format)) && fp.written == old(fp.written) && !fp.closed)
      && (doc.Success? && PrintCodec(format).Some? ==>
            err.None? && fp.written == old(fp.written) + render(PrintCodec(format).value, doc.value) && fp.closed)
  {
    var samples := BuildSamples(fastqs);
    var samplesheet: Value;
    if append.Some? && append.value != "" {
      var loaded := LoadSamplesheet(append.value, loader, load);
      if loaded.Failure? {
        return Some(loaded.error);
      }
      samplesheet := loaded.value;
      var present := HasSamples(samplesheet);
      if present.Failure? {
        return Some(present.error);
      }
      if !present.value {
        if !samplesheet.Object? {
          return Some(TypeError);
        }
        samplesheet := Object(samplesheet.fields.Put("samples", SamplesValue(samples)));
      }
    } else {
      samplesheet := Object(Singleton("samples", SamplesValue(samples)));
    }
    err := PrintSamplesheet(samplesheet, fp, format, render);
  }
}
