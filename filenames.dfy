/**
  The filename side of tidyss: `os.path.basename`, the `FastqFilename`
  pattern `(?P<name>.*)(?P<extension>\.fastq|\.fastq\.gz|\.fq|fq\.gz)$`
  used both as the gate of `Fastq.__init__` and as the last entry of
  `filename_patterns`, written as a hand-made scanner.
*/
module FastqFilenames {
  import opened Wrappers

  predicate EndsWith(s: string, suffix: string) {
    |suffix| <= |s| && s[|s| - |suffix|..] == suffix
  }

  /** POSIX `os.path.basename`: what follows the last '/' of the path. */
  function Basename(path: string): (r: string)
    ensures EndsWith(path, r)
    ensures '/' !in r
    ensures |r| == |path| || path[|path| - |r| - 1] == '/'
  {
    if path == [] || path[|path| - 1] == '/' then []
    else
      var init := path[..|path| - 1];
      var r := Basename(init) + [path[|path| - 1]];
      assert path[|path| - |r|..] == init[|init| - |r| + 1..] + [path[|path| - 1]];
      r
  }

  /** The alternation of the pattern, in the order the regex tries it.
      The last alternative has no leading dot. */
  const Extensions: seq<string> := [".fastq", ".fastq.gz", ".fq", "fq.gz"]

  /** Reference reading of the gate: the name ends in one of the four. */
  predicate HasFastqExtension(filename: string) {
    || EndsWith(filename, ".fastq")
    || EndsWith(filename, ".fastq.gz")
    || EndsWith(filename, ".fq")
    || EndsWith(filename, "fq.gz")
  }

  /** The two named groups of a successful `FastqFilename.match`. */
  datatype FilenameMatch = FilenameMatch(name: string, extension: string)

  /** Some suffix of `s` is an extension exactly when `s` ends in one. */
  lemma ExtensionSuffix(s: string)
    ensures (exists j :: 0 <= j <= |s| && s[j..] in Extensions) <==> HasFastqExtension(s)
  {
    if EndsWith(s, ".fastq") {
      assert s[|s| - 6..] in Extensions;
    } else if EndsWith(s, ".fastq.gz") {
      assert s[|s| - 9..] in Extensions;
    } else if EndsWith(s, ".fq") {
      assert s[|s| - 3..] in Extensions;
    } else if EndsWith(s, "fq.gz") {
      assert s[|s| - 5..] in Extensions;
    }
  }

  /** The regex engine's search: the greedy `.*` first takes all of the
      name, then gives back one character at a time until the rest of
      the name is exactly one of the extensions (the `$`). */
  function SplitFrom(s: string, k: nat): (r: Option<FilenameMatch>)
    requires k <= |s|
    ensures r.Some? <==> exists j :: 0 <= j <= k && s[j..] in Extensions
    ensures r.Some? ==> |r.value.name| <= k && r.value.name + r.value.extension == s
    ensures r.Some? ==> r.value.extension in Extensions && r.value.extension == s[|r.value.name|..]
    ensures r.Some? ==> forall j :: |r.value.name| < j <= k ==> s[j..] !in Extensions
    decreases k
  {
    if s[k..] in Extensions then Some(FilenameMatch(s[..k], s[k..]))
    else if k == 0 then None
    else SplitFrom(s, k - 1)
  }

  /** `FastqFilename.match(filename)`: it succeeds exactly when the name
      ends in a recognised extension, and `name` is then the longest
      prefix whose remainder is one of the extensions. */
  function MatchFastqFilename(filename: string): (r: Option<FilenameMatch>)
    ensures r.Some? <==> HasFastqExtension(filename)
    ensures r.Some? ==> r.value.name + r.value.extension == filename && r.value.extension in Extensions
    ensures r.Some? ==> forall k :: |r.value.name| < k <= |filename| ==> filename[k..] !in Extensions
  {
    ExtensionSuffix(filename);
    SplitFrom(filename, |filename|)
  }

  /** No extension is a proper suffix of another. */
  lemma ExtensionsSuffixFree()
    ensures forall e, f :: e in Extensions && f in Extensions && |f| < |e| ==> !EndsWith(e, f)
  {
  }

  /** A name that ends in an extension at position k is split there, and
      nowhere else. */
  lemma MatchSplitsAt(s: string, k: nat)
    requires k <= |s| && s[k..] in Extensions
    ensures MatchFastqFilename(s) == Some(FilenameMatch(s[..k], s[k..]))
  {
    ExtensionSuffix(s);
    var m := MatchFastqFilename(s).value;
    var n := |m.name|;
    assert m.name == s[..n] && m.extension == s[n..];
    if n > k {
      ExtensionsSuffixFree();
      assert s[k..][n - k..] == s[n..];
      assert EndsWith(s[k..], s[n..]);
    }
  }

  /** With no leading dot on the last alternative, "x.fq.gz" is split
      as "x." and "fq.gz" ... */
  lemma DottedGzSplit()
    ensures MatchFastqFilename("x.fq.gz") == Some(FilenameMatch("x.", "fq.gz"))
  {
    var s := "x.fq.gz";
    assert s[2..] == "fq.gz" && s[..2] == "x.";
    MatchSplitsAt(s, 2);
  }

  /** ... and "xfq.gz" passes the gate. */
  lemma DotlessGzAccepted()
    ensures MatchFastqFilename("xfq.gz") == Some(FilenameMatch("x", "fq.gz"))
  {
    var t := "xfq.gz";
    assert t[1..] == "fq.gz" && t[..1] == "x";
    MatchSplitsAt(t, 1);
  }

  /** A name that ends in none of the four fails the gate. */
  lemma OtherExtensionRejected()
    ensures MatchFastqFilename("x.fq.bz2").None?
  {
    var u := "x.fq.bz2";
    assert u[|u| - 3..] == "bz2";
    assert u[|u| - 5..] == "q.bz2";
  }
}
