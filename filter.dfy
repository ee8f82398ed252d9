/**
  `filter_paths` (tidyss/fastq.py:123-125). The user's `--filter` regex is
  given as the predicate `matches`, standing for `bool(filter.match(p))`.
*/
module PathFilter {

  /** The paths for which `matches` holds, in their original order. */
  function FilterPaths(paths: seq<string>, matches: string -> bool): (r: seq<string>)
    ensures |r| <= |paths|
  {
    if paths == [] then []
    else
      var p := paths[|paths| - 1];
      FilterPaths(paths[..|paths| - 1], matches) + (if matches(p) then [p] else [])
  }

  /** The positions of `paths` that `FilterPaths` keeps, in order. */
  function KeptIndices(paths: seq<string>, matches: string -> bool): seq<nat> {
    if paths == [] then []
    else
      var n := |paths| - 1;
      KeptIndices(paths[..n], matches) + (if matches(paths[n]) then [n] else [])
  }

  predicate Increasing(idx: seq<nat>) {
    forall a, b :: 0 <= a < b < |idx| ==> idx[a] < idx[b]
  }

  /** The result is the subsequence of `paths` at exactly the positions
      whose path matches. */
  lemma {:induction false} FilterPathsSubsequence(paths: seq<string>, matches: string -> bool)
    ensures var r, idx := FilterPaths(paths, matches), KeptIndices(paths, matches);
      && |idx| == |r|
      && Increasing(idx)
      && (forall k :: 0 <= k < |idx| ==> idx[k] < |paths| && r[k] == paths[idx[k]])
      && forall i :: 0 <= i < |paths| ==> (i in idx <==> matches(paths[i]))
  {
    if paths != [] {
      var n := |paths| - 1;
      var init := paths[..n];
      FilterPathsSubsequence(init, matches);
      var r0, idx0 := FilterPaths(init, matches), KeptIndices(init, matches);
      assert forall i :: 0 <= i < n ==> paths[i] == init[i];
      if matches(paths[n]) {
        var r, idx := r0 + [paths[n]], idx0 + [n];
        assert forall k :: 0 <= k < |idx0| ==> idx[k] == idx0[k] && r[k] == r0[k];
        assert idx[|idx0|] == n && r[|idx0|] == paths[n];
      } else {
        assert n !in idx0;
      }
    }
  }

  /** Filtering twice by the same pattern changes nothing more. */
  lemma {:induction false} FilterPathsIdempotent(paths: seq<string>, matches: string -> bool)
    ensures FilterPaths(FilterPaths(paths, matches), matches) == FilterPaths(paths, matches)
  {
    if paths != [] {
      var init := paths[..|paths| - 1];
      var p := paths[|paths| - 1];
      FilterPathsIdempotent(init, matches);
      var r0 := FilterPaths(init, matches);
      if matches(p) {
        var r := r0 + [p];
        assert FilterPaths(paths, matches) == r;
        assert r[..|r| - 1] == r0 && r[|r| - 1] == p;
        assert FilterPaths(r, matches) == FilterPaths(r0, matches) + [p];
      } else {
        assert FilterPaths(paths, matches) == r0 + [];
        assert r0 + [] == r0;
      }
    }
  }
}
