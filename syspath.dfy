/**
 * `clean_syspath`: the interpreter's module search path with the directories of
 * third-party and platform libraries removed.  The path list is an input.
 */
module SysPath {
  import opened Text

  /** A path `clean_syspath` drops: one ending in a library directory name. */
  predicate Excluded(p: string) {
    EndsWith(p, "site-packages") || EndsWith(p, "dist-packages") || EndsWith(p, "lib-old")
    || EndsWith(p, "lib-tk") || EndsWith(p, "gtk-2.0")
  }

  /** The paths kept, in their order. */
  function KeptPaths(paths: seq<string>): seq<string> {
    if paths == [] then []
    else
      var last := paths[|paths| - 1];
      KeptPaths(paths[..|paths| - 1]) + (if Excluded(last) then [] else [last])
  }

  /**
   * The input positions of the kept paths: increasing, so the result is a
   * subsequence of the input in the same order.
   */
  function KeptIndices(paths: seq<string>): (idx: seq<nat>)
    ensures |idx| == |KeptPaths(paths)|
    ensures forall j :: 0 <= j < |idx| ==> idx[j] < |paths| && paths[idx[j]] == KeptPaths(paths)[j]
    ensures forall j, k :: 0 <= j < k < |idx| ==> idx[j] < idx[k]
  {
    if paths == [] then []
    else
      var init, last := paths[..|paths| - 1], paths[|paths| - 1];
      KeptIndices(init) + (if Excluded(last) then [] else [|paths| - 1])
  }

  method CleanSyspath(sysPath: seq<string>) returns (result: seq<string>)
    ensures result == KeptPaths(sysPath)
  {
    result := [];
    for i := 0 to |sysPath|
      invariant result == KeptPaths(sysPath[..i])
    {
      assert sysPath[..i + 1][..i] == sysPath[..i];
      var p := sysPath[i];
      if EndsWith(p, "site-packages") {
        continue;
      }
      if EndsWith(p, "dist-packages") {
        continue;
      }
      if EndsWith(p, "lib-old") {
        continue;
      }
      if EndsWith(p, "lib-tk") {
        continue;
      }
      if EndsWith(p, "gtk-2.0") {
        continue;
      }
      result := result + [p];
    }
    assert sysPath[..|sysPath|] == sysPath;
  }

  /** A path is kept exactly when it is in the input and ends in none of the suffixes. */
  lemma {:induction false} KeptMembers(paths: seq<string>, p: string)
    ensures p in KeptPaths(paths) <==> p in paths && !Excluded(p)
  {
    if paths != [] {
      var init := paths[..|paths| - 1];
      KeptMembers(init, p);
      assert paths == init + [paths[|paths| - 1]];
    }
  }

  /** No kept path ends in an excluded suffix. */
  lemma NoneExcluded(paths: seq<string>)
    ensures forall i :: 0 <= i < |KeptPaths(paths)| ==> !Excluded(KeptPaths(paths)[i])
  {
    forall i | 0 <= i < |KeptPaths(paths)|
      ensures !Excluded(KeptPaths(paths)[i])
    {
      KeptMembers(paths, KeptPaths(paths)[i]);
    }
  }

  lemma {:induction false} KeptOfClean(paths: seq<string>)
    requires forall i :: 0 <= i < |paths| ==> !Excluded(paths[i])
    ensures KeptPaths(paths) == paths
  {
    if paths != [] {
      KeptOfClean(paths[..|paths| - 1]);
    }
  }

  /** Cleaning a cleaned path changes nothing. */
  lemma Idempotent(paths: seq<string>)
    ensures KeptPaths(KeptPaths(paths)) == KeptPaths(paths)
  {
    NoneExcluded(paths);
    KeptOfClean(KeptPaths(paths));
  }
}
