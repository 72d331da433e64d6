/**
 * Appending to a list only the elements it does not hold yet: the idiom
 * `for y in ys: if y not in xs: xs.append(y)` and `xs.extend(y for y in ys if y not in xs)`
 * that the fact parsers use to keep lists free of duplicates.
 */
module Seqs {

  predicate NoDup<T(==)>(xs: seq<T>) {
    forall i, j :: 0 <= i < j < |xs| ==> xs[i] != xs[j]
  }

  /** xs with every element of ys that is not already there appended, in the order of ys. */
  function AppendMissing<T(==)>(xs: seq<T>, ys: seq<T>): (r: seq<T>)
    ensures forall i :: 0 <= i < |r| ==> r[i] in xs || r[i] in ys
    ensures forall i :: 0 <= i < |ys| ==> ys[i] in r
    ensures |xs| <= |r| && r[..|xs|] == xs
    decreases |ys|
  {
    if ys == [] then xs
    else
      var r0 := AppendMissing(xs, ys[..|ys| - 1]);
      var y := ys[|ys| - 1];
      if y in r0 then r0 else r0 + [y]
  }

  /** The elements of xs at their first occurrence, in order. */
  function FirstOccurrences<T(==)>(xs: seq<T>): seq<T>
    decreases |xs|
  {
    if xs == [] then []
    else
      var init := xs[..|xs| - 1];
      FirstOccurrences(init) + (if xs[|xs| - 1] in init then [] else [xs[|xs| - 1]])
  }

  /** The loop `for y in ys: if y not in r: r.append(y)`. */
  method ExtendMissing<T(==)>(xs: seq<T>, ys: seq<T>) returns (r: seq<T>)
    ensures r == AppendMissing(xs, ys)
  {
    r := xs;
    for i := 0 to |ys|
      invariant r == AppendMissing(xs, ys[..i])
    {
      assert ys[..i + 1][..i] == ys[..i];
      if ys[i] !in r {
        r := r + [ys[i]];
      }
    }
    assert ys[..|ys|] == ys;
  }

  /** Appending only missing elements keeps a list free of duplicates. */
  lemma {:induction false} AppendMissingNoDup<T>(xs: seq<T>, ys: seq<T>)
    requires NoDup(xs)
    ensures NoDup(AppendMissing(xs, ys))
    decreases |ys|
  {
    if ys != [] {
      AppendMissingNoDup(xs, ys[..|ys| - 1]);
    }
  }

  /** Starting from an empty list, the result is ys with later repetitions dropped. */
  lemma {:induction false} AppendMissingIsFirstOccurrences<T>(ys: seq<T>)
    ensures AppendMissing([], ys) == FirstOccurrences(ys)
    decreases |ys|
  {
    if ys != [] {
      AppendMissingIsFirstOccurrences(ys[..|ys| - 1]);
    }
  }

  /** Nothing is appended when every element of ys is already there (in particular when ys is xs). */
  lemma {:induction false} AppendPresent<T>(xs: seq<T>, ys: seq<T>)
    requires forall y :: y in ys ==> y in xs
    ensures AppendMissing(xs, ys) == xs
    decreases |ys|
  {
    if ys != [] {
      AppendPresent(xs, ys[..|ys| - 1]);
    }
  }

  /** Appending the missing elements of ys and then of zs is appending those of ys + zs. */
  lemma {:induction false} AppendMissingConcat<T>(xs: seq<T>, ys: seq<T>, zs: seq<T>)
    ensures AppendMissing(AppendMissing(xs, ys), zs) == AppendMissing(xs, ys + zs)
    decreases |zs|
  {
    if zs == [] {
      assert ys + zs == ys;
    } else {
      AppendMissingConcat(xs, ys, zs[..|zs| - 1]);
      assert (ys + zs)[..|ys + zs| - 1] == ys + zs[..|zs| - 1];
    }
  }
}
