/** Sequence helpers shared by the loader and the two aggregations: first
    occurrences (the key order of a Python dict), searching, and means. */
module Seqs {
  import opened Wrappers

  /** No element occurs twice in `s`. */
  predicate NoDuplicates<T(==)>(s: seq<T>)
  {
    forall i, j :: 0 <= i < j < |s| ==> s[i] != s[j]
  }

  /** The position of the first occurrence of `x` in `s`, as Python's
      `list.index` finds it; `None` where `list.index` raises. */
  function Find<T(==)>(s: seq<T>, x: T): (r: Option<nat>)
    ensures r.None? <==> x !in s
    ensures r.Some? ==> r.value < |s| && s[r.value] == x && x !in s[..r.value]
  {
    if s == [] then None
    else if s[0] == x then Some(0)
    else
      match Find(s[1..], x)
      case None => None
      case Some(k) =>
        assert s[1..][..k] == s[1..k + 1];
        Some(k + 1)
  }

  /** The elements of `s`, each once, in the order in which they first occur:
      the key order of a dict that is filled by walking `s`. */
  function Distinct<T(==, !new)>(s: seq<T>): (r: seq<T>)
    ensures NoDuplicates(r)
    ensures forall x :: x in r <==> x in s
  {
    if s == [] then []
    else
      var init := Distinct(s[..|s| - 1]);
      assert s == s[..|s| - 1] + [s[|s| - 1]];
      if s[|s| - 1] in init then init else init + [s[|s| - 1]]
  }

  /** Walking one more element adds it unless it was already seen. */
  lemma DistinctSnoc<T(!new)>(s: seq<T>, x: T)
    ensures Distinct(s + [x]) == if x in s then Distinct(s) else Distinct(s) + [x]
  {
    assert (s + [x])[..|s|] == s;
  }

  /** Walking `s` then `t` meets the first occurrences of `s` first. */
  lemma {:induction false} DistinctExtends<T(!new)>(s: seq<T>, t: seq<T>)
    ensures |Distinct(s)| <= |Distinct(s + t)|
    ensures Distinct(s + t)[..|Distinct(s)|] == Distinct(s)
    decreases |t|
  {
    if t == [] {
      assert s + t == s;
    } else {
      var u := s + t[..|t| - 1];
      DistinctExtends(s, t[..|t| - 1]);
      assert (s + t)[..|s + t| - 1] == u;
    }
  }

  /** The keys come out ordered by their first occurrence in `s`. */
  lemma {:induction false} DistinctFirstOccurrenceOrder<T(!new)>(s: seq<T>, i: nat, j: nat)
    requires i < j < |Distinct(s)|
    ensures Find(s, Distinct(s)[i]).value < Find(s, Distinct(s)[j]).value
    decreases |s|
  {
    var init := s[..|s| - 1];
    var last := s[|s| - 1];
    assert s == init + [last];
    FindPrefix(init, last, Distinct(s)[i]);
    if j < |Distinct(init)| {
      DistinctFirstOccurrenceOrder(init, i, j);
      FindPrefix(init, last, Distinct(s)[j]);
    } else {
      // the last key is `last`, met for the first time at the end of `s`
      assert last !in init;
      assert Distinct(s)[j] == last;
      assert Find(s, last).value == |init|;
    }
  }

  /** Appending to a sequence does not move the first occurrence of an element
      that was already there. */
  lemma {:induction false} FindPrefix<T>(s: seq<T>, y: T, x: T)
    requires x in s
    ensures Find(s + [y], x) == Find(s, x)
  {
    var k := Find(s, x).value;
    assert (s + [y])[k] == x;
    assert (s + [y])[..k] == s[..k];
  }

  /** The sum of a list of numbers, accumulated left to right. */
  function Sum(xs: seq<real>): real
  {
    if xs == [] then 0.0 else Sum(xs[..|xs| - 1]) + xs[|xs| - 1]
  }

  /** A prefix of a suffix is a middle slice. */
  lemma SliceOfSuffix<T>(s: seq<T>, a: nat, n: nat)
    requires a + n <= |s|
    ensures s[a..][..n] == s[a..a + n]
  {
  }

  lemma NothingBetween<T>(s: seq<T>, t: seq<T>)
    ensures s + [] + t == s + t
  {
  }

  lemma NothingBefore<T>(x: T, t: seq<T>)
    ensures [] + [x] + t == [x] + t && [] + t == t
  {
  }

  lemma AppendTakeSnoc<T>(a: seq<T>, s: seq<T>, i: nat)
    requires i < |s|
    ensures a + s[..i + 1] == (a + s[..i]) + [s[i]]
  {
  }

  lemma AppendSplit<T>(a: seq<T>, s: seq<T>, i: nat)
    requires i <= |s|
    ensures a + s == (a + s[..i]) + s[i..]
  {
  }

  lemma TakeAll<T>(s: seq<T>)
    ensures s[..|s|] == s
  {
  }

  lemma SumSnoc(xs: seq<real>, x: real)
    ensures Sum(xs + [x]) == Sum(xs) + x
  {
    assert (xs + [x])[..|xs|] == xs;
  }

  /** The source's `total / n if n else 0.0`: the arithmetic mean, or exactly
      zero for no values. */
  function MeanOrZero(xs: seq<real>): (r: real)
    ensures |xs| == 0 ==> r == 0.0
    ensures |xs| > 0 ==> r * (|xs| as real) == Sum(xs)
  {
    if |xs| == 0 then 0.0 else Sum(xs) / (|xs| as real)
  }
}
