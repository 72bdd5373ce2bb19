/** Order-preserving filtering of lists (Array.prototype.filter) and the subsequence relation. */
module Seqs {

  /** `a` can be obtained from `b` by deleting elements, the rest keeping their order. */
  predicate IsSubsequence<T(==)>(a: seq<T>, b: seq<T>)
    decreases |b|
  {
    a == [] || (b != [] && ((a[0] == b[0] && IsSubsequence(a[1..], b[1..])) || IsSubsequence(a, b[1..])))
  }

  /** A subsequence is never longer than the list it comes from. */
  lemma {:induction false} SubsequenceLength<T>(a: seq<T>, b: seq<T>)
    requires IsSubsequence(a, b)
    ensures |a| <= |b|
    decreases |b|
  {
    if a != [] {
      if a[0] == b[0] && IsSubsequence(a[1..], b[1..]) {
        SubsequenceLength(a[1..], b[1..]);
      } else {
        SubsequenceLength(a, b[1..]);
      }
    }
  }

  /** The position of the first occurrence of `x` in `xs`. */
  function FirstIndex<T(==)>(xs: seq<T>, x: T): (k: nat)
    requires x in xs
    ensures k < |xs| && xs[k] == x && x !in xs[..k]
  {
    if xs[0] == x then 0
    else
      var k := FirstIndex(xs[1..], x);
      assert xs[..k + 1] == [xs[0]] + xs[1..][..k];
      k + 1
  }

  /** A position holding `x` with no `x` before it is the first occurrence. */
  lemma FirstIndexUnique<T>(xs: seq<T>, x: T, k: nat)
    requires k < |xs| && xs[k] == x && x !in xs[..k]
    ensures FirstIndex(xs, x) == k
  {
    var f := FirstIndex(xs, x);
    assert xs[..k] == xs[..k];
  }

  /** Inside a prefix that holds `x`, its first occurrence is where it is in the whole list. */
  lemma FirstIndexPrefix<T>(xs: seq<T>, n: nat, x: T)
    requires n <= |xs| && x in xs[..n]
    ensures FirstIndex(xs, x) == FirstIndex(xs[..n], x)
  {
    var k := FirstIndex(xs[..n], x);
    assert xs[..k] == xs[..n][..k];
    FirstIndexUnique(xs, x, k);
  }

  /** Array.prototype.filter. */
  function Filter<T(==)>(xs: seq<T>, keep: T -> bool): (r: seq<T>)
    ensures |r| <= |xs|
    ensures forall i :: 0 <= i < |r| ==> r[i] in xs && keep(r[i])
    ensures forall i :: 0 <= i < |xs| && keep(xs[i]) ==> xs[i] in r
    ensures IsSubsequence(r, xs)
  {
    if xs == [] then []
    else
      var rest := Filter(xs[1..], keep);
      assert xs == [xs[0]] + xs[1..];
      if keep(xs[0]) then
        assert ([xs[0]] + rest)[1..] == rest;
        [xs[0]] + rest
      else rest
  }

  /** Filtering with a weaker test keeps at least as many elements. */
  lemma {:induction false} FilterWeaker<T>(xs: seq<T>, strict: T -> bool, loose: T -> bool)
    requires forall i :: 0 <= i < |xs| && strict(xs[i]) ==> loose(xs[i])
    ensures |Filter(xs, strict)| <= |Filter(xs, loose)|
  {
    if xs != [] {
      FilterWeaker(xs[1..], strict, loose);
    }
  }

  /** Filtering with a test every element passes changes nothing. */
  lemma {:induction false} FilterAll<T>(xs: seq<T>, keep: T -> bool)
    requires forall i :: 0 <= i < |xs| ==> keep(xs[i])
    ensures Filter(xs, keep) == xs
  {
    if xs != [] {
      FilterAll(xs[1..], keep);
    }
  }

  /** Two tests that agree on every element filter alike. */
  lemma {:induction false} FilterSame<T>(xs: seq<T>, f: T -> bool, g: T -> bool)
    requires forall i :: 0 <= i < |xs| ==> f(xs[i]) == g(xs[i])
    ensures Filter(xs, f) == Filter(xs, g)
  {
    if xs != [] {
      FilterSame(xs[1..], f, g);
    }
  }

  /** Filtering a list extended by one element extends the filtered list by that element when it passes. */
  lemma {:induction false} FilterAppend<T>(xs: seq<T>, x: T, keep: T -> bool)
    ensures Filter(xs + [x], keep) == Filter(xs, keep) + (if keep(x) then [x] else [])
  {
    if xs == [] {
      assert [] + [x] == [x];
    } else {
      assert (xs + [x])[1..] == xs[1..] + [x];
      FilterAppend(xs[1..], x, keep);
    }
  }

  /** Extending the longer list by one element, and the shorter one by it or not, keeps the relation. */
  lemma {:induction false} SubsequenceAppend<T>(a: seq<T>, b: seq<T>, x: T, take: bool)
    requires IsSubsequence(a, b)
    ensures IsSubsequence(a + (if take then [x] else []), b + [x])
    decreases |b|
  {
    var a' := a + (if take then [x] else []);
    if b == [] {
      assert a == [];
      if take {
        assert a' == [x] && (b + [x])[1..] == [];
      }
    } else if a != [] && a[0] == b[0] && IsSubsequence(a[1..], b[1..]) {
      SubsequenceAppend(a[1..], b[1..], x, take);
      assert a'[1..] == a[1..] + (if take then [x] else []);
      assert (b + [x])[1..] == b[1..] + [x];
    } else if a == [] {
      if take {
        assert a' == [x];
        SubsequenceAppend([], b[1..], x, true);
        assert (b + [x])[1..] == b[1..] + [x];
      }
    } else {
      SubsequenceAppend(a, b[1..], x, take);
      assert (b + [x])[1..] == b[1..] + [x];
    }
  }
}
