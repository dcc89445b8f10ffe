/** The numpy reductions the metrics are built from, over exact reals:
    `np.mean` (NaN on an empty array) and `np.nanmean` (NaN entries ignored,
    NaN when nothing is left). NaN is `None`. */
module Numeric {
  import opened Wrappers

  function Abs(x: real): real {
    if x < 0.0 then -x else x
  }

  function Sum(xs: seq<real>): real {
    if xs == [] then 0.0 else xs[0] + Sum(xs[1..])
  }

  /** `np.mean`: the arithmetic mean, undefined exactly on empty input. */
  function Mean(xs: seq<real>): (r: Option<real>)
    ensures r.None? <==> xs == []
  {
    if |xs| == 0 then None else Some(Sum(xs) / |xs| as real)
  }

  /** The defined entries of `xs`, in order. */
  function Defined(xs: seq<Option<real>>): (ys: seq<real>)
    ensures |ys| <= |xs|
  {
    if xs == [] then []
    else (if xs[0].Some? then [xs[0].value] else []) + Defined(xs[1..])
  }

  /** Nothing is kept exactly when no entry is defined. */
  lemma {:induction false} DefinedEmpty(xs: seq<Option<real>>)
    ensures Defined(xs) == [] <==> forall i :: 0 <= i < |xs| ==> xs[i].None?
  {
    if xs != [] {
      DefinedEmpty(xs[1..]);
      assert forall i :: 1 <= i < |xs| ==> xs[i] == xs[1..][i - 1];
    }
  }

  /** `np.nanmean`: the mean of the defined entries; undefined exactly when no entry is defined. */
  function NanMean(xs: seq<Option<real>>): (r: Option<real>)
    ensures r.None? <==> forall i :: 0 <= i < |xs| ==> xs[i].None?
  {
    DefinedEmpty(xs);
    Mean(Defined(xs))
  }

  function MapSeq<T, U>(f: T -> U, xs: seq<T>): seq<U> {
    seq(|xs|, i requires 0 <= i < |xs| => f(xs[i]))
  }

  /** Pairs up two equal-length sequences position by position. */
  function Zip(xs: seq<real>, ys: seq<real>): (zs: seq<(real, real)>)
    requires |xs| == |ys|
  {
    seq(|xs|, i requires 0 <= i < |xs| => (xs[i], ys[i]))
  }

  lemma {:induction false} SumConstant(c: real, xs: seq<real>)
    requires forall i :: 0 <= i < |xs| ==> xs[i] == c
    ensures Sum(xs) == |xs| as real * c
  {
    if xs != [] {
      SumConstant(c, xs[1..]);
    }
  }

  lemma {:induction false} SumConcat(xs: seq<real>, ys: seq<real>)
    ensures Sum(xs + ys) == Sum(xs) + Sum(ys)
  {
    if xs == [] {
      assert xs + ys == ys;
    } else {
      assert (xs + ys)[1..] == xs[1..] + ys;
      SumConcat(xs[1..], ys);
    }
  }

  lemma {:induction false} SumNonNegative(xs: seq<real>)
    requires forall i :: 0 <= i < |xs| ==> xs[i] >= 0.0
    ensures Sum(xs) >= 0.0
  {
    if xs != [] {
      SumNonNegative(xs[1..]);
    }
  }

  lemma {:induction false} SumZero(xs: seq<real>)
    requires forall i :: 0 <= i < |xs| ==> xs[i] == 0.0
    ensures Sum(xs) == 0.0
  {
    if xs != [] {
      SumZero(xs[1..]);
    }
  }

  /** A sum of non-negative terms is zero only if every term is. */
  lemma {:induction false} SumZeroOnlyIfAllZero(xs: seq<real>)
    requires forall i :: 0 <= i < |xs| ==> xs[i] >= 0.0
    requires Sum(xs) == 0.0
    ensures forall i :: 0 <= i < |xs| ==> xs[i] == 0.0
  {
    if xs != [] {
      SumNonNegative(xs[1..]);
      SumZeroOnlyIfAllZero(xs[1..]);
      assert forall i :: 1 <= i < |xs| ==> xs[i] == xs[1..][i - 1];
    }
  }

  lemma {:induction false} SumScale(c: real, xs: seq<real>)
    ensures Sum(MapSeq(x => c * x, xs)) == c * Sum(xs)
  {
    if xs != [] {
      assert MapSeq(x => c * x, xs)[1..] == MapSeq(x => c * x, xs[1..]);
      SumScale(c, xs[1..]);
    }
  }

  lemma MeanNonNegative(xs: seq<real>)
    requires forall i :: 0 <= i < |xs| ==> xs[i] >= 0.0
    ensures Mean(xs).Some? ==> Mean(xs).value >= 0.0
  {
    SumNonNegative(xs);
  }

  lemma MeanOfZeros(xs: seq<real>)
    requires xs != []
    requires forall i :: 0 <= i < |xs| ==> xs[i] == 0.0
    ensures Mean(xs) == Some(0.0)
  {
    SumZero(xs);
  }

  /** `np.mean` of a constant array is that constant. */
  lemma MeanOfConstant(c: real, xs: seq<real>)
    requires xs != []
    requires forall i :: 0 <= i < |xs| ==> xs[i] == c
    ensures Mean(xs) == Some(c)
  {
    SumConstant(c, xs);
    var n := |xs| as real;
    assert Sum(xs) == n * c;
    DivideProduct(n, c);
    assert Sum(xs) / n == c;
  }

  lemma DivideProduct(n: real, c: real)
    requires n > 0.0
    ensures (n * c) / n == c
  {
  }

  lemma DefinedNonNegative(xs: seq<Option<real>>)
    requires forall i :: 0 <= i < |xs| && xs[i].Some? ==> xs[i].value >= 0.0
    ensures forall k :: 0 <= k < |Defined(xs)| ==> Defined(xs)[k] >= 0.0
  {
    forall k | 0 <= k < |Defined(xs)| ensures Defined(xs)[k] >= 0.0 {
      DefinedFrom(xs, k);
    }
  }

  lemma {:induction false} DefinedConcat(xs: seq<Option<real>>, ys: seq<Option<real>>)
    ensures Defined(xs + ys) == Defined(xs) + Defined(ys)
  {
    if xs == [] {
      assert xs + ys == ys;
    } else {
      var h := if xs[0].Some? then [xs[0].value] else [];
      assert (xs + ys)[0] == xs[0];
      assert (xs + ys)[1..] == xs[1..] + ys;
      assert Defined(xs + ys) == h + Defined(xs[1..] + ys);
      assert Defined(xs) == h + Defined(xs[1..]);
      DefinedConcat(xs[1..], ys);
    }
  }

  /** Every entry of `Defined(xs)` comes from a defined entry of `xs`. */
  lemma {:induction false} DefinedFrom(xs: seq<Option<real>>, k: nat)
    requires k < |Defined(xs)|
    ensures exists i :: 0 <= i < |xs| && xs[i] == Some(Defined(xs)[k])
  {
    if xs[0].Some? && k == 0 {
      assert xs[0] == Some(Defined(xs)[0]);
    } else {
      var k' := if xs[0].Some? then k - 1 else k;
      assert Defined(xs)[k] == Defined(xs[1..])[k'];
      DefinedFrom(xs[1..], k');
      var i :| 0 <= i < |xs[1..]| && xs[1..][i] == Some(Defined(xs[1..])[k']);
      assert xs[i + 1] == Some(Defined(xs)[k]);
    }
  }

  /** The element `xs[0]` occurs in `ys` at some index `k`, and removing both leaves
      two sequences that are still permutations of each other. */
  lemma PermutationSplit<T>(xs: seq<T>, ys: seq<T>) returns (k: nat)
    requires xs != [] && multiset(xs) == multiset(ys)
    ensures k < |ys| && ys[k] == xs[0]
    ensures multiset(xs[1..]) == multiset(ys[..k] + ys[k + 1..])
  {
    MultisetRemove(xs, 0);
    assert xs[..0] + xs[1..] == xs[1..];
    k := IndexOf(ys, xs[0]);
    MultisetRemove(ys, k);
    MultisetCancel(multiset(xs[1..]), multiset(ys[..k] + ys[k + 1..]), xs[0]);
  }

  lemma IndexOf<T>(ys: seq<T>, x: T) returns (k: nat)
    requires x in multiset(ys)
    ensures k < |ys| && ys[k] == x
  {
    assert x in ys;
    var j :| 0 <= j < |ys| && ys[j] == x;
    k := j;
  }

  lemma MultisetCancel<T>(a: multiset<T>, b: multiset<T>, x: T)
    requires a + multiset{x} == b + multiset{x}
    ensures a == b
  {
    assert a == (a + multiset{x}) - multiset{x};
    assert b == (b + multiset{x}) - multiset{x};
  }

  /** Removing the element at `k` removes one occurrence of it. */
  lemma MultisetRemove<T>(ys: seq<T>, k: nat)
    requires k < |ys|
    ensures multiset(ys) == multiset(ys[..k] + ys[k + 1..]) + multiset{ys[k]}
  {
    assert ys == ys[..k] + [ys[k]] + ys[k + 1..];
  }

  /** Summation does not depend on order. */
  lemma {:induction false} SumPermutation(xs: seq<real>, ys: seq<real>)
    requires multiset(xs) == multiset(ys)
    ensures Sum(xs) == Sum(ys)
    decreases |xs|
  {
    if xs == [] {
      assert |ys| == |multiset(ys)| == 0;
    } else {
      var k := PermutationSplit(xs, ys);
      var rest := ys[..k] + ys[k + 1..];
      assert |rest| < |ys|;
      SumPermutation(xs[1..], rest);
      assert ys == ys[..k] + ([ys[k]] + ys[k + 1..]);
      SumConcat(ys[..k], [ys[k]] + ys[k + 1..]);
      assert ([ys[k]] + ys[k + 1..])[1..] == ys[k + 1..];
      SumConcat(ys[..k], ys[k + 1..]);
    }
  }

  /** Applying a function element-wise maps permutations to permutations. */
  lemma {:induction false} MapSeqPermutation<T, U>(f: T -> U, xs: seq<T>, ys: seq<T>)
    requires multiset(xs) == multiset(ys)
    ensures multiset(MapSeq(f, xs)) == multiset(MapSeq(f, ys))
    decreases |xs|
  {
    if xs == [] {
      assert |ys| == |multiset(ys)| == 0;
    } else {
      var k := PermutationSplit(xs, ys);
      var rest := ys[..k] + ys[k + 1..];
      assert |rest| < |ys|;
      MapSeqPermutation(f, xs[1..], rest);
      assert MapSeq(f, xs) == [f(xs[0])] + MapSeq(f, xs[1..]);
      assert MapSeq(f, ys) == MapSeq(f, ys[..k]) + [f(ys[k])] + MapSeq(f, ys[k + 1..]);
      assert MapSeq(f, rest) == MapSeq(f, ys[..k]) + MapSeq(f, ys[k + 1..]);
    }
  }

  /** Keeping the defined entries maps permutations to permutations. */
  lemma {:induction false} DefinedPermutation(xs: seq<Option<real>>, ys: seq<Option<real>>)
    requires multiset(xs) == multiset(ys)
    ensures multiset(Defined(xs)) == multiset(Defined(ys))
    decreases |xs|
  {
    if xs == [] {
      assert |ys| == |multiset(ys)| == 0;
    } else {
      var k := PermutationSplit(xs, ys);
      var rest := ys[..k] + ys[k + 1..];
      assert |rest| < |ys|;
      DefinedPermutation(xs[1..], rest);
      assert ys == ys[..k] + ([ys[k]] + ys[k + 1..]);
      DefinedConcat(ys[..k], [ys[k]] + ys[k + 1..]);
      assert ([ys[k]] + ys[k + 1..])[1..] == ys[k + 1..];
      DefinedConcat(ys[..k], ys[k + 1..]);
    }
  }

  /** `np.mean` does not depend on the order of its input. */
  lemma MeanPermutation(xs: seq<real>, ys: seq<real>)
    requires multiset(xs) == multiset(ys)
    ensures Mean(xs) == Mean(ys)
  {
    assert |xs| == |multiset(xs)| == |multiset(ys)| == |ys|;
    SumPermutation(xs, ys);
  }

  /** `np.nanmean` does not depend on the order of its input. */
  lemma NanMeanPermutation(xs: seq<Option<real>>, ys: seq<Option<real>>)
    requires multiset(xs) == multiset(ys)
    ensures NanMean(xs) == NanMean(ys)
  {
    DefinedPermutation(xs, ys);
    MeanPermutation(Defined(xs), Defined(ys));
  }
}
