/**
 * Sum, minimum, maximum and mean of a non-empty column of values: the
 * `sum(xs) / len(xs)`, `min(xs)`, `max(xs)` of the upload view and the
 * `mean()`, `min()`, `max()` of the dataset summary. Values are reals; float
 * rounding is not modelled.
 */
module Stats {

  /** Average, minimum and maximum of one parameter. */
  datatype ParamStats = ParamStats(average: real, min: real, max: real)

  function Sum(xs: seq<real>): real {
    if xs == [] then 0.0 else xs[0] + Sum(xs[1..])
  }

  /** The smallest value; like Python's `min`, the first one on ties. */
  function MinOf(xs: seq<real>): (m: real)
    requires xs != []
    ensures m in xs
    ensures forall i :: 0 <= i < |xs| ==> m <= xs[i]
  {
    if |xs| == 1 then xs[0]
    else
      var m := MinOf(xs[1..]);
      assert forall i :: 1 <= i < |xs| ==> xs[i] == xs[1..][i - 1];
      if xs[0] <= m then xs[0] else m
  }

  /** The largest value; like Python's `max`, the first one on ties. */
  function MaxOf(xs: seq<real>): (m: real)
    requires xs != []
    ensures m in xs
    ensures forall i :: 0 <= i < |xs| ==> xs[i] <= m
  {
    if |xs| == 1 then xs[0]
    else
      var m := MaxOf(xs[1..]);
      assert forall i :: 1 <= i < |xs| ==> xs[i] == xs[1..][i - 1];
      if xs[0] >= m then xs[0] else m
  }

  lemma {:induction false} SumAppend(a: seq<real>, b: seq<real>)
    ensures Sum(a + b) == Sum(a) + Sum(b)
    decreases |a|
  {
    if a == [] {
      assert a + b == b;
    } else {
      assert (a + b)[1..] == a[1..] + b;
      SumAppend(a[1..], b);
    }
  }

  lemma MulSucc(n: real, c: real)
    ensures (n + 1.0) * c == n * c + c
  {
  }

  /** A lower bound of every value, times the count, bounds the sum from below. */
  lemma {:induction false} SumAtLeast(xs: seq<real>, lo: real)
    requires forall i :: 0 <= i < |xs| ==> lo <= xs[i]
    ensures |xs| as real * lo <= Sum(xs)
    decreases |xs|
  {
    if xs != [] {
      var t := xs[1..];
      assert forall i :: 0 <= i < |t| ==> t[i] == xs[i + 1];
      SumAtLeast(t, lo);
      MulSucc(|t| as real, lo);
    }
  }

  /** An upper bound of every value, times the count, bounds the sum from above. */
  lemma {:induction false} SumAtMost(xs: seq<real>, hi: real)
    requires forall i :: 0 <= i < |xs| ==> xs[i] <= hi
    ensures Sum(xs) <= |xs| as real * hi
    decreases |xs|
  {
    if xs != [] {
      var t := xs[1..];
      assert forall i :: 0 <= i < |t| ==> t[i] == xs[i + 1];
      SumAtMost(t, hi);
      MulSucc(|t| as real, hi);
    }
  }

  /** Dividing by a positive count keeps a value between the bounds that the count scales. */
  lemma DivideBetween(total: real, n: real, lo: real, hi: real)
    requires n > 0.0 && n * lo <= total <= n * hi
    ensures total / n * n == total
    ensures lo <= total / n <= hi
  {
    var q := total / n;
    assert q * n == total;
  }

  /** The mean of a non-empty column lies within any bounds of its values. */
  lemma MeanWithin(xs: seq<real>, lo: real, hi: real)
    requires xs != []
    requires forall i :: 0 <= i < |xs| ==> lo <= xs[i] <= hi
    ensures lo <= Sum(xs) / |xs| as real <= hi
  {
    SumAtLeast(xs, lo);
    SumAtMost(xs, hi);
    DivideBetween(Sum(xs), |xs| as real, lo, hi);
  }

  /**
   * The statistics of a non-empty column: the minimum and the maximum are
   * values of the column, every value lies between them, and the average,
   * the sum divided by the count, lies between them too.
   */
  function StatsOf(xs: seq<real>): (s: ParamStats)
    requires xs != []
    ensures s.min in xs && s.max in xs
    ensures forall i :: 0 <= i < |xs| ==> s.min <= xs[i] <= s.max
    ensures s.average == Sum(xs) / |xs| as real
    ensures s.min <= s.average <= s.max
  {
    var lo, hi := MinOf(xs), MaxOf(xs);
    MeanWithin(xs, lo, hi);
    ParamStats(Sum(xs) / |xs| as real, lo, hi)
  }

  /** The sum does not depend on the order of the values. */
  lemma {:induction false} SumPermutation(a: seq<real>, b: seq<real>)
    requires multiset(a) == multiset(b)
    ensures Sum(a) == Sum(b)
    decreases |a|
  {
    if a == [] {
      assert |b| == |multiset(b)| == 0;
    } else {
      var j :| 0 <= j < |b| && b[j] == a[0] by {
        assert a[0] in multiset(b);
      }
      var rest := b[..j] + b[j + 1..];
      assert b == b[..j] + [a[0]] + b[j + 1..];
      assert a == [a[0]] + a[1..];
      forall y ensures multiset(a[1..])[y] == multiset(rest)[y] {
        assert multiset(a)[y] == multiset(b)[y];
      }
      SumPermutation(a[1..], rest);
      SumAppend(b[..j] + [a[0]], b[j + 1..]);
      SumAppend(b[..j], [a[0]]);
      SumAppend(b[..j], b[j + 1..]);
      assert Sum([a[0]]) == a[0] by { assert [a[0]][1..] == []; }
    }
  }

  /** Minimum, maximum and mean do not depend on the order of the values. */
  lemma StatsPermutation(a: seq<real>, b: seq<real>)
    requires a != [] && multiset(a) == multiset(b)
    ensures b != [] && StatsOf(a) == StatsOf(b)
  {
    assert |a| == |multiset(a)| == |multiset(b)| == |b|;
    SumPermutation(a, b);
    var ma, mb := MinOf(a), MinOf(b);
    assert ma in multiset(b) && mb in multiset(a);
    var i :| 0 <= i < |b| && b[i] == ma;
    var k :| 0 <= k < |a| && a[k] == mb;
    assert ma <= a[k] && mb <= b[i];
    var xa, xb := MaxOf(a), MaxOf(b);
    assert xa in multiset(b) && xb in multiset(a);
    var i' :| 0 <= i' < |b| && b[i'] == xa;
    var k' :| 0 <= k' < |a| && a[k'] == xb;
    assert a[k'] <= xa && b[i'] <= xb;
  }
}
