/**
 * Occurrence counts of string keys in a dictionary: the `type_counts` loop of
 * the upload view and pandas' `value_counts()` in the dataset summary.
 */
module Tally {

  /** The counts after adding the keys one at a time, left to right. */
  function Histogram(keys: seq<string>): map<string, nat> {
    if keys == [] then map[]
    else Bump(Histogram(keys[..|keys| - 1]), keys[|keys| - 1])
  }

  /**
   * Each key that occurs maps to how often it occurs (so at least once), and
   * only keys that occur are present.
   */
  lemma {:induction false} HistogramCounts(keys: seq<string>)
    ensures forall k :: k in Histogram(keys) <==> k in keys
    ensures forall k :: k in Histogram(keys) ==> Histogram(keys)[k] == multiset(keys)[k] >= 1
    decreases |keys|
  {
    if keys != [] {
      var init, last := keys[..|keys| - 1], keys[|keys| - 1];
      assert keys == init + [last];
      HistogramCounts(init);
    }
  }

  /** One step of the count: `h[k] = h.get(k, 0) + 1`. */
  function Bump(h: map<string, nat>, k: string): map<string, nat> {
    h[k := (if k in h then h[k] else 0) + 1]
  }

  /** Counting one more key is one `Bump`. */
  lemma HistogramStep(keys: seq<string>, i: nat)
    requires i < |keys|
    ensures Histogram(keys[..i + 1]) == Bump(Histogram(keys[..i]), keys[i])
  {
    assert keys[..i + 1][..i] == keys[..i];
  }

  ghost function Pick(s: set<string>): string
    requires s != {}
  {
    var k :| k in s; k
  }

  /** The sum of the counts of a dictionary. */
  ghost function MapSum(m: map<string, nat>): nat
    decreases |m|
  {
    if m == map[] then 0
    else
      var k := Pick(m.Keys);
      m[k] + MapSum(m - {k})
  }

  /** The sum does not depend on which key is taken out first. */
  lemma {:induction false} MapSumRemove(m: map<string, nat>, k: string)
    requires k in m
    ensures MapSum(m) == m[k] + MapSum(m - {k})
    decreases |m|
  {
    var j := Pick(m.Keys);
    if j != k {
      MapSumRemove(m - {j}, k);
      MapSumRemove(m - {k}, j);
      assert m - {j} - {k} == m - {k} - {j};
    }
  }

  lemma BumpSum(h: map<string, nat>, k: string)
    ensures MapSum(Bump(h, k)) == MapSum(h) + 1
  {
    var b := Bump(h, k);
    MapSumRemove(b, k);
    if k in h {
      MapSumRemove(h, k);
      assert b - {k} == h - {k};
    } else {
      assert b - {k} == h;
    }
  }

  /** The counts add up to the number of keys. */
  lemma {:induction false} HistogramTotal(keys: seq<string>)
    ensures MapSum(Histogram(keys)) == |keys|
    decreases |keys|
  {
    if keys != [] {
      var init := keys[..|keys| - 1];
      HistogramTotal(init);
      BumpSum(Histogram(init), keys[|keys| - 1]);
    }
  }

  /** The counts depend only on which keys occur how often, not on their order. */
  lemma HistogramPermutation(a: seq<string>, b: seq<string>)
    requires multiset(a) == multiset(b)
    ensures Histogram(a) == Histogram(b)
  {
    var ha, hb := Histogram(a), Histogram(b);
    HistogramCounts(a);
    HistogramCounts(b);
    assert forall k :: k in a <==> k in multiset(b);
    assert ha.Keys == hb.Keys;
  }
}
