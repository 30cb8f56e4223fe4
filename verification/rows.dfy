/**
 * One parsed CSV row of an equipment upload, and the column extractions that
 * the aggregation code performs on a list of rows.
 */
module Rows {
  import opened Wrappers

  /**
   * A row after CSV parsing. A numeric cell is `None` when it is blank, its
   * column is absent or the row is cut short (the cases in which
   * `row.get('Flowrate')` is falsy);
   * `kind` is the Type cell, `None` when the row has no Type column or is cut short.
   */
  datatype Row = Row(
    name: Option<string>,
    kind: Option<string>,
    flowrate: Option<real>,
    pressure: Option<real>,
    temperature: Option<real>)

  /** The three numeric parameters that get statistics. */
  datatype Param = Flowrate | Pressure | Temperature

  function Field(r: Row, p: Param): Option<real> {
    match p
    case Flowrate => r.flowrate
    case Pressure => r.pressure
    case Temperature => r.temperature
  }

  /** The histogram key of a row at upload time: its Type, or "Unknown" when it has none. */
  function TypeKey(r: Row): string {
    r.kind.GetOr("Unknown")
  }

  /** Keep, in order, the `Some` images of the elements (a filtering list comprehension). */
  function FilterMap<T, U(!new)>(s: seq<T>, f: T -> Option<U>): (r: seq<U>)
    ensures |r| <= |s|
    ensures forall x :: x in r <==> exists i :: 0 <= i < |s| && f(s[i]) == Some(x)
  {
    if s == [] then []
    else
      var rest := FilterMap(s[1..], f);
      assert forall i :: 0 < i < |s| ==> s[i] == s[1..][i - 1];
      match f(s[0])
      case Some(x) => [x] + rest
      case None => rest
  }

  /** The non-blank values of one numeric column, in row order. */
  function Values(rows: seq<Row>, p: Param): seq<real> {
    FilterMap(rows, (r: Row) => Field(r, p))
  }

  /** The histogram key of every row, in row order (every row contributes one). */
  function TypeKeys(rows: seq<Row>): (keys: seq<string>)
    ensures |keys| == |rows|
    ensures forall i :: 0 <= i < |rows| ==> keys[i] == TypeKey(rows[i])
  {
    if rows == [] then [] else [TypeKey(rows[0])] + TypeKeys(rows[1..])
  }

  /** The Type of every row that has one, in row order (rows without a Type are skipped). */
  function PresentTypes(rows: seq<Row>): seq<string> {
    FilterMap(rows, (r: Row) => r.kind)
  }

  lemma {:induction false} FilterMapAppend<T, U(!new)>(a: seq<T>, b: seq<T>, f: T -> Option<U>)
    ensures FilterMap(a + b, f) == FilterMap(a, f) + FilterMap(b, f)
    decreases |a|
  {
    if a == [] {
      assert a + b == b;
    } else {
      assert (a + b)[1..] == a[1..] + b;
      FilterMapAppend(a[1..], b, f);
    }
  }

  /** If `x` heads `a` and `b` is a permutation of `a`, then `x` sits at some `j` in `b`. */
  lemma PermutationSplit<T>(a: seq<T>, b: seq<T>) returns (j: nat)
    requires a != [] && multiset(a) == multiset(b)
    ensures j < |b| && b[j] == a[0]
    ensures b == b[..j] + [a[0]] + b[j + 1..]
    ensures multiset(a[1..]) == multiset(b[..j] + b[j + 1..])
  {
    assert a == [a[0]] + a[1..];
    assert a[0] in multiset(b);
    j :| 0 <= j < |b| && b[j] == a[0];
    var rest := b[..j] + b[j + 1..];
    assert b == b[..j] + [a[0]] + b[j + 1..];
    calc {
      multiset{a[0]} + multiset(a[1..]);
      multiset(a);
      multiset(b);
      multiset(b[..j] + [a[0]] + b[j + 1..]);
      multiset(b[..j]) + multiset{a[0]} + multiset(b[j + 1..]);
      multiset{a[0]} + multiset(rest);
    }
    forall y ensures multiset(a[1..])[y] == multiset(rest)[y] {
      assert (multiset{a[0]} + multiset(a[1..]))[y] == (multiset{a[0]} + multiset(rest))[y];
    }
  }

  /** Which elements a filtering comprehension keeps depends only on the multiset of its input. */
  lemma {:induction false} FilterMapPermutation<T, U(!new)>(a: seq<T>, b: seq<T>, f: T -> Option<U>)
    requires multiset(a) == multiset(b)
    ensures multiset(FilterMap(a, f)) == multiset(FilterMap(b, f))
    decreases |a|
  {
    if a == [] {
      assert |b| == |multiset(b)| == 0;
    } else {
      var j := PermutationSplit(a, b);
      var rest := b[..j] + b[j + 1..];
      FilterMapPermutation(a[1..], rest, f);
      assert a == [a[0]] + a[1..];
      FilterMapAppend([a[0]], a[1..], f);
      FilterMapAppend(b[..j] + [a[0]], b[j + 1..], f);
      FilterMapAppend(b[..j], [a[0]], f);
      FilterMapAppend(b[..j], b[j + 1..], f);
    }
  }

  lemma {:induction false} TypeKeysPermutation(a: seq<Row>, b: seq<Row>)
    requires multiset(a) == multiset(b)
    ensures multiset(TypeKeys(a)) == multiset(TypeKeys(b))
  {
    var f := (r: Row) => Some(TypeKey(r));
    TypeKeysAsFilterMap(a);
    TypeKeysAsFilterMap(b);
    FilterMapPermutation(a, b, f);
  }

  lemma {:induction false} TypeKeysAsFilterMap(rows: seq<Row>)
    ensures TypeKeys(rows) == FilterMap(rows, (r: Row) => Some(TypeKey(r)))
  {
    if rows != [] {
      TypeKeysAsFilterMap(rows[1..]);
    }
  }

  /** When every element has an image, nothing is filtered out. */
  lemma {:induction false} FilterMapTotal<T, U(!new)>(s: seq<T>, f: T -> Option<U>)
    requires forall i :: 0 <= i < |s| ==> f(s[i]).Some?
    ensures |FilterMap(s, f)| == |s|
    decreases |s|
  {
    if s != [] {
      assert forall i :: 0 <= i < |s| - 1 ==> s[1..][i] == s[i + 1];
      FilterMapTotal(s[1..], f);
    }
  }

  /** When every row has a Type, the upload keys are exactly the Types present. */
  lemma {:induction false} TypeKeysWhenTyped(rows: seq<Row>)
    requires forall i :: 0 <= i < |rows| ==> rows[i].kind.Some?
    ensures TypeKeys(rows) == PresentTypes(rows)
    decreases |rows|
  {
    if rows != [] {
      assert forall i :: 0 <= i < |rows| - 1 ==> rows[1..][i] == rows[i + 1];
      TypeKeysWhenTyped(rows[1..]);
    }
  }
}
