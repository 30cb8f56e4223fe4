/**
 * The `Dataset` model: its on-demand summary (`get_summary`) and the table of
 * stored datasets with per-user retention (`cleanup_old_datasets`).
 */
module Models {
  import opened Wrappers
  import opened Rows
  import opened Stats
  import opened Tally

  // ---------------------------------------------------------------------------
  // get_summary

  /**
   * The summary of a dataset: `{}` for empty data, otherwise the row count,
   * the per-type counts and, per parameter, the statistics of its non-blank
   * values; `None` stands for the NaN statistics of a column with no values.
   */
  datatype Summary =
    | EmptySummary
    | Summary(
        totalCount: nat,
        equipmentTypes: map<string, nat>,
        flowrate: Option<ParamStats>,
        pressure: Option<ParamStats>,
        temperature: Option<ParamStats>)
  {
    function Statistics(p: Param): Option<ParamStats>
      requires Summary?
    {
      match p
      case Flowrate => flowrate
      case Pressure => pressure
      case Temperature => temperature
    }
  }

  /** Column statistics as pandas computes them: missing values are skipped, and no value at all gives NaN. */
  function ColumnStatistics(xs: seq<real>): (s: Option<ParamStats>)
    ensures s.None? <==> xs == []
  {
    if xs == [] then None else Some(StatsOf(xs))
  }

  /** `Dataset.get_summary`: a pure function of the stored rows. */
  function GetSummary(data: Option<seq<Row>>): (s: Summary)
    ensures s.EmptySummary? <==> data == None || data == Some([])
    ensures s.Summary? ==> s.totalCount == |data.value|
  {
    if data.None? || data.value == [] then EmptySummary
    else
      var rows := data.value;
      Summary(
        |rows|,
        Histogram(PresentTypes(rows)),
        ColumnStatistics(Values(rows, Flowrate)),
        ColumnStatistics(Values(rows, Pressure)),
        ColumnStatistics(Values(rows, Temperature)))
  }

  /**
   * `st` describes column `p` of `rows`: its minimum and maximum are values
   * of some row, every row's value lies between them, and the average is the
   * sum of the values over their count and lies between them too.
   */
  ghost predicate DescribesColumn(rows: seq<Row>, p: Param, st: ParamStats) {
    && Values(rows, p) != []
    && st.min <= st.average <= st.max
    && st.average == Sum(Values(rows, p)) / |Values(rows, p)| as real
    && (exists i :: 0 <= i < |rows| && Field(rows[i], p) == Some(st.min))
    && (exists i :: 0 <= i < |rows| && Field(rows[i], p) == Some(st.max))
    && forall i :: 0 <= i < |rows| && Field(rows[i], p).Some? ==> st.min <= Field(rows[i], p).value <= st.max
  }

  /** A column has no values exactly when every row leaves it blank. */
  lemma NoValues(rows: seq<Row>, p: Param)
    ensures Values(rows, p) == [] <==> forall i :: 0 <= i < |rows| ==> Field(rows[i], p).None?
  {
    if Values(rows, p) != [] {
      assert Values(rows, p)[0] in Values(rows, p);
    }
  }

  /** The statistics of a column with values describe it. */
  lemma StatsDescribeColumn(rows: seq<Row>, p: Param)
    requires Values(rows, p) != []
    ensures DescribesColumn(rows, p, StatsOf(Values(rows, p)))
  {
    var xs := Values(rows, p);
    var st := StatsOf(xs);
    assert st.min in xs && st.max in xs;
    forall i | 0 <= i < |rows| && Field(rows[i], p).Some?
      ensures st.min <= Field(rows[i], p).value <= st.max
    {
      var v := Field(rows[i], p).value;
      assert v in xs;
      var k :| 0 <= k < |xs| && xs[k] == v;
    }
  }

  lemma SummaryColumn(rows: seq<Row>, p: Param)
    requires rows != []
    ensures GetSummary(Some(rows)).Summary?
    ensures GetSummary(Some(rows)).Statistics(p) == ColumnStatistics(Values(rows, p))
  {
    match p
    case Flowrate =>
    case Pressure =>
    case Temperature =>
  }

  /**
   * For non-empty data, a parameter's statistics are absent (NaN) exactly
   * when no row has a value for it, and otherwise describe its column.
   */
  lemma SummaryStatistics(rows: seq<Row>, p: Param)
    requires rows != []
    ensures GetSummary(Some(rows)).Summary?
    ensures GetSummary(Some(rows)).Statistics(p).None? <==> forall i :: 0 <= i < |rows| ==> Field(rows[i], p).None?
    ensures GetSummary(Some(rows)).Statistics(p).Some? ==> DescribesColumn(rows, p, GetSummary(Some(rows)).Statistics(p).value)
  {
    SummaryColumn(rows, p);
    NoValues(rows, p);
    if Values(rows, p) != [] {
      StatsDescribeColumn(rows, p);
    }
  }

  /**
   * For non-empty data, the type counts have a key exactly for each Type that
   * some row carries, each count is the number of rows of that Type (so at
   * least one), and the counts add up to the number of rows that have a Type,
   * hence to the total count when every row has one.
   */
  lemma SummaryTypeCounts(rows: seq<Row>)
    requires rows != []
    ensures GetSummary(Some(rows)).Summary?
    ensures var h := GetSummary(Some(rows)).equipmentTypes;
      && (forall t :: t in h <==> exists i :: 0 <= i < |rows| && rows[i].kind == Some(t))
      && (forall t :: t in h ==> h[t] == multiset(PresentTypes(rows))[t] >= 1)
      && MapSum(h) == |PresentTypes(rows)| <= |rows|
      && ((forall i :: 0 <= i < |rows| ==> rows[i].kind.Some?) ==> MapSum(h) == GetSummary(Some(rows)).totalCount)
  {
    HistogramTotal(PresentTypes(rows));
    HistogramCounts(PresentTypes(rows));
    if forall i :: 0 <= i < |rows| ==> rows[i].kind.Some? {
      FilterMapTotal(rows, (r: Row) => r.kind);
    }
  }

  /** The summary does not depend on the order of the rows. */
  lemma GetSummaryOrderIndependent(a: seq<Row>, b: seq<Row>)
    requires multiset(a) == multiset(b)
    ensures GetSummary(Some(a)) == GetSummary(Some(b))
  {
    assert |a| == |multiset(a)| == |multiset(b)| == |b|;
    if a != [] {
      FilterMapPermutation(a, b, (r: Row) => r.kind);
      HistogramPermutation(PresentTypes(a), PresentTypes(b));
      ColumnPermutation(a, b, Flowrate);
      ColumnPermutation(a, b, Pressure);
      ColumnPermutation(a, b, Temperature);
    }
  }

  lemma ColumnPermutation(a: seq<Row>, b: seq<Row>, p: Param)
    requires multiset(a) == multiset(b)
    ensures ColumnStatistics(Values(a, p)) == ColumnStatistics(Values(b, p))
  {
    var xa, xb := Values(a, p), Values(b, p);
    FilterMapPermutation(a, b, (r: Row) => Field(r, p));
    assert |xa| == |multiset(xa)| == |multiset(xb)| == |xb|;
    if xa != [] {
      StatsPermutation(xa, xb);
    }
  }

  // ---------------------------------------------------------------------------
  // The table of stored datasets

  type UserId = nat

  /**
   * One stored dataset. `owner` is `None` for an anonymous upload, which the
   * intended upload handler stores although the `user` column is declared
   * non-null; `data` is the JSON row list, `None` standing for a JSON null.
   */
  datatype Entry = Entry(
    id: nat,
    owner: Option<UserId>,
    filename: string,
    uploadedAt: nat,
    data: Option<seq<Row>>)

  /** Ordered as `order_by('-uploaded_at')`: later entries are older and have smaller ids. */
  ghost predicate NewestFirst(s: seq<Entry>) {
    forall i, j :: 0 <= i < j < |s| ==> s[j].id < s[i].id && s[j].uploadedAt < s[i].uploadedAt
  }

  /** Python's `s[:k]`. */
  function Take<T>(s: seq<T>, k: nat): (r: seq<T>)
    ensures |r| == if k < |s| then k else |s|
  {
    if k < |s| then s[..k] else s
  }

  /** Python's `s[k:]`. */
  function Drop<T>(s: seq<T>, k: nat): (r: seq<T>)
    ensures |r| == if k < |s| then |s| - k else 0
  {
    if k < |s| then s[k..] else []
  }

  function IdsOf(s: seq<Entry>): set<nat> {
    set e | e in s :: e.id
  }

  /** `filter(user=u)`, keeping the order. */
  function OfOwner(s: seq<Entry>, u: Option<UserId>): seq<Entry> {
    if s == [] then []
    else if s[0].owner == u then [s[0]] + OfOwner(s[1..], u)
    else OfOwner(s[1..], u)
  }

  /** The user filter keeps exactly the entries of that owner. */
  lemma {:induction false} OfOwnerMembers(s: seq<Entry>, u: Option<UserId>)
    ensures forall e :: e in OfOwner(s, u) <==> e in s && e.owner == u
    decreases |s|
  {
    if s != [] {
      OfOwnerMembers(s[1..], u);
      assert s == [s[0]] + s[1..];
    }
  }

  /** The entries left after deleting those whose id is in `ids`, in order. */
  function WithoutIds(s: seq<Entry>, ids: set<nat>): seq<Entry> {
    if s == [] then []
    else if s[0].id in ids then WithoutIds(s[1..], ids)
    else [s[0]] + WithoutIds(s[1..], ids)
  }

  /** Deleting a set of ids leaves exactly the entries with other ids. */
  lemma {:induction false} WithoutIdsMembers(s: seq<Entry>, ids: set<nat>)
    ensures forall e :: e in WithoutIds(s, ids) <==> e in s && e.id !in ids
    decreases |s|
  {
    if s != [] {
      WithoutIdsMembers(s[1..], ids);
      assert s == [s[0]] + s[1..];
    }
  }

  /** Deleting entries keeps the rest newest-first. */
  lemma {:induction false} WithoutIdsNewestFirst(s: seq<Entry>, ids: set<nat>)
    requires NewestFirst(s)
    ensures NewestFirst(WithoutIds(s, ids))
    decreases |s|
  {
    if s != [] {
      var t := s[1..];
      assert NewestFirst(t);
      WithoutIdsNewestFirst(t, ids);
      WithoutIdsMembers(t, ids);
      var rest := WithoutIds(t, ids);
      forall e | e in rest ensures e.id < s[0].id && e.uploadedAt < s[0].uploadedAt {
        assert e in t;
      }
    }
  }

  /** Deleting no ids changes nothing. */
  lemma {:induction false} WithoutNoIds(s: seq<Entry>)
    ensures WithoutIds(s, {}) == s
    decreases |s|
  {
    if s != [] {
      WithoutNoIds(s[1..]);
      assert s == [s[0]] + s[1..];
    }
  }

  /**
   * The table after keeping the `k` newest entries of owner `u`: walking
   * newest-first, entries of other owners stay, and entries of `u` stay
   * while fewer than `k` of them have been kept.
   */
  function KeepNewestOf(s: seq<Entry>, u: Option<UserId>, k: nat): seq<Entry> {
    if s == [] then []
    else if s[0].owner != u then [s[0]] + KeepNewestOf(s[1..], u, k)
    else if k == 0 then KeepNewestOf(s[1..], u, 0)
    else [s[0]] + KeepNewestOf(s[1..], u, k - 1)
  }

  lemma OfOwnerCons(e: Entry, s: seq<Entry>, u: Option<UserId>)
    ensures OfOwner([e] + s, u) == if e.owner == u then [e] + OfOwner(s, u) else OfOwner(s, u)
  {
    assert ([e] + s)[1..] == s;
  }

  /** After retention the owner's datasets are exactly their `k` newest. */
  lemma {:induction false} KeepNewestOfOwner(s: seq<Entry>, u: Option<UserId>, k: nat)
    ensures OfOwner(KeepNewestOf(s, u, k), u) == Take(OfOwner(s, u), k)
    decreases |s|
  {
    if s != [] {
      var e, t := s[0], s[1..];
      assert s == [e] + t;
      OfOwnerCons(e, t, u);
      if e.owner != u {
        KeepNewestOfOwner(t, u, k);
        OfOwnerCons(e, KeepNewestOf(t, u, k), u);
      } else if k == 0 {
        KeepNewestOfOwner(t, u, 0);
      } else {
        KeepNewestOfOwner(t, u, k - 1);
        OfOwnerCons(e, KeepNewestOf(t, u, k - 1), u);
        assert Take([e] + OfOwner(t, u), k) == [e] + Take(OfOwner(t, u), k - 1);
      }
    }
  }

  /** Retention for one owner leaves every other owner's datasets as they were, in order. */
  lemma {:induction false} KeepNewestOfOthers(s: seq<Entry>, u: Option<UserId>, v: Option<UserId>, k: nat)
    requires v != u
    ensures OfOwner(KeepNewestOf(s, u, k), v) == OfOwner(s, v)
    decreases |s|
  {
    if s != [] {
      if s[0].owner != u {
        KeepNewestOfOthers(s[1..], u, v, k);
      } else if k == 0 {
        KeepNewestOfOthers(s[1..], u, v, 0);
      } else {
        KeepNewestOfOthers(s[1..], u, v, k - 1);
      }
    }
  }

  /** Retention changes nothing when the owner has at most `k` datasets. */
  lemma {:induction false} KeepNewestOfNoop(s: seq<Entry>, u: Option<UserId>, k: nat)
    requires |OfOwner(s, u)| <= k
    ensures KeepNewestOf(s, u, k) == s
    decreases |s|
  {
    if s != [] {
      if s[0].owner != u {
        KeepNewestOfNoop(s[1..], u, k);
      } else {
        KeepNewestOfNoop(s[1..], u, k - 1);
      }
    }
  }

  lemma WithoutIdsTwice(s: seq<Entry>, a: set<nat>, b: set<nat>)
    ensures WithoutIds(WithoutIds(s, a), b) == WithoutIds(s, a + b)
  {
  }

  /** Deleting ids that no entry has changes nothing; only the ids present matter. */
  lemma {:induction false} WithoutIdsPresent(s: seq<Entry>, a: set<nat>, b: set<nat>)
    requires forall e :: e in s ==> (e.id in a <==> e.id in b)
    ensures WithoutIds(s, a) == WithoutIds(s, b)
    decreases |s|
  {
    if s != [] {
      assert s[0] in s;
      assert forall e :: e in s[1..] ==> e in s;
      WithoutIdsPresent(s[1..], a, b);
    }
  }

  /** In a newest-first table the head's id occurs nowhere in the tail, which is newest-first too. */
  lemma HeadIdFresh(s: seq<Entry>)
    requires s != [] && NewestFirst(s)
    ensures NewestFirst(s[1..]) && s[0].id !in IdsOf(s[1..])
  {
  }

  lemma IdsOfSubset(a: seq<Entry>, b: seq<Entry>)
    requires forall x :: x in a ==> x in b
    ensures IdsOf(a) <= IdsOf(b)
  {
  }

  lemma WithoutIdsHead(s: seq<Entry>, ids: set<nat>)
    requires s != []
    ensures WithoutIds(s, ids) == if s[0].id in ids then WithoutIds(s[1..], ids) else [s[0]] + WithoutIds(s[1..], ids)
  {
  }

  /** What the cleanup deletes from a table: the ids of the owner's datasets past the `k` newest. */
  function DoomedIds(s: seq<Entry>, u: Option<UserId>, k: nat): set<nat> {
    IdsOf(Drop(OfOwner(s, u), k))
  }

  /** Deleting the owner's datasets beyond their `k` newest, one id at a time, is retention. */
  lemma {:induction false} CleanupIsRetention(s: seq<Entry>, u: Option<UserId>, k: nat)
    requires NewestFirst(s)
    ensures WithoutIds(s, DoomedIds(s, u, k)) == KeepNewestOf(s, u, k)
    decreases |s|
  {
    if s != [] {
      var t := s[1..];
      HeadIdFresh(s);
      var k' := if s[0].owner == u && k > 0 then k - 1 else k;
      CleanupIsRetention(t, u, k');
      CleanupStep(s, u, k);
    }
  }

  /** One step of the induction above: the head of the table is kept or deleted as retention says. */
  lemma CleanupStep(s: seq<Entry>, u: Option<UserId>, k: nat)
    requires s != [] && NewestFirst(s[1..]) && s[0].id !in IdsOf(s[1..])
    requires var k' := if s[0].owner == u && k > 0 then k - 1 else k;
      WithoutIds(s[1..], DoomedIds(s[1..], u, k')) == KeepNewestOf(s[1..], u, k')
    ensures WithoutIds(s, DoomedIds(s, u, k)) == KeepNewestOf(s, u, k)
  {
    var e, t := s[0], s[1..];
    var mine := OfOwner(t, u);
    OfOwnerMembers(t, u);
    IdsOfSubset(mine, t);
    if e.owner != u {
      IdsOfSubset(Drop(mine, k), mine);
      WithoutIdsHead(s, DoomedIds(s, u, k));
    } else if k == 0 {
      assert OfOwner(s, u) == [e] + mine;
      var d := IdsOf([e] + mine);
      assert d == {e.id} + IdsOf(mine);
      WithoutIdsHead(s, d);
      WithoutIdsPresent(t, d, IdsOf(mine));
    } else {
      assert OfOwner(s, u) == [e] + mine;
      assert Drop([e] + mine, k) == Drop(mine, k - 1);
      IdsOfSubset(Drop(mine, k - 1), mine);
      WithoutIdsHead(s, DoomedIds(s, u, k));
    }
  }

  /** Deleting the id of every entry leaves nothing. */
  lemma {:induction false} WithoutAllIds(s: seq<Entry>, ids: set<nat>)
    requires forall e :: e in s ==> e.id in ids
    ensures WithoutIds(s, ids) == []
    decreases |s|
  {
    if s != [] {
      assert s[0] in s;
      assert forall e :: e in s[1..] ==> e in s;
      WithoutAllIds(s[1..], ids);
    }
  }

  /** Deleting every entry beyond position `k` of a newest-first table keeps its first `k`. */
  lemma {:induction false} PruneIsTake(s: seq<Entry>, k: nat)
    requires NewestFirst(s)
    ensures WithoutIds(s, IdsOf(Drop(s, k))) == Take(s, k)
    decreases |s|
  {
    if s != [] {
      var e, t := s[0], s[1..];
      HeadIdFresh(s);
      if k == 0 {
        WithoutAllIds(s, IdsOf(s));
      } else {
        PruneIsTake(t, k - 1);
        var d := Drop(t, k - 1);
        assert Drop(s, k) == d;
        IdsOfSubset(d, t);
        assert s == [e] + t;
        assert WithoutIds(s, IdsOf(d)) == [e] + WithoutIds(t, IdsOf(d));
        assert Take(s, k) == [e] + Take(t, k - 1);
      }
    }
  }

  /**
   * `Dataset.objects`: the stored datasets, newest first. Ids and upload
   * times come from counters that grow with every insert.
   */
  class DatasetStore {
    var entries: seq<Entry>
    var nextId: nat
    var clock: nat

    ghost predicate Valid()
      reads this
    {
      && NewestFirst(entries)
      && forall i :: 0 <= i < |entries| ==> entries[i].id < nextId && entries[i].uploadedAt < clock
    }

    constructor ()
      ensures Valid() && entries == []
    {
      entries, nextId, clock := [], 1, 0;
    }

    /** `Dataset.objects.create`: the new dataset gets a fresh id and the latest upload time. */
    method Insert(owner: Option<UserId>, filename: string, data: Option<seq<Row>>) returns (e: Entry)
      requires Valid()
      modifies this
      ensures Valid()
      ensures e == Entry(old(nextId), owner, filename, old(clock), data)
      ensures entries == [e] + old(entries)
      ensures nextId == old(nextId) + 1 && clock == old(clock) + 1
    {
      e := Entry(nextId, owner, filename, clock, data);
      entries := [e] + entries;
      nextId, clock := nextId + 1, clock + 1;
    }

    /** `dataset.delete()` for the dataset with this id. */
    method Delete(id: nat)
      requires Valid()
      modifies this
      ensures Valid()
      ensures entries == WithoutIds(old(entries), {id})
      ensures nextId == old(nextId) && clock == old(clock)
    {
      WithoutIdsNewestFirst(entries, {id});
      WithoutIdsMembers(entries, {id});
      entries := WithoutIds(entries, {id});
      assert forall i :: 0 <= i < |entries| ==> entries[i] in old(entries);
    }

    /** The ids deleted so far by a delete loop over `victims`, plus the next one. */
    static lemma IdsOfExtend(victims: seq<Entry>, i: nat)
      requires i < |victims|
      ensures IdsOf(victims[..i + 1]) == IdsOf(victims[..i]) + {victims[i].id}
    {
      assert victims[..i + 1] == victims[..i] + [victims[i]];
    }

    /**
     * `Dataset.cleanup_old_datasets`: the owner keeps their `keepCount` newest
     * datasets; the older ones are deleted one by one; nobody else's change.
     */
    method CleanupOldDatasets(user: Option<UserId>, keepCount: nat := 5)
      requires Valid()
      modifies this
      ensures Valid()
      ensures entries == KeepNewestOf(old(entries), user, keepCount)
      ensures OfOwner(entries, user) == Take(OfOwner(old(entries), user), keepCount)
      ensures forall v :: v != user ==> OfOwner(entries, v) == OfOwner(old(entries), v)
      ensures |OfOwner(old(entries), user)| <= keepCount ==> entries == old(entries)
      ensures nextId == old(nextId) && clock == old(clock)
    {
      ghost var start := entries;
      var datasets := OfOwner(entries, user);
      if |datasets| > keepCount {
        var doomed := datasets[keepCount..];
        var i := 0;
        WithoutNoIds(start);
        assert IdsOf(doomed[..0]) == {};
        while i < |doomed|
          invariant 0 <= i <= |doomed|
          invariant Valid() && nextId == old(nextId) && clock == old(clock)
          invariant entries == WithoutIds(start, IdsOf(doomed[..i]))
        {
          Delete(doomed[i].id);
          IdsOfExtend(doomed, i);
          WithoutIdsTwice(start, IdsOf(doomed[..i]), {doomed[i].id});
          i := i + 1;
        }
        assert IdsOf(doomed[..i]) == DoomedIds(start, user, keepCount) by {
          assert doomed[..i] == Drop(datasets, keepCount);
        }
        CleanupIsRetention(start, user, keepCount);
      } else {
        KeepNewestOfNoop(start, user, keepCount);
      }
      KeepNewestOfOwner(start, user, keepCount);
      forall v | v != user ensures OfOwner(entries, v) == OfOwner(start, v) {
        KeepNewestOfOthers(start, user, v, keepCount);
      }
    }
  }
}
