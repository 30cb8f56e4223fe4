/**
 * The two dataset serializers: the detail serializer, whose `summary` field
 * is the model's summary, and the lightweight list serializer, which shows a
 * row count in place of the rows (the view set itself lists with the detail
 * serializer).
 */
module Serializers {
  import opened Wrappers
  import opened Rows
  import opened Models

  /** `DatasetListSerializer.get_record_count`: `len(obj.data) if obj.data else 0`. */
  function RecordCount(data: Option<seq<Row>>): (n: nat)
    ensures data.Some? ==> n == |data.value|
    ensures data.None? ==> n == 0
  {
    if data.Some? && data.value != [] then |data.value| else 0
  }

  /** The fields of `DatasetListSerializer`: no row data. */
  datatype ListItem = ListItem(
    id: nat,
    owner: Option<UserId>,
    filename: string,
    uploadedAt: nat,
    recordCount: nat)

  function ToListItem(e: Entry): (item: ListItem)
    ensures item.id == e.id && item.owner == e.owner && item.filename == e.filename
    ensures item.uploadedAt == e.uploadedAt && item.recordCount == RecordCount(e.data)
  {
    ListItem(e.id, e.owner, e.filename, e.uploadedAt, RecordCount(e.data))
  }

  /** The fields of `DatasetSerializer` that this model covers. */
  datatype Detail = Detail(
    id: nat,
    owner: Option<UserId>,
    filename: string,
    uploadedAt: nat,
    data: Option<seq<Row>>,
    summary: Summary)

  function ToDetail(e: Entry): (d: Detail)
    ensures d.id == e.id && d.owner == e.owner && d.filename == e.filename
    ensures d.uploadedAt == e.uploadedAt && d.data == e.data
    ensures d.summary == GetSummary(e.data)
  {
    Detail(e.id, e.owner, e.filename, e.uploadedAt, e.data, GetSummary(e.data))
  }

  /**
   * Two datasets with the same metadata and the same number of rows give
   * identical list-serializer items, whatever their rows.
   */
  lemma ListItemHidesRows(a: Entry, b: Entry)
    requires a.id == b.id && a.owner == b.owner && a.filename == b.filename && a.uploadedAt == b.uploadedAt
    requires RecordCount(a.data) == RecordCount(b.data)
    ensures ToListItem(a) == ToListItem(b)
  {
  }

  /**
   * The list serializer's row count and the detail serializer's summary agree: the count
   * is 0 exactly when the summary is empty, and otherwise equals its total.
   */
  lemma RecordCountMatchesSummary(e: Entry)
    ensures RecordCount(e.data) == 0 <==> ToDetail(e).summary.EmptySummary?
    ensures ToDetail(e).summary.Summary? ==> ToDetail(e).summary.totalCount == RecordCount(e.data)
  {
  }
}
