/**
 * The metadata store: the `dumps` table as a sequence of records in
 * insertion order, with the paginated listing and the insert the handlers
 * use. A backend failure is an oracle parameter: `Some(e)` is the error the
 * database reported for that call.
 *
 * The listing query has no ORDER BY; reading rows back in insertion order is
 * an assumption of this model, not something the query guarantees.
 */
module Db {
  import opened Base

  /** One row of `dumps`; the store-assigned id and timestamps are not modelled. */
  datatype Dump = Dump(program: string, version: string, filename: string, build: string)

  datatype DbError = DbError(message: string)

  /** Result of an insert: the table afterwards and the error, if any. */
  datatype Inserted = Inserted(records: seq<Dump>, err: Option<DbError>)

  /** Fixed number of rows per listing page. */
  const PageSize: nat := 20

  /** Row offset of `page`: pages count from 1 and every page below 1 reads as page 1. */
  function Offset(page: int): (o: nat)
    ensures page >= 1 ==> o == PageSize * (page - 1)
    ensures page <= 1 ==> o == 0
  {
    var index := PageSize * (page - 1);
    if index < 0 then 0 else index
  }

  /** The rows a LIMIT/OFFSET query returns: an empty slice past the end. */
  function PageOf(records: seq<Dump>, page: int): seq<Dump>
  {
    var lo := Min(Offset(page), |records|);
    var hi := Min(Offset(page) + PageSize, |records|);
    records[lo..hi]
  }

  /** `QueryDumpList`: one page of at most `PageSize` rows, or the backend error. */
  function QueryDumpList(records: seq<Dump>, page: int, fault: Option<DbError>): (r: Result<seq<Dump>, DbError>)
    ensures fault.Some? ==> r == Failure(fault.value)
    ensures fault.None? ==> r.Success?
    ensures r.Success? ==> |r.value| <= PageSize
    ensures r.Success? ==> |r.value| == Max(0, Min(PageSize, |records| - Offset(page)))
    ensures r.Success? ==> forall i :: 0 <= i < |r.value| ==> r.value[i] == records[Offset(page) + i]
  {
    if fault.Some? then Failure(fault.value) else Success(PageOf(records, page))
  }

  /** `AddDump`: appends one row with the four given fields, unvalidated, unless the backend fails. */
  function AddDump(records: seq<Dump>, program: string, version: string, filename: string, build: string,
                   fault: Option<DbError>): (r: Inserted)
    ensures fault.Some? ==> r.records == records && r.err == fault
    ensures fault.None? ==> r.err == None
    ensures fault.None? ==> |r.records| == |records| + 1 && r.records[..|records|] == records
    ensures fault.None? ==> r.records[|records|] == Dump(program, version, filename, build)
  {
    if fault.Some? then Inserted(records, fault)
    else Inserted(records + [Dump(program, version, filename, build)], None)
  }

  /** Every page at or below 1 lists the same rows as page 1. */
  lemma PagesBelowOneAreFirst(records: seq<Dump>, page: int)
    requires page <= 1
    ensures QueryDumpList(records, page, None) == QueryDumpList(records, 1, None)
  {
  }

  /** For a page from 1 on, the listing is the slice `[20(page-1), min(20 page, |records|))`. */
  lemma PageIsSlice(records: seq<Dump>, page: int)
    requires page >= 1
    requires PageSize * (page - 1) <= |records|
    ensures QueryDumpList(records, page, None).value == records[PageSize * (page - 1) .. Min(PageSize * page, |records|)]
  {
  }

  /** A page that starts at or past the last row is empty, not an error. */
  lemma PastEndIsEmpty(records: seq<Dump>, page: int)
    requires Offset(page) >= |records|
    ensures QueryDumpList(records, page, None) == Success([])
  {
  }

  /** Pages `page` and `page + 1` are adjacent slices: together they cover 40 consecutive rows. */
  lemma AdjacentPages(records: seq<Dump>, page: int)
    requires page >= 1
    ensures var lo := Min(Offset(page), |records|);
            PageOf(records, page) + PageOf(records, page + 1)
              == records[lo .. Min(Offset(page) + 2 * PageSize, |records|)]
  {
  }

  /** A non-empty next page means the current page is full: pages never overlap or leave gaps. */
  lemma NextPageNeedsFullPage(records: seq<Dump>, page: int)
    requires page >= 1
    requires |QueryDumpList(records, page + 1, None).value| > 0
    ensures |QueryDumpList(records, page, None).value| == PageSize
    ensures Offset(page + 1) == Offset(page) + |QueryDumpList(records, page, None).value|
  {
  }

  /** Pages 1..k concatenated. */
  function FirstPages(records: seq<Dump>, k: nat): seq<Dump>
  {
    if k == 0 then [] else FirstPages(records, k - 1) + PageOf(records, k)
  }

  /** Reading pages 1..k in order yields the first `min(20 k, |records|)` rows. */
  lemma {:induction false} FirstPagesArePrefix(records: seq<Dump>, k: nat)
    ensures FirstPages(records, k) == records[..Min(PageSize * k, |records|)]
  {
    if k > 0 {
      FirstPagesArePrefix(records, k - 1);
      var a := Min(PageSize * (k - 1), |records|);
      var b := Min(PageSize * k, |records|);
      assert PageOf(records, k) == records[a..b];
      assert records[..a] + records[a..b] == records[..b];
    }
  }

  /** A row just inserted is listed on the page its position falls into. */
  lemma AddedRowIsListed(records: seq<Dump>, program: string, version: string, filename: string, build: string)
    ensures var after := AddDump(records, program, version, filename, build, None).records;
            var page := |records| / PageSize + 1;
            var listed := QueryDumpList(after, page, None).value;
            |records| % PageSize < |listed|
            && listed[|records| % PageSize] == Dump(program, version, filename, build)
  {
  }
}
