/**
 * The query object of a "get many" request: parallel filter lists, an
 * optional sort field and direction, an optional date window and a 1-based page.
 */
module QueryParameters {
  import opened Wrappers
  import Driver

  /**
   * FilterField and FilterValue are parallel lists (None stands for null);
   * FromDate and ToDate are DateTime values as ticks.
   */
  datatype QueryParams = QueryParams(
    filterField: Option<seq<string>>,
    filterValue: Option<seq<string>>,
    sortBy: Option<string>,
    isAscending: bool,
    page: int,
    pageSize: int,
    fromDate: Option<int>,
    toDate: Option<int>)

  /**
   * The object a request without parameters binds to: no filter, no sort
   * field, IsAscending false (no initializer), page 1 of 10.
   */
  function DefaultQueryParams(): (q: QueryParams)
    ensures q.filterField.None? && q.filterValue.None? && q.sortBy.None?
    ensures !q.isAscending && q.page == 1 && q.pageSize == 10
    ensures q.fromDate.None? && q.toDate.None?
  {
    QueryParams(None, None, None, false, 1, 10, None, None)
  }

  function ListOrEmpty(l: Option<seq<string>>): seq<string> {
    if l.Some? then l.value else []
  }

  const Int32Min: int := -0x8000_0000
  const Int32Max: int := 0x7FFF_FFFF

  /** Whether x is a value of the C# int type. */
  predicate IsInt32(x: int) {
    Int32Min <= x <= Int32Max
  }

  /** Unchecked C# int arithmetic: x reduced modulo 2^32 into the int range. */
  function WrapInt32(x: int): (r: int)
    ensures IsInt32(r)
    ensures IsInt32(x) ==> r == x
    ensures (x - r) % 0x1_0000_0000 == 0
  {
    (x - Int32Min) % 0x1_0000_0000 + Int32Min
  }

  /** The skip the query computes: (Page - 1) * PageSize, each step in unchecked int arithmetic. */
  function Offset(q: QueryParams): (r: int)
    ensures IsInt32(r)
  {
    WrapInt32(WrapInt32(q.page - 1) * q.pageSize)
  }

  /**
   * The page window the store can serve: Page and PageSize are ints, a page
   * holds at least one record, and the (wrapped) skip is not negative.
   */
  predicate PageInRange(q: QueryParams) {
    IsInt32(q.page) && IsInt32(q.pageSize) && q.pageSize >= 1 && Offset(q) >= 0
  }

  /** While (Page - 1) * PageSize fits in an int, the skip is that product. */
  lemma OffsetWithoutWrap(q: QueryParams)
    requires IsInt32(q.page) && q.page >= 1 && q.pageSize >= 1
    requires (q.page - 1) * q.pageSize <= Int32Max
    ensures Offset(q) == (q.page - 1) * q.pageSize
    ensures PageInRange(q) <==> IsInt32(q.pageSize)
  {
    assert IsInt32(q.page - 1);
    assert (q.page - 1) * q.pageSize >= 0 by { Driver.MulNonNegative(q.page - 1, q.pageSize); }
  }

  /** Page 429496731 of 10 skips 4 records: 4294967300 wraps to 4. */
  lemma WrappedOffsetRepeatsEarlyRecords()
    ensures PageInRange(DefaultQueryParams().(page := 429496731))
    ensures Offset(DefaultQueryParams().(page := 429496731)) == 4
  {
  }

  /** Page 214748366 of 10 wraps to a negative skip, which the server refuses. */
  lemma WrappedOffsetNegative()
    ensures !PageInRange(DefaultQueryParams().(page := 214748366))
  {
  }
}
