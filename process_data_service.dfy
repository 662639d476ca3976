/**
 * Services/MDBProcessDataService.cs: the older, process-only store adapter.
 * It works on one fixed collection of DUTHeaderModel records, has a filter
 * builder without a date window, and updates by serial number with a
 * read-then-replace that keeps the stored identity.
 */
module ProcessDataServiceModel {
  import opened Wrappers
  import opened Bson
  import opened Driver
  import opened Models
  import opened QueryParameters
  import opened Resolution
  import MongoDbServiceModel

  /**
   * The filter lists the builder can read: either both are null or empty (the
   * early return), or FilterField is set and FilterValue has an entry for each
   * of its fields. Otherwise the loop dereferences null or indexes past FilterValue.
   */
  predicate FilterDefined(ff: Option<seq<string>>, fv: Option<seq<string>>) {
    (|ListOrEmpty(ff)| == 0 && |ListOrEmpty(fv)| == 0) || (ff.Some? && |ff.value| <= |ListOrEmpty(fv)|)
  }

  /** What GetAllAsync needs of its caller. */
  predicate Servable(q: QueryParams) {
    PageInRange(q) && FilterDefined(q.filterField, q.filterValue)
  }

  /** The filter _buildFilterFromQuery returns: empty on the early return, else one Eq per filter field. */
  function FilterFromLists(ff: Option<seq<string>>, fv: Option<seq<string>>): FilterDefinition
    requires FilterDefined(ff, fv)
  {
    if |ListOrEmpty(ff)| == 0 && |ListOrEmpty(fv)| == 0 then Empty
    else EqualityFilter(ff.value, ListOrEmpty(fv), |ff.value|)
  }

  /** A record matches iff every filter field holds its value; there is no date window. */
  lemma FilterFromListsMeaning<T>(ff: Option<seq<string>>, fv: Option<seq<string>>, el: (T, string) -> Option<Value>, d: T)
    requires FilterDefined(ff, fv)
    ensures Matches(FilterFromLists(ff, fv), el, d) <==>
            (forall i :: 0 <= i < |ListOrEmpty(ff)| ==> el(d, ff.value[i]) == Some(Str(ListOrEmpty(fv)[i])))
  {
    if !(|ListOrEmpty(ff)| == 0 && |ListOrEmpty(fv)| == 0) {
      EqualityFilterMeaning(ff.value, ListOrEmpty(fv), |ff.value|, el, d);
    }
  }

  /** With null or empty filter lists the filter matches every record. */
  lemma EmptyListsMatchAll<T>(ff: Option<seq<string>>, fv: Option<seq<string>>, el: (T, string) -> Option<Value>, d: T)
    requires |ListOrEmpty(ff)| == 0 && |ListOrEmpty(fv)| == 0
    ensures FilterDefined(ff, fv) && Matches(FilterFromLists(ff, fv), el, d)
  {
  }

  /**
   * The two generations select the same records whenever the newer one has
   * no complete date window; the older one never looks at the dates.
   */
  lemma GenerationsAgreeWithoutWindow<T>(q: QueryParams, el: (T, string) -> Option<Value>, d: T)
    requires FilterDefined(q.filterField, q.filterValue)
    ensures MongoDbServiceModel.FilterListsAligned(q)
    ensures q.fromDate.None? || q.toDate.None? ==>
              (Matches(FilterFromLists(q.filterField, q.filterValue), el, d) <==> Matches(MongoDbServiceModel.FilterFromQuery(q), el, d))
  {
  }

  /** _buildFilterFromQuery: the early return, then `filter &= Eq(...)` per filter field. */
  method BuildFilterFromQuery(ff: Option<seq<string>>, fv: Option<seq<string>>) returns (filter: FilterDefinition)
    requires FilterDefined(ff, fv)
    ensures filter == FilterFromLists(ff, fv)
  {
    filter := Empty;
    if |ListOrEmpty(ff)| == 0 && |ListOrEmpty(fv)| == 0 {
      return;
    }
    var fields := ff.value;
    var values := ListOrEmpty(fv);
    var i := 0;
    while i < |fields|
      invariant 0 <= i <= |fields|
      invariant filter == EqualityFilter(fields, values, i)
    {
      filter := And(filter, Eq(fields[i], Str(values[i])));
      i := i + 1;
    }
  }

  /** _buildSortingFromQuery of this service: ascending on "DUT.Serial" without a sort field, else on it in the requested direction. */
  function SortingFromQuery(sortBy: Option<string>, isAscending: bool): (order: SortDefinition)
    ensures sortBy.None? ==> order == Ascending("DUT.Serial")
    ensures sortBy.Some? ==> order.field == sortBy.value && (order.Ascending? <==> isAscending)
  {
    if sortBy.None? then Ascending("DUT.Serial")
    else if isAscending then Ascending(sortBy.value)
    else Descending(sortBy.value)
  }

  /** Both generations sort the same way. */
  lemma SortingAgrees(sortBy: Option<string>, isAscending: bool)
    ensures SortingFromQuery(sortBy, isAscending) == MongoDbServiceModel.SortingFromQuery(sortBy, isAscending)
  {
  }

  class MDBProcessDataService {
    /** The contents of the one collection the service was built for, in collection order. */
    var documents: seq<HeaderRecord>
    /** How the driver reads a field path of a stored record. */
    const element: (HeaderRecord, string) -> Option<Value>

    constructor (element: (HeaderRecord, string) -> Option<Value>)
      ensures documents == [] && this.element == element && Valid()
    {
      documents := [];
      this.element := element;
    }

    /** The store's indexes: identities and serial numbers are unique. */
    ghost predicate Valid()
      reads this
    {
      IdsDistinct(documents) && SerialsDistinct(documents, HeaderSerial)
    }

    /** Whether inserting r would duplicate an identity or a serial number. */
    predicate Conflicts(s: seq<HeaderRecord>, r: HeaderRecord) {
      exists i :: 0 <= i < |s| && (s[i].id == r.id || HeaderSerial(s[i]) == HeaderSerial(r))
    }

    /** The matches of a query in the order the query sorts them. */
    function Ranked(q: QueryParams): seq<HeaderRecord>
      requires FilterDefined(q.filterField, q.filterValue)
      reads this
    {
      SortDocs(SortingFromQuery(q.sortBy, q.isAscending), element, Find(documents, element, FilterFromLists(q.filterField, q.filterValue)))
    }

    /** The page GetAllAsync returns: the sorted matches, from the (wrapped) skip on, at most PageSize of them. */
    function QueryResult(q: QueryParams): seq<HeaderRecord>
      requires Servable(q)
      reads this
    {
      Limit(Skip(Ranked(q), Offset(q)), q.pageSize)
    }

    /** While the skip does not wrap, GetAllAsync returns page Page of the sorted matches. */
    lemma QueryResultIsPage(q: QueryParams)
      requires Servable(q) && q.page >= 1 && (q.page - 1) * q.pageSize <= Int32Max
      ensures QueryResult(q) == PageOf(Ranked(q), q.page, q.pageSize)
    {
      OffsetWithoutWrap(q);
    }

    /** Every record of a page is stored and matches the filter lists; the page is sorted and no longer than PageSize. */
    lemma QueryResultSound(q: QueryParams)
      requires Servable(q)
      ensures |QueryResult(q)| <= q.pageSize
      ensures forall r :: r in QueryResult(q) ==>
                r in documents &&
                (forall i :: 0 <= i < |ListOrEmpty(q.filterField)| ==>
                   element(r, q.filterField.value[i]) == Some(Str(ListOrEmpty(q.filterValue)[i])))
      ensures SortedBy(SortingFromQuery(q.sortBy, q.isAscending), element, QueryResult(q))
    {
      var sorting := SortingFromQuery(q.sortBy, q.isAscending);
      var matches := Find(documents, element, FilterFromLists(q.filterField, q.filterValue));
      var sorted := SortDocs(sorting, element, matches);
      SkipLimitIsSlice(sorted, Offset(q), q.pageSize);
      SortDocsSorted(sorting, element, matches);
      SliceSorted(sorting, element, sorted, Min(Offset(q), |sorted|), Min(Offset(q) + q.pageSize, |sorted|));
      forall r | r in QueryResult(q)
        ensures r in documents
        ensures forall i :: 0 <= i < |ListOrEmpty(q.filterField)| ==>
                  element(r, q.filterField.value[i]) == Some(Str(ListOrEmpty(q.filterValue)[i]))
      {
        assert r in sorted;
        assert r in multiset(sorted);
        assert r in matches;
        FilterFromListsMeaning(q.filterField, q.filterValue, element, r);
      }
    }

    /** GetAllAsync: Find(filter).Sort(sorting).Skip((Page-1)*PageSize).Limit(PageSize), the skip in unchecked int arithmetic. */
    method GetAllAsync(q: QueryParams) returns (page: seq<HeaderRecord>)
      requires Servable(q)
      ensures page == QueryResult(q)
    {
      var filter := BuildFilterFromQuery(q.filterField, q.filterValue);
      var sorting := SortingFromQuery(q.sortBy, q.isAscending);
      var skip := WrapInt32(WrapInt32(q.page - 1) * q.pageSize);
      page := Limit(Skip(SortDocs(sorting, element, Find(documents, element, filter)), skip), q.pageSize);
    }

    /** CreateAsync: InsertOne and the inserted record; a duplicate identity or serial number raises a write error. */
    method CreateAsync(newUnit: HeaderRecord, generatedId: ObjectId) returns (result: Result<HeaderRecord, MongoDbServiceModel.WriteError>)
      requires Valid()
      modifies this
      ensures Valid()
      ensures var doc := MongoDbServiceModel.WithGeneratedId(newUnit, generatedId);
              if Conflicts(old(documents), doc) then
                result == Failure(MongoDbServiceModel.DuplicateKey) && documents == old(documents)
              else
                result == Success(doc) && documents == old(documents) + [doc]
    {
      var doc := MongoDbServiceModel.WithGeneratedId(newUnit, generatedId);
      if Conflicts(documents, doc) {
        result := Failure(MongoDbServiceModel.DuplicateKey);
      } else {
        documents := documents + [doc];
        result := Success(doc);
      }
    }

    /** GetOneAsync: the first record whose criteria field equals the value, or null. */
    method GetOneAsync<F(==)>(criteria: HeaderRecord -> F, field: F) returns (r: Option<HeaderRecord>)
      ensures r == FirstWith(documents, criteria, field)
    {
      r := FirstWith(documents, criteria, field);
    }

    /**
     * UpdateAsync: null when no record has the argument's serial number;
     * otherwise that record is replaced by one with its own identity and the
     * argument's DUT and Steps, and the replacement is returned.
     */
    method UpdateAsync(newUnit: HeaderRecord) returns (result: Option<HeaderRecord>)
      requires Valid()
      modifies this
      ensures Valid()
      ensures match FirstIndexWith(old(documents), HeaderSerial, HeaderSerial(newUnit))
              case None => result.None? && documents == old(documents)
              case Some(i) =>
                var updated := Record(old(documents)[i].id, newUnit.dut, newUnit.steps);
                result == Some(updated) && documents == old(documents)[i := updated]
    {
      var oldUnit := GetOneAsync(HeaderSerial, HeaderSerial(newUnit));
      if oldUnit.None? {
        return None;
      }
      var updated := Record(oldUnit.value.id, newUnit.dut, newUnit.steps);
      var i := FirstIndexWith(documents, HeaderSerial, HeaderSerial(newUnit)).value;
      documents := documents[i := updated];
      result := Some(updated);
      assert Valid() by {
        assert HeaderSerial(updated) == HeaderSerial(old(documents)[i]);
      }
    }

    /** DeleteAsync: FindOneAndDelete on Eq(criteria, field); the removed record, or null with nothing removed. */
    method DeleteAsync<F(==)>(criteria: HeaderRecord -> F, field: F) returns (r: Option<HeaderRecord>)
      requires Valid()
      modifies this
      ensures Valid()
      ensures match FirstIndexWith(old(documents), criteria, field)
              case None => r.None? && documents == old(documents)
              case Some(i) => r == Some(old(documents)[i]) && documents == RemoveAt(old(documents), i)
    {
      var found := FirstIndexWith(documents, criteria, field);
      if found.None? {
        r := None;
      } else {
        var i := found.value;
        var s := documents;
        var t := RemoveAt(s, i);
        documents := t;
        r := Some(s[i]);
        RemoveKeepsDistinct(s, HeaderSerial, i);
      }
    }
  }
}
