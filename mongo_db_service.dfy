/**
 * DbContext/MongoDbService.cs: the generic store adapter of the current
 * generation. It turns a query object into a filter, a sort and a page
 * window, and runs get-one, create, update and delete against a named
 * collection. The store itself is an in-memory map from (database,
 * collection) names to the sequence of documents in collection order.
 */
module MongoDbServiceModel {
  import opened Wrappers
  import opened Bson
  import opened Driver
  import opened Models
  import opened QueryParameters

  /** A collection's address: database name and collection name. */
  datatype Namespace = Namespace(database: string, collection: string)

  /** The MongoWriteException a rejected write raises. */
  datatype WriteError = DuplicateKey

  /** The field path of the date window. */
  const CreatedAtPath: string := "DUT.CreatedAt"

  /** The field path of the default sort. */
  const DefaultSortPath: string := "DUT.Serial"

  /** FilterValue has an entry for each FilterField (else the loop's FilterValue[i] throws). */
  predicate FilterListsAligned(q: QueryParams) {
    q.filterField.None? || |q.filterField.value| <= |ListOrEmpty(q.filterValue)|
  }

  /** What GetManyAsync needs of its caller. */
  predicate Servable(q: QueryParams) {
    PageInRange(q) && FilterListsAligned(q)
  }

  /** The equality part of the filter: one Eq per FilterField entry, none when FilterField is null. */
  function FieldFilter(q: QueryParams): FilterDefinition
    requires FilterListsAligned(q)
  {
    if q.filterField.Some? then EqualityFilter(q.filterField.value, ListOrEmpty(q.filterValue), |q.filterField.value|)
    else Empty
  }

  /** The filter _buildFilterFromQuery returns. */
  function FilterFromQuery(q: QueryParams): FilterDefinition
    requires FilterListsAligned(q)
  {
    if q.fromDate.Some? && q.toDate.Some? then
      And(And(FieldFilter(q), Gte(CreatedAtPath, Date(q.fromDate.value))), Lte(CreatedAtPath, Date(q.toDate.value)))
    else FieldFilter(q)
  }

  /** The date window holds d: it is set on both ends and d's creation date lies inside it, both ends included. */
  predicate InDateWindow<T>(q: QueryParams, el: (T, string) -> Option<Value>, d: T)
    requires q.fromDate.Some? && q.toDate.Some?
  {
    var v := el(d, CreatedAtPath);
    v.Some? && v.value.Date? && q.fromDate.value <= v.value.ticks <= q.toDate.value
  }

  /**
   * What a query selects: every FilterField[i] holds FilterValue[i] (entries
   * of FilterValue past the end of FilterField play no part), and, only when
   * both dates are given, the creation date lies in the window.
   */
  predicate QueryMatches<T>(q: QueryParams, el: (T, string) -> Option<Value>, d: T)
    requires FilterListsAligned(q)
  {
    && (forall i :: 0 <= i < |ListOrEmpty(q.filterField)| ==>
          el(d, q.filterField.value[i]) == Some(Str(ListOrEmpty(q.filterValue)[i])))
    && (q.fromDate.Some? && q.toDate.Some? ==> InDateWindow(q, el, d))
  }

  lemma DateBoundMeaning(bound: int, v: Option<Value>)
    ensures (v.Some? && Rank(v) == Rank(Some(Date(bound))) && LexLeq(Code(Some(Date(bound))), Code(v)))
            <==> (v.Some? && v.value.Date? && bound <= v.value.ticks)
    ensures (v.Some? && Rank(v) == Rank(Some(Date(bound))) && LexLeq(Code(v), Code(Some(Date(bound)))))
            <==> (v.Some? && v.value.Date? && v.value.ticks <= bound)
  {
  }

  /** The equality part matches exactly the documents whose filter fields hold their values. */
  lemma FieldFilterMeaning<T>(q: QueryParams, el: (T, string) -> Option<Value>, d: T)
    requires FilterListsAligned(q)
    ensures Matches(FieldFilter(q), el, d) <==>
            (forall i :: 0 <= i < |ListOrEmpty(q.filterField)| ==>
               el(d, q.filterField.value[i]) == Some(Str(ListOrEmpty(q.filterValue)[i])))
  {
    if q.filterField.Some? {
      EqualityFilterMeaning(q.filterField.value, ListOrEmpty(q.filterValue), |q.filterField.value|, el, d);
    }
  }

  /** The built filter matches exactly what the query selects. */
  lemma FilterFromQueryMeaning<T>(q: QueryParams, el: (T, string) -> Option<Value>, d: T)
    requires FilterListsAligned(q)
    ensures Matches(FilterFromQuery(q), el, d) <==> QueryMatches(q, el, d)
  {
    FieldFilterMeaning(q, el, d);
    if q.fromDate.Some? && q.toDate.Some? {
      var v := el(d, CreatedAtPath);
      DateBoundMeaning(q.fromDate.value, v);
      DateBoundMeaning(q.toDate.value, v);
      assert Matches(Gte(CreatedAtPath, Date(q.fromDate.value)), el, d) <==> (v.Some? && v.value.Date? && q.fromDate.value <= v.value.ticks);
      assert Matches(Lte(CreatedAtPath, Date(q.toDate.value)), el, d) <==> (v.Some? && v.value.Date? && v.value.ticks <= q.toDate.value);
    }
  }

  /** With no filter fields and no complete date window, the query selects every document. */
  lemma NoCriteriaMatchesAll<T>(q: QueryParams, el: (T, string) -> Option<Value>, d: T)
    requires |ListOrEmpty(q.filterField)| == 0
    requires q.fromDate.None? || q.toDate.None?
    ensures FilterListsAligned(q) && Matches(FilterFromQuery(q), el, d)
  {
  }

  /** A single date bound is ignored: the query selects what it would select with neither bound. */
  lemma SingleDateBoundIgnored<T>(q: QueryParams, el: (T, string) -> Option<Value>, d: T)
    requires FilterListsAligned(q)
    requires q.fromDate.None? || q.toDate.None?
    ensures Matches(FilterFromQuery(q), el, d) <==> Matches(FilterFromQuery(q.(fromDate := None, toDate := None)), el, d)
  {
  }

  /** _buildFilterFromQuery: Empty, then `filter &= Eq(...)` per filter field, then the date window when both ends are set. */
  method BuildFilterFromQuery(q: QueryParams) returns (filter: FilterDefinition)
    requires FilterListsAligned(q)
    ensures filter == FilterFromQuery(q)
  {
    filter := Empty;
    if q.filterField.Some? {
      var fields := q.filterField.value;
      var values := ListOrEmpty(q.filterValue);
      var i := 0;
      while i < |fields|
        invariant 0 <= i <= |fields|
        invariant filter == EqualityFilter(fields, values, i)
      {
        filter := And(filter, Eq(fields[i], Str(values[i])));
        i := i + 1;
      }
    }
    if q.fromDate.Some? && q.toDate.Some? {
      if q.fromDate.Some? {
        filter := And(filter, Gte(CreatedAtPath, Date(q.fromDate.value)));
      }
      if q.toDate.Some? {
        filter := And(filter, Lte(CreatedAtPath, Date(q.toDate.value)));
      }
    }
  }

  /** _buildSortingFromQuery: ascending on "DUT.Serial" when no sort field is given, else on the field in the requested direction. */
  function SortingFromQuery(sortBy: Option<string>, isAscending: bool): (order: SortDefinition)
    ensures sortBy.None? ==> order == Ascending(DefaultSortPath)
    ensures sortBy.Some? ==> order.field == sortBy.value && (order.Ascending? <==> isAscending)
  {
    if sortBy.None? then Ascending(DefaultSortPath)
    else if isAscending then Ascending(sortBy.value)
    else Descending(sortBy.value)
  }

  /** A sort field given without a direction sorts descending: IsAscending defaults to false. */
  lemma SortByWithoutDirectionDescends(field: string)
    ensures SortingFromQuery(Some(field), DefaultQueryParams().isAscending) == Descending(field)
  {
  }

  /** The update definitions the repositories build: $set of the header, of the steps, or of both. */
  datatype UpdateDefinition<D, S> = SetFields(dut: Option<D>, steps: Option<seq<S>>)

  /** A document after an update: the identity never changes. */
  function ApplyUpdate<D, S>(u: UpdateDefinition<D, S>, r: Record<D, S>): (r': Record<D, S>)
    ensures r'.id == r.id
    ensures r'.dut == (if u.dut.Some? then u.dut.value else r.dut)
    ensures r'.steps == (if u.steps.Some? then u.steps.value else r.steps)
  {
    Record(r.id, if u.dut.Some? then u.dut.value else r.dut, if u.steps.Some? then u.steps.value else r.steps)
  }

  /** The document InsertOne writes: an identity left at ObjectId.Empty is replaced by the generated one. */
  function WithGeneratedId<D, S>(r: Record<D, S>, generatedId: ObjectId): Record<D, S> {
    if r.id == EmptyId then r.(id := generatedId) else r
  }

  class MongoDbService<D(==,!new), S(==,!new)> {
    /** Every collection of every database, each in collection (natural) order. */
    var database: map<Namespace, seq<Record<D, S>>>
    /** How the driver reads a field path of a stored document. */
    const element: (Record<D, S>, string) -> Option<Value>
    /** The field path of the store's unique index (the serial number). */
    const uniqueField: string

    constructor (element: (Record<D, S>, string) -> Option<Value>, uniqueField: string)
      ensures database == map[] && this.element == element && this.uniqueField == uniqueField
      ensures Valid()
    {
      database := map[];
      this.element := element;
      this.uniqueField := uniqueField;
    }

    /** GetCollection: a collection that was never written is empty. */
    function Collection(ns: Namespace): seq<Record<D, S>>
      reads this
    {
      if ns in database then database[ns] else []
    }

    /** Two documents collide on the _id index or on the unique index. */
    predicate Collide(a: Record<D, S>, b: Record<D, S>) {
      a.id == b.id || element(a, uniqueField) == element(b, uniqueField)
    }

    /** No two documents of a collection share an identity or a unique-field value. */
    ghost predicate Keyed(s: seq<Record<D, S>>) {
      forall i, j :: 0 <= i < j < |s| ==> !Collide(s[i], s[j])
    }

    ghost predicate Valid()
      reads this
    {
      forall ns :: ns in database ==> Keyed(database[ns])
    }

    /** Every collection, including one never written, has unique indexes. */
    lemma CollectionKeyed(ns: Namespace)
      requires Valid()
      ensures Keyed(Collection(ns))
    {
    }

    /** Appending a document that collides with none keeps the indexes unique. */
    lemma AppendKeepsKeyed(s: seq<Record<D, S>>, doc: Record<D, S>)
      requires Keyed(s) && !Conflicts(s, doc)
      ensures Keyed(s + [doc])
    {
    }

    /** Replacing a document by one that collides with no other keeps the indexes unique. */
    lemma ReplaceKeepsKeyed(s: seq<Record<D, S>>, i: nat, updated: Record<D, S>)
      requires i < |s| && Keyed(s)
      requires !exists j :: 0 <= j < |s| && j != i && Collide(s[j], updated)
      ensures Keyed(s[i := updated])
    {
    }

    /** Removing a document keeps the indexes unique. */
    lemma RemoveKeepsKeyed(s: seq<Record<D, S>>, i: nat)
      requires i < |s| && Keyed(s)
      ensures Keyed(RemoveAt(s, i))
    {
    }

    /** Whether inserting r into s would violate an index. */
    predicate Conflicts(s: seq<Record<D, S>>, r: Record<D, S>) {
      exists i :: 0 <= i < |s| && Collide(s[i], r)
    }

    /** The matches of a query in the order the query sorts them. */
    function Ranked(ns: Namespace, q: QueryParams): seq<Record<D, S>>
      requires FilterListsAligned(q)
      reads this
    {
      SortDocs(SortingFromQuery(q.sortBy, q.isAscending), element, Find(Collection(ns), element, FilterFromQuery(q)))
    }

    /** The page a query returns: the sorted matches, from the (wrapped) skip on, at most PageSize of them. */
    function QueryResult(ns: Namespace, q: QueryParams): seq<Record<D, S>>
      requires Servable(q)
      reads this
    {
      Limit(Skip(Ranked(ns, q), Offset(q)), q.pageSize)
    }

    /** While the skip does not wrap, a query returns page Page of its sorted matches. */
    lemma QueryResultIsPage(ns: Namespace, q: QueryParams)
      requires Servable(q) && q.page >= 1 && (q.page - 1) * q.pageSize <= Int32Max
      ensures QueryResult(ns, q) == PageOf(Ranked(ns, q), q.page, q.pageSize)
    {
      OffsetWithoutWrap(q);
    }

    /** Two different pages of the same query share no document, as long as the later page's skip does not wrap. */
    lemma QueryPagesDisjoint(ns: Namespace, q: QueryParams, later: int)
      requires Valid() && Servable(q) && 1 <= q.page < later
      requires IsInt32(later) && (later - 1) * q.pageSize <= Int32Max
      ensures Servable(q.(page := later))
      ensures forall r :: r in QueryResult(ns, q) ==> r !in QueryResult(ns, q.(page := later))
    {
      var s := Collection(ns);
      assert Distinct(s) by {
        if ns in database {
          assert Keyed(s);
        }
      }
      MulMonotone(q.page - 1, later - 1, q.pageSize);
      OffsetWithoutWrap(q);
      OffsetWithoutWrap(q.(page := later));
      QueryResultIsPage(ns, q);
      QueryResultIsPage(ns, q.(page := later));
      FindDistinct(s, element, FilterFromQuery(q));
      SortDocsDistinct(SortingFromQuery(q.sortBy, q.isAscending), element, Find(s, element, FilterFromQuery(q)));
      PagesDisjoint(Ranked(ns, q), q.page, later, q.pageSize);
    }

    /** Pages 1 to k of a query, read in turn, are the first k*PageSize sorted matches, as long as page k's skip does not wrap. */
    lemma QueryPagesCover(ns: Namespace, q: QueryParams, k: nat)
      requires Servable(q) && IsInt32(k) && (k - 1) * q.pageSize <= Int32Max
      ensures k * q.pageSize >= 0
      ensures forall p :: 1 <= p <= k ==> Servable(q.(page := p)) && QueryResult(ns, q.(page := p)) == PageOf(Ranked(ns, q), p, q.pageSize)
      ensures FirstPages(Ranked(ns, q), k, q.pageSize) == Ranked(ns, q)[..Min(k * q.pageSize, |Ranked(ns, q)|)]
    {
      forall p | 1 <= p <= k
        ensures Servable(q.(page := p)) && QueryResult(ns, q.(page := p)) == PageOf(Ranked(ns, q), p, q.pageSize)
      {
        PageBelow(ns, q, p, k);
      }
      FirstPagesArePrefix(Ranked(ns, q), k, q.pageSize);
    }

    lemma PageBelow(ns: Namespace, q: QueryParams, p: int, k: int)
      requires Servable(q) && 1 <= p <= k && IsInt32(k) && (k - 1) * q.pageSize <= Int32Max
      ensures Servable(q.(page := p)) && QueryResult(ns, q.(page := p)) == PageOf(Ranked(ns, q), p, q.pageSize)
    {
      var qp := q.(page := p);
      MulMonotone(p - 1, k - 1, q.pageSize);
      OffsetWithoutWrap(qp);
      QueryResultIsPage(ns, qp);
      assert Ranked(ns, qp) == Ranked(ns, q);
    }

    /** A request without parameters gets the first ten documents of the collection, sorted ascending on "DUT.Serial". */
    lemma DefaultQueryResult(ns: Namespace)
      ensures Servable(DefaultQueryParams())
      ensures QueryResult(ns, DefaultQueryParams()) == PageOf(SortDocs(Ascending(DefaultSortPath), element, Collection(ns)), 1, 10)
    {
      FindEmpty(Collection(ns), element);
    }

    /** Every document of a page is in the collection and selected by the query; the page is sorted and no longer than PageSize. */
    lemma QueryResultSound(ns: Namespace, q: QueryParams)
      requires Servable(q)
      ensures |QueryResult(ns, q)| <= q.pageSize
      ensures forall r :: r in QueryResult(ns, q) ==> r in Collection(ns) && QueryMatches(q, element, r)
      ensures SortedBy(SortingFromQuery(q.sortBy, q.isAscending), element, QueryResult(ns, q))
    {
      var sorting := SortingFromQuery(q.sortBy, q.isAscending);
      var matches := Find(Collection(ns), element, FilterFromQuery(q));
      var sorted := SortDocs(sorting, element, matches);
      SkipLimitIsSlice(sorted, Offset(q), q.pageSize);
      SortDocsSorted(sorting, element, matches);
      SliceSorted(sorting, element, sorted, Min(Offset(q), |sorted|), Min(Offset(q) + q.pageSize, |sorted|));
      forall r | r in QueryResult(ns, q)
        ensures r in Collection(ns) && QueryMatches(q, element, r)
      {
        assert r in sorted;
        assert r in multiset(sorted);
        assert r in matches;
        FilterFromQueryMeaning(q, element, r);
      }
    }

    /** GetManyAsync: Find(filter).Sort(sorting).Skip((Page-1)*PageSize).Limit(PageSize), the skip in unchecked int arithmetic. */
    method GetManyAsync(q: QueryParams, databaseName: string, collectionName: string) returns (page: seq<Record<D, S>>)
      requires Servable(q)
      ensures page == QueryResult(Namespace(databaseName, collectionName), q)
    {
      var ns := Namespace(databaseName, collectionName);
      var filter := BuildFilterFromQuery(q);
      var sorting := SortingFromQuery(q.sortBy, q.isAscending);
      var matches := Find(Collection(ns), element, filter);
      var sorted := SortDocs(sorting, element, matches);
      var skip := WrapInt32(WrapInt32(q.page - 1) * q.pageSize);
      page := Limit(Skip(sorted, skip), q.pageSize);
    }

    /** GetOneAsync: the first document whose criteria field equals the value, or null. */
    method GetOneAsync<F(==)>(criteria: Record<D, S> -> F, fieldValue: F, databaseName: string, collectionName: string)
      returns (r: Option<Record<D, S>>)
      ensures r == FirstWith(Collection(Namespace(databaseName, collectionName)), criteria, fieldValue)
    {
      r := FirstWith(Collection(Namespace(databaseName, collectionName)), criteria, fieldValue);
    }

    /**
     * CreateAsync: InsertOne, then the inserted object itself (with its
     * generated identity). A duplicate identity or unique-field value raises
     * a write error and writes nothing.
     */
    method CreateAsync(newUnit: Record<D, S>, databaseName: string, collectionName: string, generatedId: ObjectId)
      returns (result: Result<Record<D, S>, WriteError>)
      requires Valid()
      modifies this
      ensures Valid()
      ensures var ns := Namespace(databaseName, collectionName);
              var doc := WithGeneratedId(newUnit, generatedId);
              if Conflicts(old(Collection(ns)), doc) then
                result == Failure(DuplicateKey) && database == old(database)
              else
                result == Success(doc) && database == old(database)[ns := old(Collection(ns)) + [doc]]
    {
      var ns := Namespace(databaseName, collectionName);
      var doc := WithGeneratedId(newUnit, generatedId);
      var s := Collection(ns);
      if Conflicts(s, doc) {
        result := Failure(DuplicateKey);
      } else {
        CollectionKeyed(ns);
        AppendKeepsKeyed(s, doc);
        database := database[ns := s + [doc]];
        result := Success(doc);
      }
    }

    /**
     * UpdateAsync: UpdateOne on the first document the filter holds for.
     * True iff a document matched and the update changed it; an update that
     * would duplicate the unique field raises a write error and writes nothing.
     */
    method UpdateAsync(filterExpression: Record<D, S> -> bool, updateDefinition: UpdateDefinition<D, S>,
                       databaseName: string, collectionName: string)
      returns (result: Result<bool, WriteError>)
      requires Valid()
      modifies this
      ensures Valid()
      ensures var ns := Namespace(databaseName, collectionName);
              var s := old(Collection(ns));
              match FirstIndex(s, filterExpression)
              case None => result == Success(false) && database == old(database)
              case Some(i) =>
                var updated := ApplyUpdate(updateDefinition, s[i]);
                if updated == s[i] then
                  result == Success(false) && database == old(database)
                else if exists j :: 0 <= j < |s| && j != i && Collide(s[j], updated) then
                  result == Failure(DuplicateKey) && database == old(database)
                else
                  result == Success(true) && database == old(database)[ns := s[i := updated]]
    {
      var ns := Namespace(databaseName, collectionName);
      var s := Collection(ns);
      var found := FirstIndex(s, filterExpression);
      if found.None? {
        result := Success(false);
      } else {
        var i := found.value;
        var updated := ApplyUpdate(updateDefinition, s[i]);
        if updated == s[i] {
          result := Success(false);
        } else if exists j :: 0 <= j < |s| && j != i && Collide(s[j], updated) {
          result := Failure(DuplicateKey);
        } else {
          CollectionKeyed(ns);
          ReplaceKeepsKeyed(s, i, updated);
          database := database[ns := s[i := updated]];
          result := Success(true);
        }
      }
    }

    /** DeleteAsync: FindOneAndDelete on Eq(criteria, value); the removed document, or null with nothing removed. */
    method DeleteAsync<F(==)>(criteria: Record<D, S> -> F, field: F, databaseName: string, collectionName: string)
      returns (r: Option<Record<D, S>>)
      requires Valid()
      modifies this
      ensures Valid()
      ensures var ns := Namespace(databaseName, collectionName);
              var s := old(Collection(ns));
              match FirstIndexWith(s, criteria, field)
              case None => r.None? && database == old(database)
              case Some(i) => r == Some(s[i]) && database == old(database)[ns := RemoveAt(s, i)]
    {
      var ns := Namespace(databaseName, collectionName);
      var s := Collection(ns);
      var found := FirstIndexWith(s, criteria, field);
      if found.None? {
        r := None;
      } else {
        var i := found.value;
        CollectionKeyed(ns);
        RemoveKeepsKeyed(s, i);
        database := database[ns := RemoveAt(s, i)];
        r := Some(s[i]);
      }
    }
  }
}
