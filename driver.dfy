/**
 * What the MongoDB driver does with the definitions the services build:
 * filter definitions and their matching, sort definitions and the order they
 * impose, Skip/Limit paging, and the "first document that matches" choice of
 * Find(..).FirstOrDefault, FindOneAndDelete and UpdateOne. Documents are of
 * any type T; `el(d, path)` reads the value at a dotted field path of d, or
 * None when d has no such field.
 */
module Driver {
  import opened Wrappers
  import opened Bson

  /** Builders<T>.Filter: Empty, Eq, Gte, Lte and the conjunction `&`. */
  datatype FilterDefinition =
    | Empty
    | Eq(field: string, value: Value)
    | Gte(field: string, bound: Value)
    | Lte(field: string, bound: Value)
    | And(left: FilterDefinition, right: FilterDefinition)

  /**
   * Whether a document satisfies a filter. Range bounds only match values of
   * the bound's own type (a date bound never matches a string field).
   */
  predicate Matches<T>(f: FilterDefinition, el: (T, string) -> Option<Value>, d: T) {
    match f
    case Empty => true
    case Eq(p, v) => el(d, p) == Some(v)
    case Gte(p, v) =>
      el(d, p).Some? && Rank(el(d, p)) == Rank(Some(v)) && LexLeq(Code(Some(v)), Code(el(d, p)))
    case Lte(p, v) =>
      el(d, p).Some? && Rank(el(d, p)) == Rank(Some(v)) && LexLeq(Code(el(d, p)), Code(Some(v)))
    case And(l, r) => Matches(l, el, d) && Matches(r, el, d)
  }

  /** The conjunction Eq(fields[0], values[0]) & ... & Eq(fields[n-1], values[n-1]), built left to right from Empty. */
  function EqualityFilter(fields: seq<string>, values: seq<string>, n: nat): FilterDefinition
    requires n <= |fields| && n <= |values|
  {
    if n == 0 then Empty else And(EqualityFilter(fields, values, n - 1), Eq(fields[n - 1], Str(values[n - 1])))
  }

  /** Each of the first n fields of d holds the string at the same position of values. */
  predicate FieldsEqual<T>(fields: seq<string>, values: seq<string>, n: nat, el: (T, string) -> Option<Value>, d: T)
    requires n <= |fields| && n <= |values|
  {
    forall i :: 0 <= i < n ==> el(d, fields[i]) == Some(Str(values[i]))
  }

  /** The built conjunction matches exactly the documents whose fields all equal their values. */
  lemma {:induction false} EqualityFilterMeaning<T>(fields: seq<string>, values: seq<string>, n: nat, el: (T, string) -> Option<Value>, d: T)
    requires n <= |fields| && n <= |values|
    ensures Matches(EqualityFilter(fields, values, n), el, d) <==> FieldsEqual(fields, values, n, el, d)
  {
    if n > 0 {
      EqualityFilterMeaning(fields, values, n - 1, el, d);
    }
  }

  /** collection.Find(filter): the matching documents, in collection order. */
  function Find<T(!new)>(s: seq<T>, el: (T, string) -> Option<Value>, f: FilterDefinition): (r: seq<T>)
    ensures |r| <= |s|
    ensures forall d :: d in r <==> d in s && Matches(f, el, d)
  {
    if s == [] then []
    else (if Matches(f, el, s[0]) then [s[0]] else []) + Find(s[1..], el, f)
  }

  /** Two filters with the same meaning select the same documents. */
  lemma {:induction false} FindCongruent<T(!new)>(s: seq<T>, el: (T, string) -> Option<Value>, f: FilterDefinition, g: FilterDefinition)
    requires forall d :: d in s ==> (Matches(f, el, d) <==> Matches(g, el, d))
    ensures Find(s, el, f) == Find(s, el, g)
  {
    if s != [] {
      FindCongruent(s[1..], el, f, g);
    }
  }

  /** The empty filter selects the whole collection. */
  lemma {:induction false} FindEmpty<T(!new)>(s: seq<T>, el: (T, string) -> Option<Value>)
    ensures Find(s, el, Empty) == s
  {
    if s != [] {
      FindEmpty(s[1..], el);
    }
  }

  /** Builders<T>.Sort: ascending or descending on one field path. */
  datatype SortDefinition = Ascending(field: string) | Descending(field: string)

  /** Whether a may come before b under a sort definition. */
  predicate InOrder<T>(order: SortDefinition, el: (T, string) -> Option<Value>, a: T, b: T) {
    match order
    case Ascending(p) => KeyLeq(el(a, p), el(b, p))
    case Descending(p) => KeyLeq(el(b, p), el(a, p))
  }

  predicate SortedBy<T>(order: SortDefinition, el: (T, string) -> Option<Value>, s: seq<T>) {
    forall i, j :: 0 <= i < j < |s| ==> InOrder(order, el, s[i], s[j])
  }

  lemma InOrderTotal<T>(order: SortDefinition, el: (T, string) -> Option<Value>, a: T, b: T)
    ensures InOrder(order, el, a, b) || InOrder(order, el, b, a)
  {
    KeyLeqTotal(el(a, order.field), el(b, order.field));
  }

  lemma InOrderTransitive<T>(order: SortDefinition, el: (T, string) -> Option<Value>, a: T, b: T, c: T)
    requires InOrder(order, el, a, b) && InOrder(order, el, b, c)
    ensures InOrder(order, el, a, c)
  {
    var p := order.field;
    if order.Ascending? {
      KeyLeqTransitive(el(a, p), el(b, p), el(c, p));
    } else {
      KeyLeqTransitive(el(c, p), el(b, p), el(a, p));
    }
  }

  /** Places x before the first element it may precede. */
  function Insert<T>(order: SortDefinition, el: (T, string) -> Option<Value>, x: T, s: seq<T>): seq<T> {
    if s == [] then [x]
    else if InOrder(order, el, x, s[0]) then [x] + s
    else [s[0]] + Insert(order, el, x, s[1..])
  }

  /**
   * .Sort(order): the documents ordered by the sort field. The store gives no
   * tie-break; this order keeps tied documents in collection order.
   */
  function SortDocs<T>(order: SortDefinition, el: (T, string) -> Option<Value>, s: seq<T>): seq<T> {
    if s == [] then [] else Insert(order, el, s[0], SortDocs(order, el, s[1..]))
  }

  /** x may come before every element of s. */
  predicate LowerBound<T>(order: SortDefinition, el: (T, string) -> Option<Value>, x: T, s: seq<T>) {
    forall k :: 0 <= k < |s| ==> InOrder(order, el, x, s[k])
  }

  lemma SortedCons<T>(order: SortDefinition, el: (T, string) -> Option<Value>, a: T, t: seq<T>)
    requires LowerBound(order, el, a, t) && SortedBy(order, el, t)
    ensures SortedBy(order, el, [a] + t)
  {
  }

  lemma {:induction false} InsertPermutes<T>(order: SortDefinition, el: (T, string) -> Option<Value>, x: T, s: seq<T>)
    ensures multiset(Insert(order, el, x, s)) == multiset(s) + multiset{x}
  {
    if s != [] && !InOrder(order, el, x, s[0]) {
      InsertPermutes(order, el, x, s[1..]);
      assert s == [s[0]] + s[1..];
    }
  }

  lemma {:induction false} InsertKeepsLowerBound<T>(order: SortDefinition, el: (T, string) -> Option<Value>, y: T, x: T, s: seq<T>)
    requires LowerBound(order, el, y, s) && InOrder(order, el, y, x)
    ensures LowerBound(order, el, y, Insert(order, el, x, s))
  {
    if s != [] && !InOrder(order, el, x, s[0]) {
      InsertKeepsLowerBound(order, el, y, x, s[1..]);
    }
  }

  lemma {:induction false} InsertSorted<T>(order: SortDefinition, el: (T, string) -> Option<Value>, x: T, s: seq<T>)
    requires SortedBy(order, el, s)
    ensures SortedBy(order, el, Insert(order, el, x, s))
  {
    if s == [] {
    } else if InOrder(order, el, x, s[0]) {
      forall k | 0 <= k < |s|
        ensures InOrder(order, el, x, s[k])
      {
        if k > 0 {
          InOrderTransitive(order, el, x, s[0], s[k]);
        }
      }
      SortedCons(order, el, x, s);
    } else {
      InsertSorted(order, el, x, s[1..]);
      InOrderTotal(order, el, x, s[0]);
      InsertKeepsLowerBound(order, el, s[0], x, s[1..]);
      SortedCons(order, el, s[0], Insert(order, el, x, s[1..]));
    }
  }

  /** The sorted result is ordered by the sort definition and holds exactly the input documents. */
  lemma {:induction false} SortDocsSorted<T>(order: SortDefinition, el: (T, string) -> Option<Value>, s: seq<T>)
    ensures SortedBy(order, el, SortDocs(order, el, s))
    ensures multiset(SortDocs(order, el, s)) == multiset(s)
  {
    if s != [] {
      SortDocsSorted(order, el, s[1..]);
      InsertSorted(order, el, s[0], SortDocs(order, el, s[1..]));
      InsertPermutes(order, el, s[0], SortDocs(order, el, s[1..]));
      assert s == [s[0]] + s[1..];
    }
  }

  /** Any slice of a sorted sequence, a page in particular, is sorted. */
  lemma SliceSorted<T>(order: SortDefinition, el: (T, string) -> Option<Value>, s: seq<T>, lo: int, hi: int)
    requires 0 <= lo <= hi <= |s|
    requires SortedBy(order, el, s)
    ensures SortedBy(order, el, s[lo..hi])
  {
  }

  /** No document occurs twice. */
  predicate Distinct<T(==)>(s: seq<T>) {
    forall i, j :: 0 <= i < j < |s| ==> s[i] != s[j]
  }

  lemma {:induction false} DistinctByMultiplicity<T>(s: seq<T>)
    ensures Distinct(s) <==> forall x :: multiset(s)[x] <= 1
  {
    if s != [] {
      DistinctByMultiplicity(s[1..]);
      assert s == [s[0]] + s[1..];
      if Distinct(s) {
        assert s[0] !in s[1..];
      } else {
        var i, j :| 0 <= i < j < |s| && s[i] == s[j];
        if i > 0 {
          assert !Distinct(s[1..]) by { assert s[1..][i - 1] == s[1..][j - 1]; }
          var x :| multiset(s[1..])[x] > 1;
          assert multiset(s)[x] >= multiset(s[1..])[x];
        } else {
          assert s[0] in s[1..] by { assert s[1..][j - 1] == s[0]; }
          assert multiset(s)[s[0]] >= 2;
        }
      }
    }
  }

  /** Sorting neither adds nor duplicates documents. */
  lemma SortDocsDistinct<T>(order: SortDefinition, el: (T, string) -> Option<Value>, s: seq<T>)
    requires Distinct(s)
    ensures Distinct(SortDocs(order, el, s))
  {
    SortDocsSorted(order, el, s);
    DistinctByMultiplicity(s);
    DistinctByMultiplicity(SortDocs(order, el, s));
  }

  lemma {:induction false} FindDistinct<T(!new)>(s: seq<T>, el: (T, string) -> Option<Value>, f: FilterDefinition)
    requires Distinct(s)
    ensures Distinct(Find(s, el, f))
  {
    if s != [] {
      FindDistinct(s[1..], el, f);
      assert s[0] !in s[1..];
    }
  }

  /** .Skip(n): drops the first n documents. */
  function Skip<T>(s: seq<T>, n: nat): seq<T> {
    if n <= |s| then s[n..] else []
  }

  /** .Limit(n) with n at least 1: keeps at most the first n documents. */
  function Limit<T>(s: seq<T>, n: nat): seq<T>
    requires n >= 1
  {
    if n <= |s| then s[..n] else s
  }

  function Min(a: int, b: int): int {
    if a <= b then a else b
  }

  /** Skip((page - 1) * size).Limit(size) on a 1-based page number. */
  function PageOf<T>(s: seq<T>, page: int, size: int): seq<T>
    requires page >= 1 && size >= 1
  {
    Limit(Skip(s, (page - 1) * size), size)
  }

  /** Skip(n).Limit(size) is the slice of positions [n, n+size), cut at the end of s. */
  lemma SkipLimitIsSlice<T>(s: seq<T>, n: nat, size: int)
    requires size >= 1
    ensures Limit(Skip(s, n), size) == s[Min(n, |s|)..Min(n + size, |s|)]
    ensures |Limit(Skip(s, n), size)| <= size
  {
  }

  /** A page is the slice of positions [(page-1)*size, page*size), cut at the end of s. */
  lemma PageIsSlice<T>(s: seq<T>, page: int, size: int)
    requires page >= 1 && size >= 1
    ensures (page - 1) * size >= 0
    ensures PageOf(s, page, size) == s[Min((page - 1) * size, |s|)..Min(page * size, |s|)]
    ensures |PageOf(s, page, size)| <= size
  {
    var lo := (page - 1) * size;
    assert lo >= 0 by { MulNonNegative(page - 1, size); }
    assert page * size == lo + size;
  }

  lemma MulNonNegative(a: int, b: int)
    requires a >= 0 && b >= 0
    ensures a * b >= 0
  {
  }

  lemma MulMonotone(a: int, b: int, c: int)
    requires 0 <= a <= b && c >= 0
    ensures a * c <= b * c
  {
  }

  /** The prefix up to lo followed by the slice [lo, hi) is the prefix up to hi, all cut at the end of s. */
  lemma PrefixThenSlice<T>(s: seq<T>, lo: int, hi: int)
    requires 0 <= lo <= hi
    ensures s[..Min(lo, |s|)] + s[Min(lo, |s|)..Min(hi, |s|)] == s[..Min(hi, |s|)]
  {
  }

  lemma MulSucc(k: int, size: int)
    ensures (k - 1) * size + size == k * size
  {
  }

  /** On a sequence without duplicates, two different pages share no document. */
  lemma PagesDisjoint<T>(s: seq<T>, p: int, q: int, size: int)
    requires Distinct(s)
    requires 1 <= p < q && size >= 1
    ensures forall d :: d in PageOf(s, p, size) ==> d !in PageOf(s, q, size)
  {
    PageIsSlice(s, p, size);
    PageIsSlice(s, q, size);
    MulMonotone(p, q - 1, size);
    assert p * size <= (q - 1) * size;
    forall d | d in PageOf(s, p, size)
      ensures d !in PageOf(s, q, size)
    {
      var loP := Min((p - 1) * size, |s|);
      var loQ := Min((q - 1) * size, |s|);
      var i :| 0 <= i < |PageOf(s, p, size)| && PageOf(s, p, size)[i] == d;
      assert s[loP + i] == d;
    }
  }

  /** Pages 1 through k, one after another. */
  function FirstPages<T>(s: seq<T>, k: nat, size: int): seq<T>
    requires size >= 1
  {
    if k == 0 then [] else FirstPages(s, k - 1, size) + PageOf(s, k, size)
  }

  /** Reading pages 1 through k in turn yields the first k*size documents, with no gap and no repeat. */
  lemma {:induction false} FirstPagesArePrefix<T>(s: seq<T>, k: nat, size: int)
    requires size >= 1
    ensures k * size >= 0
    ensures FirstPages(s, k, size) == s[..Min(k * size, |s|)]
  {
    MulNonNegative(k, size);
    if k > 0 {
      FirstPagesArePrefix(s, k - 1, size);
      PageIsSlice(s, k, size);
      MulNonNegative(k - 1, size);
      MulSucc(k, size);
      PrefixThenSlice(s, (k - 1) * size, k * size);
    }
  }

  /** Twenty-five documents in pages of ten: pages 1 to 3 cover all of them, page 3 holds five. */
  lemma TwentyFiveInPagesOfTen<T>(s: seq<T>)
    requires |s| == 25
    ensures |PageOf(s, 1, 10)| == 10 && |PageOf(s, 2, 10)| == 10 && |PageOf(s, 3, 10)| == 5
    ensures PageOf(s, 1, 10) + PageOf(s, 2, 10) + PageOf(s, 3, 10) == s
  {
  }

  /** The position of the first element satisfying p, as the store's "first match" in collection order. */
  function FirstIndex<T>(s: seq<T>, p: T -> bool): (r: Option<nat>)
    ensures r.None? <==> forall i :: 0 <= i < |s| ==> !p(s[i])
    ensures r.Some? ==> r.value < |s| && p(s[r.value]) && forall i :: 0 <= i < r.value ==> !p(s[i])
  {
    if s == [] then None
    else if p(s[0]) then Some(0)
    else match FirstIndex(s[1..], p)
      case None => None
      case Some(i) => Some(i + 1)
  }

  /** The position of the first document whose key equals v: the document an Eq(key, v) filter selects first. */
  function FirstIndexWith<T, F(==)>(s: seq<T>, key: T -> F, v: F): (r: Option<nat>)
    ensures r.None? <==> forall i :: 0 <= i < |s| ==> key(s[i]) != v
    ensures r.Some? ==> r.value < |s| && key(s[r.value]) == v && forall i :: 0 <= i < r.value ==> key(s[i]) != v
  {
    FirstIndex(s, d => key(d) == v)
  }

  /** Find(Eq(key, v)).FirstOrDefault(): the first document whose key equals v, or null. */
  function FirstWith<T, F(==)>(s: seq<T>, key: T -> F, v: F): Option<T> {
    match FirstIndexWith(s, key, v)
    case None => None
    case Some(i) => Some(s[i])
  }

  /** A filter that holds exactly where key equals v picks the same first document as Eq(key, v). */
  lemma FirstIndexAgrees<T, F>(s: seq<T>, p: T -> bool, key: T -> F, v: F)
    requires forall d :: p(d) == (key(d) == v)
    ensures FirstIndex(s, p) == FirstIndexWith(s, key, v)
  {
  }

  /** When at most one document has key v, that document is the first one with it. */
  lemma FirstWithUnique<T, F>(s: seq<T>, key: T -> F, k: nat)
    requires k < |s|
    requires forall i, j :: 0 <= i < j < |s| ==> key(s[i]) != key(s[j])
    ensures FirstIndexWith(s, key, key(s[k])) == Some(k)
    ensures FirstWith(s, key, key(s[k])) == Some(s[k])
  {
  }

  /** s without the element at position i. */
  function RemoveAt<T>(s: seq<T>, i: nat): (r: seq<T>)
    requires i < |s|
    ensures |r| == |s| - 1
    ensures multiset(r) == multiset(s) - multiset{s[i]}
    ensures forall k :: 0 <= k < i ==> r[k] == s[k]
    ensures forall k :: i <= k < |r| ==> r[k] == s[k + 1]
  {
    assert s == s[..i] + [s[i]] + s[i + 1..];
    assert multiset(s) == multiset(s[..i]) + multiset{s[i]} + multiset(s[i + 1..]);
    s[..i] + s[i + 1..]
  }
}
