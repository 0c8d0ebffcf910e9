/** The list utilities of src/utils/table.js: a free-text filter over chosen fields and
    clamped pagination. */
module Table {
  import opened Js
  import opened Text
  import opened Seqs

  /** `String(it?.[f] ?? "")`, the text a field is searched (and shown) as. */
  function FieldText(r: Record, f: string): string {
    NullishToEmpty(Get(r, f))
  }

  /** The lowercased text of field `f` of `r` contains `needle`. */
  predicate FieldMatches(r: Record, f: string, needle: string) {
    Contains(Lower(FieldText(r, f)), needle)
  }

  /** `fields.some(f => String(it?.[f] ?? "").toLowerCase().includes(needle))` */
  predicate SomeFieldMatches(r: Record, fields: seq<string>, needle: string) {
    exists i :: 0 <= i < |fields| && FieldMatches(r, fields[i], needle)
  }

  /** The rows `items.filter(it => SomeFieldMatches(it, fields, needle))` keeps. */
  function KeepMatching(items: seq<Record>, fields: seq<string>, needle: string): (r: seq<Record>)
    ensures IsSubsequence(r, items)
    ensures forall x :: x in r <==> x in items && SomeFieldMatches(x, fields, needle)
  {
    FilterIsSubsequence(items, x => SomeFieldMatches(x, fields, needle));
    Filter(items, x => SomeFieldMatches(x, fields, needle))
  }

  /** `(query || "").trim().toLowerCase()`; `None` stands for a null or undefined query. */
  function NormalizedQuery(query: Option<string>): string {
    match query
    case None => ""
    case Some(q) => Lower(Trim(q))
  }

  /** `filterByQuery(items, query, fields)` */
  function FilterByQuery(items: seq<Record>, query: Option<string>, fields: seq<string>): (r: seq<Record>)
    ensures NormalizedQuery(query) == "" ==> r == items
    ensures NormalizedQuery(query) != "" ==>
      forall x :: x in r <==> x in items && SomeFieldMatches(x, fields, NormalizedQuery(query))
    ensures IsSubsequence(r, items) && |r| <= |items|
  {
    var q := NormalizedQuery(query);
    if q == "" then
      SubsequenceOfSelf(items);
      items
    else
      KeepMatching(items, fields, q)
  }

  /** The screens' search: `q = query.trim().toLowerCase()`; when `q` is non-empty keep the rows
      whose `text`, lowercased, contains it, and otherwise keep them all. */
  function SearchBy(items: seq<Record>, query: string, text: Record -> string): (r: seq<Record>)
    ensures Lower(Trim(query)) == "" ==> r == items
    ensures Lower(Trim(query)) != "" ==>
      forall x :: x in r <==> x in items && Contains(Lower(text(x)), Lower(Trim(query)))
    ensures IsSubsequence(r, items) && multiset(r) <= multiset(items)
  {
    var q := Lower(Trim(query));
    if q == "" then
      SubsequenceOfSelf(items);
      items
    else
      FilterIsSubsequence(items, x => Contains(Lower(text(x)), q));
      Filter(items, x => Contains(Lower(text(x)), q))
  }

  /** A search every row passes gives the rows back unchanged. */
  lemma SearchByKeepsAll(items: seq<Record>, query: string, q: string, text: Record -> string)
    requires q == Lower(Trim(query))
    requires forall i :: 0 <= i < |items| ==> Contains(Lower(text(items[i])), q)
    ensures SearchBy(items, query, text) == items
  {
    if q != "" {
      FilterKeepsAll(items, x => Contains(Lower(text(x)), q));
    }
  }

  /** A row passes `SearchBy` for `query`. */
  predicate SearchAdmits(query: string, text: Record -> string, x: Record) {
    Lower(Trim(query)) == "" || Contains(Lower(text(x)), Lower(Trim(query)))
  }

  /** A query that is missing, empty or only whitespace is no filter at all. */
  lemma BlankQueryKeepsAll(items: seq<Record>, query: Option<string>, fields: seq<string>)
    requires query == None || AllWhitespace(query.value)
    ensures FilterByQuery(items, query, fields) == items
  {
  }

  /** Filtering the result again with the same query changes nothing. */
  lemma FilterByQueryIdempotent(items: seq<Record>, query: Option<string>, fields: seq<string>)
    ensures FilterByQuery(FilterByQuery(items, query, fields), query, fields) == FilterByQuery(items, query, fields)
  {
    var q := NormalizedQuery(query);
    if q != "" {
      FilterIdempotent(items, x => SomeFieldMatches(x, fields, q));
    }
  }

  /** Every kept row has a field containing the query, and each such row of the input is kept. */
  lemma FilterByQueryExact(items: seq<Record>, query: Option<string>, fields: seq<string>, k: nat)
    requires NormalizedQuery(query) != "" && k < |items|
    ensures items[k] in FilterByQuery(items, query, fields) <==> SomeFieldMatches(items[k], fields, NormalizedQuery(query))
  {
  }

  /** `Math.ceil(total / pageSize)` for a positive page size. */
  function CeilDiv(total: nat, pageSize: int): (n: nat)
    requires pageSize >= 1
    ensures (n - 1) * pageSize < total <= n * pageSize || (total == 0 && n == 0)
  {
    (total + pageSize - 1) / pageSize
  }

  /** `Math.max(1, Math.ceil(total / pageSize))` */
  function PageCount(total: nat, pageSize: int): (pages: int)
    requires pageSize >= 1
    ensures pages >= 1
    ensures total == 0 ==> pages == 1
    ensures total > 0 ==> (pages - 1) * pageSize < total <= pages * pageSize
  {
    var n := CeilDiv(total, pageSize);
    if n > 1 then n else 1
  }

  /** `Math.min(Math.max(1, page), pages)` */
  function ClampPage(page: int, pages: int): (p: int)
    requires pages >= 1
    ensures 1 <= p <= pages
    ensures 1 <= page <= pages ==> p == page
    ensures page < 1 ==> p == 1
    ensures page > pages ==> p == pages
  {
    if page < 1 then 1 else if page > pages then pages else page
  }

  lemma MulMonotone(a: int, b: int, c: nat)
    requires a <= b
    ensures a * c <= b * c
  {
    var d := b - a;
    assert b * c == a * c + d * c;
  }

  /** A page within range starts inside a non-empty list. */
  lemma {:induction false} PageStartInRange(total: nat, pageSize: int, p: int)
    requires pageSize >= 1 && total > 0
    requires 1 <= p <= PageCount(total, pageSize)
    ensures (p - 1) * pageSize < total
  {
    MulMonotone(0, p - 1, pageSize);
    MulMonotone(p - 1, PageCount(total, pageSize) - 1, pageSize);
  }

  /** `(p - 1) * pageSize`, where page `p` begins. */
  function PageStart(p: int, pageSize: int): (start: nat)
    requires p >= 1 && pageSize >= 1
    ensures start == (p - 1) * pageSize
  {
    MulMonotone(0, p - 1, pageSize);
    (p - 1) * pageSize
  }

  datatype PageResult<T> = PageResult(page: int, pages: int, total: int, slice: seq<T>)

  /** `items.slice(start, end)` for `0 <= start`: both ends clamped to the length. */
  function SliceClamped<T>(items: seq<T>, start: nat, end: nat): (r: seq<T>)
    ensures |r| <= if end >= start then end - start else 0
    ensures start < |items| && start < end ==> r != []
    ensures forall k :: 0 <= k < |r| ==> start + k < |items| && r[k] == items[start + k]
    ensures end <= |items| && start <= end ==> |r| == end - start
    ensures start <= |items| <= end ==> |r| == |items| - start
    ensures start >= |items| ==> r == []
  {
    var lo := if start <= |items| then start else |items|;
    var hi := if end <= |items| then end else |items|;
    if lo <= hi then items[lo..hi] else []
  }

  /** `paginate(items, page, pageSize)` */
  function Paginate<T>(items: seq<T>, page: int, pageSize: int): (r: PageResult<T>)
    requires pageSize >= 1
    ensures r.total == |items| && r.pages == PageCount(|items|, pageSize)
    ensures r.page == ClampPage(page, r.pages)
    ensures |r.slice| <= pageSize
    ensures r.slice == [] <==> |items| == 0
    ensures forall k :: 0 <= k < |r.slice| ==>
      PageStart(r.page, pageSize) + k < |items| && r.slice[k] == items[PageStart(r.page, pageSize) + k]
  {
    var total := |items|;
    var pages := PageCount(total, pageSize);
    var p := ClampPage(page, pages);
    var start := PageStart(p, pageSize);
    var slice := SliceClamped(items, start, start + pageSize);
    assert total > 0 ==> start < total by {
      if total > 0 {
        PageStartInRange(total, pageSize, p);
      }
    }
    assert forall k :: 0 <= k < |slice| ==> slice[k] == items[start + k];
    PageResult(p, pages, total, slice)
  }

  /** The slices of pages 1 to `n`, one after the other. */
  function PagesUpTo<T>(items: seq<T>, pageSize: int, n: nat): seq<T>
    requires pageSize >= 1
  {
    if n == 0 then [] else PagesUpTo(items, pageSize, n - 1) + Paginate(items, n, pageSize).slice
  }

  function Min(a: int, b: int): int {
    if a <= b then a else b
  }

  lemma PageStartNext(n: int, pageSize: int)
    requires n >= 1 && pageSize >= 1
    ensures PageStart(n + 1, pageSize) == PageStart(n, pageSize) + pageSize
  {
    assert n * pageSize == (n - 1) * pageSize + pageSize;
  }

  /** Page `n` of a non-empty list is the run of items from its start to the next page's start. */
  lemma PageSliceIsRange<T>(items: seq<T>, pageSize: int, n: int)
    requires pageSize >= 1 && |items| > 0
    requires 1 <= n <= PageCount(|items|, pageSize)
    ensures PageStart(n, pageSize) < |items|
    ensures Paginate(items, n, pageSize).slice
         == items[PageStart(n, pageSize)..Min(PageStart(n + 1, pageSize), |items|)]
  {
    PageStartInRange(|items|, pageSize, n);
    PageStartNext(n, pageSize);
    var r := Paginate(items, n, pageSize);
    assert r.page == n;
  }

  lemma {:induction false} PagesUpToPrefix<T>(items: seq<T>, pageSize: int, n: nat)
    requires pageSize >= 1
    requires n <= PageCount(|items|, pageSize)
    ensures PagesUpTo(items, pageSize, n) == items[..Min(PageStart(n + 1, pageSize), |items|)]
  {
    if n == 0 {
      assert PageStart(1, pageSize) == 0;
    } else if |items| == 0 {
      assert Paginate(items, n, pageSize).slice == [];
      PagesUpToPrefix(items, pageSize, n - 1);
    } else {
      PagesUpToPrefix(items, pageSize, n - 1);
      PagesUpToStep(items, pageSize, n);
    }
  }

  lemma PrefixThenRange<T>(items: seq<T>, prefix: seq<T>, range: seq<T>, start: nat, hi: nat)
    requires start <= hi <= |items| && prefix == items[..start] && range == items[start..hi]
    ensures prefix + range == items[..hi]
  {
    assert items[..hi] == items[..start] + items[start..hi];
  }

  /** One more page extends the prefix shown so far by that page's slice. */
  lemma PagesUpToStep<T>(items: seq<T>, pageSize: int, n: nat)
    requires pageSize >= 1 && |items| > 0 && 1 <= n <= PageCount(|items|, pageSize)
    requires PagesUpTo(items, pageSize, n - 1) == items[..Min(PageStart(n, pageSize), |items|)]
    ensures PagesUpTo(items, pageSize, n) == items[..Min(PageStart(n + 1, pageSize), |items|)]
  {
    PageSliceIsRange(items, pageSize, n);
    var start := PageStart(n, pageSize);
    var hi := Min(PageStart(n + 1, pageSize), |items|);
    var slice := Paginate(items, n, pageSize).slice;
    PrefixThenRange(items, PagesUpTo(items, pageSize, n - 1), slice, start, hi);
    assert PagesUpTo(items, pageSize, n) == PagesUpTo(items, pageSize, n - 1) + slice;
  }

  /** Walking through every page shows every item exactly once, in order. */
  lemma AllPagesReproduceItems<T>(items: seq<T>, pageSize: int)
    requires pageSize >= 1
    ensures PagesUpTo(items, pageSize, PageCount(|items|, pageSize)) == items
  {
    var pages := PageCount(|items|, pageSize);
    PagesUpToPrefix(items, pageSize, pages);
    assert PageStart(pages + 1, pageSize) == pages * pageSize;
    assert items[..|items|] == items;
  }

  /** An empty list always yields page 1 of 1 with nothing on it. */
  lemma PaginateEmpty<T>(items: seq<T>, page: int, pageSize: int)
    requires pageSize >= 1 && items == []
    ensures Paginate(items, page, pageSize) == PageResult(1, 1, 0, [])
  {
  }
}
