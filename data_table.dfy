/** The client-side table of src/components/DataTable.jsx: a search box over all
    columns, a fixed page size of 8, and previous/next buttons. The component's `q`
    and `page` state and its `rows`/`columns` props are the fields of a
    `DataTableState`; the event handlers are its methods. */
module DataTable {
  import opened Js
  import opened Text
  import opened Seqs
  import Table

  const PageSize: int := 8

  /** The `filtered` memo. A blank `q` keeps every row; otherwise a row stays when some
      column's text contains `q.toLowerCase()`, with `q` NOT trimmed. */
  function FilterRows(rows: seq<Record>, columns: seq<string>, q: string): (r: seq<Record>)
    ensures AllWhitespace(q) ==> r == rows
    ensures !AllWhitespace(q) ==>
      forall x :: x in r <==> x in rows && Table.SomeFieldMatches(x, columns, Lower(q))
    ensures IsSubsequence(r, rows) && |r| <= |rows|
  {
    if Trim(q) == "" then
      SubsequenceOfSelf(rows);
      rows
    else
      Table.KeepMatching(rows, columns, Lower(q))
  }

  /** On a query without surrounding whitespace the table filters exactly as `filterByQuery`. */
  lemma FilterRowsAgreesWithFilterByQuery(rows: seq<Record>, columns: seq<string>, q: string)
    requires q == [] || (!IsWhitespace(q[0]) && !IsWhitespace(q[|q| - 1]))
    ensures FilterRows(rows, columns, q) == Table.FilterByQuery(rows, Some(q), columns)
  {
    TrimNoSurroundingSpace(q);
  }

  /** The row the two filters disagree on. */
  function SampleRow(): Record {
    map["nombre" := Str("ab")]
  }

  /** "ab" does not contain " b" ... */
  lemma SpacedQueryAbsent()
    ensures !Contains("ab", " b")
  {
    assert "ab"[0] != " b"[0];
    assert "ab"[1..] == "b";
    assert "b"[1..] == "";
  }

  /** ... but contains "b". */
  lemma TrimmedQueryPresent()
    ensures Contains("ab", "b")
  {
    assert "ab"[1..] == "b";
    assert StartsWith("b", "b");
  }

  lemma SampleRowText()
    ensures Lower(Table.FieldText(SampleRow(), "nombre")) == "ab"
  {
    assert Table.FieldText(SampleRow(), "nombre") == "ab";
    LowerFixes("ab");
  }

  /** A query that starts with a space, as typed, matches no row whose searched columns hold
      no space, however the rest of the query reads. */
  lemma SpacedQueryMissesUnspacedRows(rows: seq<Record>, columns: seq<string>, q: string)
    requires q != [] && q[0] == ' ' && !AllWhitespace(q)
    requires forall x, i :: x in rows && 0 <= i < |columns| ==> ' ' !in Table.FieldText(x, columns[i])
    ensures FilterRows(rows, columns, q) == []
  {
    var r := FilterRows(rows, columns, q);
    var needle := Lower(q);
    assert needle[0] == ' ';
    forall x | x in rows ensures !Table.SomeFieldMatches(x, columns, needle) {
      if Table.SomeFieldMatches(x, columns, needle) {
        var i :| 0 <= i < |columns| && Table.FieldMatches(x, columns[i], needle);
        var text := Table.FieldText(x, columns[i]);
        ContainsFirst(Lower(text), needle);
        var j :| 0 <= j < |text| && Lower(text)[j] == ' ';
        assert false;
      }
    }
    NoMemberEmpty(r);
  }

  /** The table looks for " b" as typed, and "ab" does not contain it. */
  lemma TableMissesSpacedQuery()
    ensures FilterRows([SampleRow()], ["nombre"], " b") == []
  {
    var row := SampleRow();
    LowerFixes(" b");
    SampleRowText();
    SpacedQueryAbsent();
    assert !Table.FieldMatches(row, ["nombre"][0], " b");
    assert !Table.SomeFieldMatches(row, ["nombre"], " b");
    assert !AllWhitespace(" b") by {
      assert !IsWhitespace(" b"[1]);
    }
  }

  lemma SpacedQueryNormalized()
    ensures Table.NormalizedQuery(Some(" b")) == "b"
  {
    assert " b"[0] == ' ' && " b"[1..] == "b";
    TrimStartIdentity("b");
    assert TrimStart(" b") == "b";
    TrimEndIdentity("b");
    LowerFixes("b");
  }

  /** `filterByQuery` trims " b" to "b", which "ab" contains. */
  lemma FilterByQueryFindsSpacedQuery()
    ensures Table.FilterByQuery([SampleRow()], Some(" b"), ["nombre"]) == [SampleRow()]
  {
    var row := SampleRow();
    SpacedQueryNormalized();
    SampleRowText();
    TrimmedQueryPresent();
    assert Table.FieldMatches(row, ["nombre"][0], "b");
    assert Table.SomeFieldMatches(row, ["nombre"], "b");
    var kept := Table.FilterByQuery([row], Some(" b"), ["nombre"]);
    assert row in kept;
  }

  /** `filtered.slice((p - 1) * pageSize, p * pageSize)` for an existing page `p`. */
  function PageRows(f: seq<Record>, p: int): (r: seq<Record>)
    requires 1 <= p <= Table.PageCount(|f|, PageSize)
    ensures |r| <= PageSize
    ensures r == [] <==> |f| == 0
    ensures forall k :: 0 <= k < |r| ==>
      Table.PageStart(p, PageSize) + k < |f| && r[k] == f[Table.PageStart(p, PageSize) + k]
  {
    Table.PageStartNext(p, PageSize);
    assert |f| > 0 ==> Table.PageStart(p, PageSize) < |f| by {
      if |f| > 0 {
        Table.PageStartInRange(|f|, PageSize, p);
      }
    }
    Table.SliceClamped(f, Table.PageStart(p, PageSize), Table.PageStart(p + 1, PageSize))
  }

  class DataTableState {
    var rows: seq<Record>
    var columns: seq<string>
    var q: string
    var page: int

    /** `page` starts at 1 and every handler keeps it at least 1. */
    ghost predicate Valid()
      reads this
    {
      page >= 1
    }

    constructor (rows: seq<Record>, columns: seq<string>)
      ensures Valid()
      ensures this.rows == rows && this.columns == columns && q == "" && page == 1
    {
      this.rows := rows;
      this.columns := columns;
      q := "";
      page := 1;
    }

    function Filtered(): (r: seq<Record>)
      reads this
      ensures IsSubsequence(r, rows)
    {
      FilterRows(rows, columns, q)
    }

    /** `Math.max(1, Math.ceil(filtered.length / pageSize))` */
    function TotalPages(): (n: int)
      reads this
      ensures n >= 1
      ensures |Filtered()| == 0 ==> n == 1
      ensures |Filtered()| > 0 ==> (n - 1) * PageSize < |Filtered()| <= n * PageSize
    {
      Table.PageCount(|Filtered()|, PageSize)
    }

    /** `Math.min(page, totalPages)` */
    function SafePage(): (p: int)
      reads this
      requires Valid()
      ensures 1 <= p <= TotalPages()
      ensures page <= TotalPages() ==> p == page
      ensures page > TotalPages() ==> p == TotalPages()
    {
      if page <= TotalPages() then page else TotalPages()
    }

    /** The rows shown: `filtered.slice((safePage - 1) * pageSize, safePage * pageSize)`. */
    function Paged(): (r: seq<Record>)
      reads this
      requires Valid()
      ensures |r| <= PageSize
      ensures r == [] <==> |Filtered()| == 0
      ensures forall k :: 0 <= k < |r| ==>
        Table.PageStart(SafePage(), PageSize) + k < |Filtered()| &&
        r[k] == Filtered()[Table.PageStart(SafePage(), PageSize) + k]
    {
      PageRows(Filtered(), SafePage())
    }

    /** The table shows the same page `paginate` would serve for the current page. */
    lemma PagedIsPaginate()
      requires Valid()
      ensures Paged() == Table.Paginate(Filtered(), page, PageSize).slice
    {
      var r := Table.Paginate(Filtered(), page, PageSize);
      assert r.page == SafePage();
      Table.PageStartNext(r.page, PageSize);
    }

    /** `safePage <= 1` disables "Anterior". */
    predicate PreviousDisabled()
      reads this
      requires Valid()
    {
      SafePage() <= 1
    }

    /** `safePage >= totalPages` disables "Siguiente". */
    predicate NextDisabled()
      reads this
      requires Valid()
    {
      SafePage() >= TotalPages()
    }

    /** The "Sin resultados" row: shown when the page is empty, which is when nothing matched. */
    predicate ShowsNoResults()
      reads this
      requires Valid()
      ensures ShowsNoResults() <==> |Filtered()| == 0
    {
      |Paged()| == 0
    }

    /** "N registros" counts every matching row, not only the ones on this page. */
    function RecordCount(): (n: nat)
      reads this
      requires Valid()
      ensures n == |Filtered()| && n >= |Paged()|
      ensures n <= |rows|
    {
      |Filtered()|
    }

    /** The page the user asked for exists. */
    ghost predicate InRange()
      reads this
    {
      1 <= page <= TotalPages()
    }

    /** The search box's `onChange`: store the text and go back to page 1. */
    method OnSearchChange(text: string)
      requires Valid()
      modifies this
      ensures Valid() && InRange()
      ensures q == text && page == 1
      ensures rows == old(rows) && columns == old(columns)
    {
      q := text;
      page := 1;
    }

    /** "Anterior": `setPage(p => Math.max(1, p - 1))`, unless the button is disabled. */
    method ClickPrevious()
      requires Valid()
      modifies this
      ensures Valid() && (old(InRange()) ==> InRange())
      ensures page == if old(PreviousDisabled()) then old(page) else if old(page) - 1 >= 1 then old(page) - 1 else 1
      ensures q == old(q) && rows == old(rows) && columns == old(columns)
    {
      if !PreviousDisabled() {
        page := if page - 1 >= 1 then page - 1 else 1;
      }
    }

    /** "Siguiente": `setPage(p => Math.min(totalPages, p + 1))`, unless the button is disabled. */
    method ClickNext()
      requires Valid()
      modifies this
      ensures Valid() && (old(InRange()) ==> InRange())
      ensures page == if old(NextDisabled()) then old(page) else if old(page) + 1 <= old(TotalPages()) then old(page) + 1 else old(TotalPages())
      ensures q == old(q) && rows == old(rows) && columns == old(columns)
    {
      if !NextDisabled() {
        var total := TotalPages();
        page := if page + 1 <= total then page + 1 else total;
      }
    }

    /** New `rows`/`columns` props from the parent keep the query and the page; a page
        beyond the new end is shown as the last one through `SafePage`. */
    method ReceiveProps(rows: seq<Record>, columns: seq<string>)
      requires Valid()
      modifies this
      ensures Valid()
      ensures this.rows == rows && this.columns == columns
      ensures q == old(q) && page == old(page)
    {
      this.rows := rows;
      this.columns := columns;
    }
  }
}
