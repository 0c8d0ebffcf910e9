/** The representative's list of children in src/pages/RepresentativeDashboard.jsx: a sex
    filter, a free-text filter, four orderings, and the age column. */
module RepresentativeDashboard {
  import opened Js
  import opened Text
  import opened Seqs
  import Table
  import Children

  /** The searched text: `${nombres} ${apellidos} ${numero_documento} ${fecha_nacimiento} ${sexo}`. */
  function SearchText(c: Record): string {
    ToStr(Get(c, "nombres")) + " " + ToStr(Get(c, "apellidos")) + " " +
    ToStr(Get(c, "numero_documento")) + " " + ToStr(Get(c, "fecha_nacimiento")) + " " +
    ToStr(Get(c, "sexo"))
  }

  /** The values of the sort selector. */
  datatype SortMode = NameAsc | NameDesc | BirthAsc | BirthDesc

  /** `${apellidos} ${nombres}`, compared with `sensitivity: "base"`. */
  function NameKey(c: Record): string {
    ToStr(Get(c, "apellidos")) + " " + ToStr(Get(c, "nombres"))
  }

  /** `String(fecha_nacimiento || "")`, compared with the default sensitivity. */
  function BirthKey(c: Record): string {
    FalsyToEmpty(Get(c, "fecha_nacimiento"))
  }

  /** The `sorters` table; each `_DESC` entry compares its arguments the other way round. */
  function Sorter(mode: SortMode): (cmp: Comparator<Record>)
    ensures mode.NameAsc? || mode.NameDesc? ==> cmp.key == NameKey && cmp.collation == Base
    ensures mode.BirthAsc? || mode.BirthDesc? ==> cmp.key == BirthKey && cmp.collation == Variant
    ensures cmp.descending <==> mode.NameDesc? || mode.BirthDesc?
  {
    match mode
    case NameAsc => Comparator(NameKey, Base, false)
    case NameDesc => Comparator(NameKey, Base, true)
    case BirthAsc => Comparator(BirthKey, Variant, false)
    case BirthDesc => Comparator(BirthKey, Variant, true)
  }

  function Reverse<T>(s: seq<T>): (r: seq<T>)
    ensures |r| == |s| && forall i :: 0 <= i < |s| ==> r[i] == s[|s| - 1 - i]
  {
    seq(|s|, i requires 0 <= i < |s| => s[|s| - 1 - i])
  }

  /** A list is in Z-to-A order exactly when, read backwards, it is in A-to-Z order (and the
      same for youngest-first against oldest-first). */
  lemma DescendingIsReversedAscending(s: seq<Record>, asc: SortMode, desc: SortMode)
    requires (asc, desc) == (NameAsc, NameDesc) || (asc, desc) == (BirthAsc, BirthDesc)
    ensures Sorted(s, Sorter(desc)) <==> Sorted(Reverse(s), Sorter(asc))
  {
    var r := Reverse(s);
    var a, d := Sorter(asc), Sorter(desc);
    assert forall x, y :: d.Compare(x, y) == a.Compare(y, x);
    if Sorted(s, d) {
      forall i, j | 0 <= i < j < |r| ensures a.Compare(r[i], r[j]) <= 0 {
        assert r[i] == s[|s| - 1 - i] && r[j] == s[|s| - 1 - j];
      }
    }
    if Sorted(r, a) {
      forall i, j | 0 <= i < j < |s| ensures d.Compare(s[i], s[j]) <= 0 {
        assert s[i] == r[|s| - 1 - i] && s[j] == r[|s| - 1 - j];
      }
    }
  }

  /** The `filtered` memo: sex filter, text filter, then a copy sorted by the chosen sorter. */
  function Filtered(children: seq<Record>, query: string, sexo: string, mode: SortMode): (r: seq<Record>)
    ensures forall x :: x in r <==>
      x in children && (sexo == "ALL" || Get(x, "sexo") == Str(sexo)) && Table.SearchAdmits(query, SearchText, x)
    ensures Sorted(r, Sorter(mode))
    ensures multiset(r) == multiset(Table.SearchBy(Children.BySexo(children, sexo), query, SearchText))
    ensures multiset(r) <= multiset(children) && |r| <= |children|
  {
    var list := Table.SearchBy(Children.BySexo(children, sexo), query, SearchText);
    SortBySorted(list, Sorter(mode));
    SortByMembers(list, Sorter(mode));
    assert |multiset(list)| <= |multiset(children)|;
    SortBy(list, Sorter(mode))
  }

  /** The state of the three filter controls. */
  datatype Filters = Filters(query: string, sexo: string, sort: SortMode)

  /** "Limpiar filtros": `setQuery(""); setSexo("ALL"); setSort("NAME_ASC")`. */
  const Cleared: Filters := Filters("", "ALL", NameAsc)

  /** With the filters cleared every child is listed, in A-to-Z order of surname and name. */
  lemma ClearedShowsAll(children: seq<Record>)
    ensures var r := Filtered(children, Cleared.query, Cleared.sexo, Cleared.sort);
            multiset(r) == multiset(children) && Sorted(r, Comparator(NameKey, Base, false))
  {
    assert Trim("") == "";
  }

  /** The age column: `calcAgeMonths(c.fecha_nacimiento)` at the clock reading `now`. */
  function AgeOf(c: Record, now: Children.Date): (a: Children.AgeResult)
    ensures IsFalsy(Get(c, "fecha_nacimiento")) <==> a == Children.NoBirthDate
  {
    Children.CalcAgeMonths(Get(c, "fecha_nacimiento"), now)
  }
}
