/** The upcoming-vaccines screen of src/pages/ChildNextVaccines.jsx: overdue/on-time
    counts, a status filter, a free-text filter and an ordering by recommended date. */
module ChildNextVaccines {
  import opened Js
  import opened Text
  import opened Seqs
  import Table

  /** `x.estado === "ATRASADA"` */
  predicate IsLate(x: Record) {
    Get(x, "estado") == Str("ATRASADA")
  }

  predicate IsOnTime(x: Record) {
    !IsLate(x)
  }

  /** The status selector's effect: "ATRASADA" keeps the overdue items, "AL_DIA" the rest,
      and any other value (the "ALL" option) keeps everything. */
  function ByEstado(items: seq<Record>, estado: string): (r: seq<Record>)
    ensures estado == "ATRASADA" ==> forall x :: x in r <==> x in items && IsLate(x)
    ensures estado == "AL_DIA" ==> forall x :: x in r <==> x in items && !IsLate(x)
    ensures estado != "ATRASADA" && estado != "AL_DIA" ==> r == items
    ensures IsSubsequence(r, items) && multiset(r) <= multiset(items)
  {
    if estado == "ATRASADA" then
      FilterIsSubsequence(items, IsLate);
      Filter(items, IsLate)
    else if estado == "AL_DIA" then
      FilterIsSubsequence(items, IsOnTime);
      Filter(items, IsOnTime)
    else
      SubsequenceOfSelf(items);
      items
  }

  /** The two status filters split the items between them: nothing is lost or counted twice. */
  lemma EstadoFiltersPartition(items: seq<Record>)
    ensures multiset(ByEstado(items, "ATRASADA")) + multiset(ByEstado(items, "AL_DIA")) == multiset(items)
    ensures |ByEstado(items, "ATRASADA")| + |ByEstado(items, "AL_DIA")| == |items|
  {
    FilterPartition(items, IsLate, IsOnTime);
  }

  datatype Stats = Stats(atrasadas: nat, alDia: int, total: nat)

  /** The `stats` memo. */
  function ComputeStats(items: seq<Record>): (s: Stats)
    ensures s.total == |items| && s.atrasadas + s.alDia == s.total
    ensures s.atrasadas == |ByEstado(items, "ATRASADA")| && s.alDia == |ByEstado(items, "AL_DIA")|
    ensures s.alDia >= 0
  {
    EstadoFiltersPartition(items);
    var atrasadas := |Filter(items, IsLate)|;
    Stats(atrasadas, |items| - atrasadas, |items|)
  }

  /** The searched text: the template
      `${vaccine_nombre} ${dosis_numero} ${edad_objetivo_meses} ${fecha_recomendada} ${estado}`. */
  function SearchText(x: Record): string {
    ToStr(Get(x, "vaccine_nombre")) + " " + ToStr(Get(x, "dosis_numero")) + " " +
    ToStr(Get(x, "edad_objetivo_meses")) + " " + ToStr(Get(x, "fecha_recomendada")) + " " +
    ToStr(Get(x, "estado"))
  }

  /** `String(x.fecha_recomendada || "")`: a missing date sorts as "". */
  function DateKey(x: Record): string {
    FalsyToEmpty(Get(x, "fecha_recomendada"))
  }

  /** `(a, b) => DateKey(a).localeCompare(DateKey(b))`, default sensitivity. */
  const ByDate: Comparator<Record> := Comparator(DateKey, Variant, false)

  /** The status check `filtered` applies to one item. */
  predicate EstadoAdmits(estado: string, x: Record) {
    (estado == "ATRASADA" ==> IsLate(x)) && (estado == "AL_DIA" ==> !IsLate(x))
  }

  /** The `filtered` memo: status filter, then text filter, then a sorted copy. */
  function Filtered(items: seq<Record>, q: string, estado: string): (r: seq<Record>)
    ensures forall x :: x in r <==> x in items && EstadoAdmits(estado, x) && Table.SearchAdmits(q, SearchText, x)
    ensures Sorted(r, ByDate)
    ensures multiset(r) <= multiset(items) && |r| <= |items|
  {
    var list := Table.SearchBy(ByEstado(items, estado), q, SearchText);
    SortBySorted(list, ByDate);
    SortByMembers(list, ByDate);
    assert |multiset(list)| <= |multiset(items)|;
    SortBy(list, ByDate)
  }

  /** The sorted list holds each matching item as many times as `items` does. */
  lemma FilteredIsPermutation(items: seq<Record>, q: string, estado: string)
    ensures multiset(Filtered(items, q, estado)) == multiset(Table.SearchBy(ByEstado(items, estado), q, SearchText))
  {
  }

  /** An item without a recommended date sorts before every other item. */
  lemma MissingDateSortsFirst(x: Record, y: Record)
    requires IsFalsy(Get(x, "fecha_recomendada"))
    ensures ByDate.Compare(x, y) <= 0
  {
    assert DateKey(x) == "";
    var b := DateKey(y);
    if b != [] {
      assert LexCompare(Lower(""), Lower(b)) == -1;
    } else {
      LexReflexive("");
    }
  }

  /** The template writes a missing field as "undefined", so searching "undefined" finds
      every item without a vaccine name. */
  lemma MissingNameMatchesUndefined(x: Record)
    requires Get(x, "vaccine_nombre") == Undefined
    ensures Table.SearchAdmits("undefined", SearchText, x)
  {
    var t := "undefined";
    LowerFixes(t);
    assert StartsWith(Lower(t), t);
    ContainsLowerExtend(t, " ", t);
    t := t + " ";
    ContainsLowerExtend(t, ToStr(Get(x, "dosis_numero")), "undefined");
    t := t + ToStr(Get(x, "dosis_numero"));
    ContainsLowerExtend(t, " ", "undefined");
    t := t + " ";
    ContainsLowerExtend(t, ToStr(Get(x, "edad_objetivo_meses")), "undefined");
    t := t + ToStr(Get(x, "edad_objetivo_meses"));
    ContainsLowerExtend(t, " ", "undefined");
    t := t + " ";
    ContainsLowerExtend(t, ToStr(Get(x, "fecha_recomendada")), "undefined");
    t := t + ToStr(Get(x, "fecha_recomendada"));
    ContainsLowerExtend(t, " ", "undefined");
    t := t + " ";
    ContainsLowerExtend(t, ToStr(Get(x, "estado")), "undefined");
    t := t + ToStr(Get(x, "estado"));
    assert t == SearchText(x);
    UndefinedNormalized();
  }

  lemma UndefinedNormalized()
    ensures Lower(Trim("undefined")) == "undefined"
  {
    LowerFixes("undefined");
    TrimNoSurroundingSpace("undefined");
  }

  /** The state of the two filter controls. */
  datatype Filters = Filters(q: string, estado: string)

  /** "Limpiar filtros": `setQ(""); setEstado("ALL")`. */
  const Cleared: Filters := Filters("", "ALL")

  /** With the filters cleared the screen lists every item, sorted. */
  lemma ClearedShowsAll(items: seq<Record>)
    ensures multiset(Filtered(items, Cleared.q, Cleared.estado)) == multiset(items)
  {
    assert Trim("") == "";
  }

  /** `EstadoBadge`: the danger tone exactly for an overdue status, success otherwise. */
  function BadgeClass(estado: Json): (c: string)
    ensures c == "text-bg-danger" <==> estado == Str("ATRASADA")
    ensures c != "text-bg-danger" ==> c == "text-bg-success"
  {
    if estado == Str("ATRASADA") then "text-bg-danger" else "text-bg-success"
  }
}
