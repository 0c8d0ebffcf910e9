/** The pediatrician's screen of src/pages/PediatricDashboard.jsx: the child chosen in the
    visit form, its age, the filtered and ordered list of children, and the dose search. */
module PediatricDashboard {
  import opened Js
  import opened Text
  import opened Seqs
  import Table
  import Children

  /** The id `Number(visitForm.child_id || 0)` selects; `None` is NaN, equal to no id. */
  function SelectedId(childId: string): (id: Option<int>)
    ensures childId == "" ==> id == Some(0)
  {
    if childId == "" then Some(0) else NumberOfString(childId)
  }

  /** `children[i]` is the first child whose `id` is the number `id`. */
  predicate IsFirstWithId(children: seq<Record>, id: int, i: int) {
    0 <= i < |children| && Get(children[i], "id") == Num(id) &&
    forall j :: 0 <= j < i ==> Get(children[j], "id") != Num(id)
  }

  /** `children.find(c => c.id === id)`: the first child whose `id` is the number `id`. */
  function FindById(children: seq<Record>, id: int): (r: Option<Record>)
    ensures r.None? <==> forall i :: 0 <= i < |children| ==> Get(children[i], "id") != Num(id)
    ensures r.Some? ==> exists i :: IsFirstWithId(children, id, i) && children[i] == r.value
  {
    if children == [] then None
    else if Get(children[0], "id") == Num(id) then Some(children[0])
    else
      var r := FindById(children[1..], id);
      assert r.None? ==> forall i :: 0 <= i < |children| ==> Get(children[i], "id") != Num(id) by {
        if r.None? {
          forall i | 0 <= i < |children| ensures Get(children[i], "id") != Num(id) {
            if i > 0 {
              assert children[i] == children[1..][i - 1];
            }
          }
        }
      }
      assert r.Some? ==> exists i :: IsFirstWithId(children, id, i) && children[i] == r.value by {
        if r.Some? {
          var i :| IsFirstWithId(children[1..], id, i) && children[1..][i] == r.value;
          forall j | 0 <= j < i + 1 ensures Get(children[j], "id") != Num(id) {
            if j > 0 {
              assert children[j] == children[1..][j - 1];
            }
          }
          assert IsFirstWithId(children, id, i + 1);
        }
      }
      r
  }

  /** The `selectedChild` memo (`|| null` is `None`). */
  function SelectedChild(children: seq<Record>, childId: string): (r: Option<Record>)
    ensures SelectedId(childId).None? ==> r.None?
    ensures SelectedId(childId).Some? ==> r == FindById(children, SelectedId(childId).value)
  {
    match SelectedId(childId)
    case None => None
    case Some(id) => FindById(children, id)
  }

  /** Choosing a child writes its numeric id into the form, and that selects the first child
      carrying that id. */
  lemma SelectingAnIdFindsIt(children: seq<Record>, k: nat)
    requires k < |children| && Get(children[k], "id").Num?
    ensures var id := Get(children[k], "id").n;
            SelectedChild(children, IntToString(id)).Some? &&
            Get(SelectedChild(children, IntToString(id)).value, "id") == Num(id)
  {
    var id := Get(children[k], "id").n;
    NumberOfIntToString(id);
    assert IntToString(id) != "" by {
      if id < 0 {
        assert IntToString(id)[0] == '-';
      }
    }
  }

  /** `selectedChildAgeMonths`: null without a selected child or birth date, otherwise
      `calcAgeMonths` at `now`. */
  function SelectedChildAge(selected: Option<Record>, now: Children.Date): (a: Children.AgeResult)
    ensures a == Children.NoBirthDate <==> selected.None? || IsFalsy(Get(selected.value, "fecha_nacimiento"))
  {
    if selected.None? || IsFalsy(Get(selected.value, "fecha_nacimiento")) then Children.NoBirthDate
    else Children.CalcAgeMonths(Get(selected.value, "fecha_nacimiento"), now)
  }

  /** The searched text: `${nombres} ${apellidos} ${numero_documento} ${sexo} ${fecha_nacimiento}`. */
  function ChildText(c: Record): string {
    ToStr(Get(c, "nombres")) + " " + ToStr(Get(c, "apellidos")) + " " +
    ToStr(Get(c, "numero_documento")) + " " + ToStr(Get(c, "sexo")) + " " +
    ToStr(Get(c, "fecha_nacimiento"))
  }

  /** `${apellidos || ""} ${nombres || ""}`.toLowerCase(), compared with `sensitivity: "base"`. */
  function NameKey(c: Record): string {
    Lower(FalsyToEmpty(Get(c, "apellidos")) + " " + FalsyToEmpty(Get(c, "nombres")))
  }

  const ByName: Comparator<Record> := Comparator(NameKey, Base, false)

  /** The `filteredChildren` memo. */
  function FilteredChildren(children: seq<Record>, childQuery: string, sexoFilter: string): (r: seq<Record>)
    ensures forall x :: x in r <==>
      x in children && (sexoFilter == "ALL" || Get(x, "sexo") == Str(sexoFilter)) &&
      Table.SearchAdmits(childQuery, ChildText, x)
    ensures Sorted(r, ByName)
    ensures multiset(r) == multiset(Table.SearchBy(Children.BySexo(children, sexoFilter), childQuery, ChildText))
    ensures multiset(r) <= multiset(children) && |r| <= |children|
  {
    var list := Table.SearchBy(Children.BySexo(children, sexoFilter), childQuery, ChildText);
    SortBySorted(list, ByName);
    SortByMembers(list, ByName);
    assert |multiset(list)| <= |multiset(children)|;
    SortBy(list, ByName)
  }

  /** The dose search text: `${vaccine_nombre} dosis ${dosis_numero} ${edad_objetivo_meses} meses ${schedule_id}`. */
  function DoseText(s: Record): string {
    ToStr(Get(s, "vaccine_nombre")) + " dosis " + ToStr(Get(s, "dosis_numero")) + " " +
    ToStr(Get(s, "edad_objetivo_meses")) + " meses " + ToStr(Get(s, "schedule_id"))
  }

  /** The `filteredDoses` memo: the schedule itself for a blank query, otherwise the doses
      whose text contains the query, in schedule order. */
  function FilteredDoses(scheduleFull: seq<Record>, doseQuery: string): (r: seq<Record>)
    ensures Lower(Trim(doseQuery)) == "" ==> r == scheduleFull
    ensures Lower(Trim(doseQuery)) != "" ==>
      forall x :: x in r <==> x in scheduleFull && Contains(Lower(DoseText(x)), Lower(Trim(doseQuery)))
    ensures IsSubsequence(r, scheduleFull)
  {
    Table.SearchBy(scheduleFull, doseQuery, DoseText)
  }

  lemma DoseTextHasDosis(s: Record)
    ensures Contains(Lower(DoseText(s)), "dosis")
  {
    DosisBetween(ToStr(Get(s, "vaccine_nombre")), ToStr(Get(s, "dosis_numero")),
                 ToStr(Get(s, "edad_objetivo_meses")), ToStr(Get(s, "schedule_id")));
  }

  /** The word "dosis" between the name and the rest survives lower-casing, whatever the fields. */
  lemma DosisBetween(name: string, numero: string, edad: string, id: string)
    ensures Contains(Lower(name + " dosis " + numero + " " + edad + " meses " + id), "dosis")
  {
    assert " dosis " == " " + "dosis" + " ";
    LowerFixes(" dosis ");
    LowerInfix(name + " ", "dosis", " ");
    ContainsInfix(Lower(name + " "), "dosis", Lower(" "));
    var x := name + " dosis ";
    assert name + " " + "dosis" + " " == x;
    ContainsLowerExtend(x, numero, "dosis");
    x := x + numero;
    ContainsLowerExtend(x, " ", "dosis");
    x := x + " ";
    ContainsLowerExtend(x, edad, "dosis");
    x := x + edad;
    ContainsLowerExtend(x, " meses ", "dosis");
    x := x + " meses ";
    ContainsLowerExtend(x, id, "dosis");
  }

  lemma DosisNormalized()
    ensures Lower(Trim("dosis")) == "dosis"
  {
    LowerFixes("dosis");
    TrimNoSurroundingSpace("dosis");
  }

  lemma EveryDoseTextHasDosis(scheduleFull: seq<Record>)
    ensures forall i :: 0 <= i < |scheduleFull| ==> Contains(Lower(DoseText(scheduleFull[i])), "dosis")
  {
    forall i | 0 <= i < |scheduleFull| ensures Contains(Lower(DoseText(scheduleFull[i])), "dosis") {
      DoseTextHasDosis(scheduleFull[i]);
    }
  }

  /** Every dose matches the word "dosis", which the template always contains. */
  lemma DosisMatchesEverything(scheduleFull: seq<Record>)
    ensures FilteredDoses(scheduleFull, "dosis") == scheduleFull
  {
    EveryDoseTextHasDosis(scheduleFull);
    DosisNormalized();
    Table.SearchByKeepsAll(scheduleFull, "dosis", "dosis", DoseText);
  }
}
