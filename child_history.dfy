/** The vaccination card of src/pages/ChildHistory.jsx: how the history response is turned
    into a list of rows, the fallback chain behind each cell, and the child shown in the
    header. */
module ChildHistory {
  import opened Js

  /** The `items` memo: no data gives no rows, an array is the list itself, and an object
      gives its `items` array, or else its `history` array, or else nothing. */
  function Items(data: Json): (r: seq<Json>)
    ensures IsFalsy(data) ==> r == []
    ensures data.Arr? ==> r == data.elems
    ensures data.Obj? && Prop(data, "items").Arr? ==> r == Prop(data, "items").elems
    ensures data.Obj? && !Prop(data, "items").Arr? && Prop(data, "history").Arr? ==> r == Prop(data, "history").elems
    ensures !data.Arr? && !Prop(data, "items").Arr? && !Prop(data, "history").Arr? ==> r == []
  {
    if IsFalsy(data) then []
    else if data.Arr? then data.elems
    else if Prop(data, "items").Arr? then Prop(data, "items").elems
    else if Prop(data, "history").Arr? then Prop(data, "history").elems
    else []
  }

  /** `setData(res.data || null)`: whatever the response holds, or null when it is falsy. */
  function StoredData(resData: Json): (d: Json)
    ensures Items(d) == Items(resData)
  {
    Or(resData, Null)
  }

  /** Field `fields[i]` of `it` is the first of `fields` that is neither null nor undefined. */
  predicate IsFirstPresent(it: Json, fields: seq<string>, i: int) {
    0 <= i < |fields| && !IsNullish(Prop(it, fields[i])) &&
    forall j :: 0 <= j < i ==> IsNullish(Prop(it, fields[j]))
  }

  /** `it[f0] ?? it[f1] ?? ... ?? last` */
  function FirstDefined(it: Json, fields: seq<string>, last: Json): (r: Json)
    ensures (exists i :: IsFirstPresent(it, fields, i) && r == Prop(it, fields[i])) ||
            ((forall j :: 0 <= j < |fields| ==> IsNullish(Prop(it, fields[j]))) && r == last)
  {
    if fields == [] then last
    else
      var rest := FirstDefined(it, fields[1..], last);
      assert !IsNullish(Prop(it, fields[0])) ==> IsFirstPresent(it, fields, 0);
      assert (exists i :: IsFirstPresent(it, fields[1..], i) && rest == Prop(it, fields[1..][i])) ==>
             IsNullish(Prop(it, fields[0])) ==>
             exists i :: IsFirstPresent(it, fields, i) && rest == Prop(it, fields[i]) by {
        if IsNullish(Prop(it, fields[0])) && exists i :: IsFirstPresent(it, fields[1..], i) && rest == Prop(it, fields[1..][i]) {
          var i :| IsFirstPresent(it, fields[1..], i) && rest == Prop(it, fields[1..][i]);
          forall j | 0 <= j < i + 1 ensures IsNullish(Prop(it, fields[j])) {
            if j > 0 {
              assert fields[j] == fields[1..][j - 1];
            }
          }
          assert IsFirstPresent(it, fields, i + 1);
        }
      }
      assert (forall j :: 0 <= j < |fields[1..]| ==> IsNullish(Prop(it, fields[1..][j]))) ==>
             IsNullish(Prop(it, fields[0])) ==>
             forall j :: 0 <= j < |fields| ==> IsNullish(Prop(it, fields[j])) by {
        if IsNullish(Prop(it, fields[0])) && forall j :: 0 <= j < |fields[1..]| ==> IsNullish(Prop(it, fields[1..][j])) {
          forall j | 0 <= j < |fields| ensures IsNullish(Prop(it, fields[j])) {
            if j > 0 {
              assert fields[j] == fields[1..][j - 1];
            }
          }
        }
      }
      Coalesce(Prop(it, fields[0]), rest)
  }

  /** The date column: `fmtDate` shows "—" for a falsy value and otherwise the value formatted
      for the locale (the formatting itself is not modelled). */
  datatype DateCell = Dash | Formatted(raw: Json)

  function FmtDate(d: Json): (c: DateCell)
    ensures c == Dash <==> IsFalsy(d)
    ensures c.Formatted? ==> c.raw == d
  {
    if IsFalsy(d) then Dash else Formatted(d)
  }

  datatype Row = Row(number: int, vaccine: Json, dose: Json, date: DateCell, note: Json)

  /** One row of the table for item `it` at index `idx`. */
  function RowOf(it: Json, idx: nat): Row {
    Row(idx + 1,
        FirstDefined(it, ["vaccine_nombre", "vaccine", "nombre"], Str("—")),
        FirstDefined(it, ["dosis_numero", "dosis"], Str("—")),
        FmtDate(FirstDefined(it, ["fecha_aplicacion", "fecha_atencion", "date"], Prop(it, "created_at"))),
        FirstDefined(it, ["observacion", "note"], Str("—")))
  }

  /** `items.map((it, idx) => <tr>...)`. Reading a field of a null or undefined item throws,
      so the table is then not drawn at all (`None`). */
  function Rows(items: seq<Json>): (r: Option<seq<Row>>)
    ensures r.None? <==> exists k :: 0 <= k < |items| && IsNullish(items[k])
    ensures r.Some? ==> |r.value| == |items| && forall k :: 0 <= k < |items| ==> r.value[k] == RowOf(items[k], k)
  {
    if exists k :: 0 <= k < |items| && IsNullish(items[k]) then None
    else Some(seq(|items|, k requires 0 <= k < |items| => RowOf(items[k], k)))
  }

  /** Rows are numbered 1, 2, ... in list order. */
  lemma RowsNumberedInOrder(items: seq<Json>)
    requires Rows(items).Some?
    ensures forall k :: 0 <= k < |items| ==> Rows(items).value[k].number == k + 1
  {
  }

  /** A cell with a fallback shows its first present field, or "—" when every one is missing. */
  lemma VaccineCellFallsBack(it: Json, idx: nat)
    ensures !IsNullish(Prop(it, "vaccine_nombre")) ==> RowOf(it, idx).vaccine == Prop(it, "vaccine_nombre")
    ensures IsNullish(Prop(it, "vaccine_nombre")) && !IsNullish(Prop(it, "vaccine")) ==>
      RowOf(it, idx).vaccine == Prop(it, "vaccine")
    ensures IsNullish(Prop(it, "vaccine_nombre")) && IsNullish(Prop(it, "vaccine")) && !IsNullish(Prop(it, "nombre")) ==>
      RowOf(it, idx).vaccine == Prop(it, "nombre")
    ensures IsNullish(Prop(it, "vaccine_nombre")) && IsNullish(Prop(it, "vaccine")) && IsNullish(Prop(it, "nombre")) ==>
      RowOf(it, idx).vaccine == Str("—")
  {
    var dash := Str("—");
    var fields: seq<string> := ["vaccine_nombre", "vaccine", "nombre"];
    var two: seq<string> := ["vaccine", "nombre"];
    var one: seq<string> := ["nombre"];
    assert fields[1..] == two && two[1..] == one && one[1..] == [];
    assert FirstDefined(it, one, dash) == Coalesce(Prop(it, "nombre"), dash);
    assert FirstDefined(it, two, dash) == Coalesce(Prop(it, "vaccine"), FirstDefined(it, one, dash));
    assert FirstDefined(it, fields, dash) == Coalesce(Prop(it, "vaccine_nombre"), FirstDefined(it, two, dash));
  }

  /** The "Sin registros aún" row is drawn exactly when there are no items. */
  predicate ShowsNoRecords(items: seq<Json>) {
    |items| == 0
  }

  /** `c` is the first child whose id, as text, is the route's `childId`. */
  predicate IsFirstMatch(children: seq<Record>, childId: string, i: int) {
    0 <= i < |children| && ToStr(Get(children[i], "id")) == childId &&
    forall j :: 0 <= j < i ==> ToStr(Get(children[j], "id")) != childId
  }

  /** `children.find(c => String(c.id) === String(childId)) || null` */
  function FindChild(children: seq<Record>, childId: string): (r: Option<Record>)
    ensures r.None? <==> forall i :: 0 <= i < |children| ==> ToStr(Get(children[i], "id")) != childId
    ensures r.Some? ==> exists i :: IsFirstMatch(children, childId, i) && children[i] == r.value
  {
    if children == [] then None
    else if ToStr(Get(children[0], "id")) == childId then
      assert IsFirstMatch(children, childId, 0);
      Some(children[0])
    else
      var r := FindChild(children[1..], childId);
      assert r.None? ==> forall i :: 0 <= i < |children| ==> ToStr(Get(children[i], "id")) != childId by {
        if r.None? {
          forall i | 0 <= i < |children| ensures ToStr(Get(children[i], "id")) != childId {
            if i > 0 {
              assert children[i] == children[1..][i - 1];
            }
          }
        }
      }
      assert r.Some? ==> exists i :: IsFirstMatch(children, childId, i) && children[i] == r.value by {
        if r.Some? {
          var i :| IsFirstMatch(children[1..], childId, i) && children[1..][i] == r.value;
          forall j | 0 <= j < i + 1 ensures ToStr(Get(children[j], "id")) != childId {
            if j > 0 {
              assert children[j] == children[1..][j - 1];
            }
          }
          assert IsFirstMatch(children, childId, i + 1);
        }
      }
      r
  }

  /** Comparing as text, a numeric id and the same id written as a string both match. */
  lemma NumericAndTextIdsMatch(n: int)
    ensures FindChild([map["id" := Num(n)]], IntToString(n)).Some?
    ensures FindChild([map["id" := Str(IntToString(n))]], IntToString(n)).Some?
  {
    var a: Record := map["id" := Num(n)];
    var b: Record := map["id" := Str(IntToString(n))];
    assert ToStr(Get(a, "id")) == IntToString(n);
    assert ToStr(Get(b, "id")) == IntToString(n);
  }

  /** The header: `${nombres} ${apellidos}` of the child, or "Niño #<childId>" without one. */
  function HeaderTitle(child: Option<Record>, childId: string): (t: string)
    ensures child.None? ==> t == "Niño #" + childId
  {
    match child
    case None => "Niño #" + childId
    case Some(c) => ToStr(Get(c, "nombres")) + " " + ToStr(Get(c, "apellidos"))
  }
}
