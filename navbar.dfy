/** The top bar of src/components/Navbar.jsx: the avatar's initials, the role badge, the
    links a role is offered and which of them is highlighted. */
module Navbar {
  import opened Js
  import opened Text
  import opened Seqs

  /** `name.trim().split(" ").filter(Boolean)`: the words of a name. */
  function Words(name: string): (ws: seq<string>)
    ensures forall k :: 0 <= k < |ws| ==> ws[k] != ""
    ensures forall k, i :: 0 <= k < |ws| && 0 <= i < |ws[k]| ==> ws[k][i] != ' '
  {
    var parts := Split(Trim(name), ' ');
    var ws := Filter(parts, w => w != "");
    forall k | 0 <= k < |ws| ensures ws[k] != "" && forall i :: 0 <= i < |ws[k]| ==> ws[k][i] != ' ' {
      assert ws[k] in ws;
      assert ws[k] in parts;
    }
    ws
  }

  /** `initials(name)`: "U" for a name without words, otherwise the upper-cased first letters
      of its first word and, if there is one, its second. A ß upper-cases to "SS", so there
      can be up to four characters; without one there are at most two. */
  function Initials(name: string): (r: string)
    ensures var ws := Words(name); ws == [] ==> r == "U"
    ensures var ws := Words(name); |ws| == 1 ==> ws[0] != [] && r == Upper([ws[0][0]])
    ensures var ws := Words(name); |ws| >= 2 ==> ws[0] != [] && ws[1] != [] && r == Upper([ws[0][0], ws[1][0]])
    ensures 1 <= |r| <= 4
    ensures (forall k :: 0 <= k < |Words(name)| && k < 2 ==> Words(name)[k][0] != SharpS) ==> 1 <= |r| <= 2
  {
    var parts := Words(name);
    if |parts| == 0 then "U"
    else if |parts| == 1 then Upper([parts[0][0]])
    else Upper([parts[0][0], parts[1][0]])
  }

  /** "ß ß" has the initials "SSSS": two words whose first letter upper-cases to two. */
  lemma SharpSInitials()
    ensures Initials([SharpS, ' ', SharpS]) == "SSSS"
  {
    FullNameInitials([SharpS], [SharpS]);
    assert [SharpS] + " " + [SharpS] == [SharpS, ' ', SharpS];
    assert Upper([SharpS, SharpS]) == "SS" + Upper([SharpS]);
  }

  /** A blank name has the placeholder initial. */
  lemma BlankNameInitials(name: string)
    requires AllWhitespace(name)
    ensures Initials(name) == "U"
  {
    assert Trim(name) == "";
    assert Split("", ' ') == [""];
    assert Filter([""], w => w != "") == [];
  }

  /** For "first last", two words without spaces, the initials are their two first letters. */
  lemma FullNameInitials(first: string, last: string)
    requires first != [] && last != []
    requires forall i :: 0 <= i < |first| ==> !IsWhitespace(first[i])
    requires forall i :: 0 <= i < |last| ==> !IsWhitespace(last[i])
    ensures Initials(first + " " + last) == Upper([first[0], last[0]])
  {
    var name := first + " " + last;
    assert name == first + [' '] + last;
    assert name[0] == first[0] && name[|name| - 1] == last[|last| - 1];
    TrimNoSurroundingSpace(name);
    assert forall i :: 0 <= i < |first| ==> first[i] != ' ';
    assert forall i :: 0 <= i < |last| ==> last[i] != ' ';
    SplitAtSeparator(first, last, ' ');
    SplitWithoutSeparator(last, ' ');
    var parts := [first, last];
    assert Split(Trim(name), ' ') == parts;
    assert parts[1..] == [last] && parts[1..][1..] == [];
    assert Filter(parts, w => w != "") == [first] + Filter([last], w => w != "");
    assert Filter([last], w => w != "") == [last] + Filter([], w => w != "");
    assert Words(name) == parts;
  }

  /** The class `RoleBadge` gives a role: one per known role, "text-bg-secondary" otherwise.
      The role is looked up as an object key, so it is compared by its string form. */
  function RoleBadgeClass(rol: Json): (cls: string)
    ensures ToStr(rol) == "ADMIN" ==> cls == "text-bg-primary"
    ensures ToStr(rol) == "PEDIATRA" ==> cls == "text-bg-success"
    ensures ToStr(rol) == "REPRESENTANTE" ==> cls == "text-bg-warning"
    ensures ToStr(rol) !in {"ADMIN", "PEDIATRA", "REPRESENTANTE"} ==> cls == "text-bg-secondary"
  {
    var classes := map["ADMIN" := "text-bg-primary", "PEDIATRA" := "text-bg-success",
                       "REPRESENTANTE" := "text-bg-warning"];
    if ToStr(rol) in classes then classes[ToStr(rol)] else "text-bg-secondary"
  }

  /** The text of the badge: `rol || ""`. */
  function RoleBadgeText(rol: Json): (t: Json)
    ensures IsFalsy(rol) ==> t == Str("")
    ensures IsTruthy(rol) ==> t == rol
  {
    Or(rol, Str(""))
  }

  /** What the avatar's initials are computed from: `nombres || numero_documento || "U"`. */
  function AvatarSource(user: Json): (v: Json)
    ensures IsTruthy(v)
    ensures IsTruthy(Prop(user, "nombres")) ==> v == Prop(user, "nombres")
    ensures IsFalsy(Prop(user, "nombres")) && IsTruthy(Prop(user, "numero_documento")) ==>
      v == Prop(user, "numero_documento")
    ensures IsFalsy(Prop(user, "nombres")) && IsFalsy(Prop(user, "numero_documento")) ==> v == Str("U")
  {
    Or(Prop(user, "nombres"), Or(Prop(user, "numero_documento"), Str("U")))
  }

  /** A menu entry. */
  datatype NavLink = NavLink(to: string, text: string)

  predicate IsKnownRole(role: Json) {
    role == Str("ADMIN") || role == Str("PEDIATRA") || role == Str("REPRESENTANTE")
  }

  /** The `links` array, pushed to under one test per role. */
  method Links(role: Json) returns (links: seq<NavLink>)
    ensures role == Str("ADMIN") <==> links == [NavLink("/admin", "Admin")]
    ensures role == Str("PEDIATRA") <==> links == [NavLink("/pediatric", "Pediatría")]
    ensures role == Str("REPRESENTANTE") <==> links == [NavLink("/representative", "Mis hijos")]
    ensures !IsKnownRole(role) <==> links == []
  {
    assert "/admin"[1] == 'a' && "/pediatric"[1] == 'p' && "/representative"[1] == 'r';
    assert "ADMIN"[0] == 'A' && "PEDIATRA"[0] == 'P' && "REPRESENTANTE"[0] == 'R';
    links := [];
    if role == Str("ADMIN") {
      links := links + [NavLink("/admin", "Admin")];
    }
    if role == Str("PEDIATRA") {
      links := links + [NavLink("/pediatric", "Pediatría")];
    }
    if role == Str("REPRESENTANTE") {
      links := links + [NavLink("/representative", "Mis hijos")];
    }
    assert links != [] ==>
      links[0].to[1] == (if role == Str("ADMIN") then 'a' else if role == Str("PEDIATRA") then 'p' else 'r');
  }

  /** `isActive(to)`: the current path is `to` itself or lies below it. */
  predicate IsActive(pathname: string, to: string)
    ensures IsActive(pathname, to) ==> StartsWith(pathname, to)
  {
    pathname == to || StartsWith(pathname, to + "/")
  }

  /** A path is only highlighted at a segment boundary: `to` followed by anything but "/" is
      another page. */
  lemma ActiveAtSegmentBoundary(pathname: string, to: string)
    requires StartsWith(pathname, to) && |pathname| > |to| && pathname[|to|] != '/'
    ensures !IsActive(pathname, to)
  {
    assert (to + "/")[|to|] == '/';
  }
}
