/** The route guard of src/components/ProtectedRoute.jsx. */
module ProtectedRoute {
  import opened Js

  /** What the guard renders. */
  datatype Decision = RedirectLogin | RedirectHome | Render

  /** The guard, given the stored token, the `roles` prop (absent is `None`) and the
      session's user. */
  function Decide(token: Option<string>, roles: Option<seq<Json>>, user: Json): (d: Decision)
    ensures d == RedirectLogin <==> token.None? || token.value == ""
    ensures d == RedirectHome <==>
      token.Some? && token.value != "" && roles.Some? && IsTruthy(user) && Prop(user, "rol") !in roles.value
    ensures d == Render <==>
      token.Some? && token.value != "" && (roles.None? || IsFalsy(user) || Prop(user, "rol") in roles.value)
  {
    if token.None? || token.value == "" then RedirectLogin
    else if roles.Some? && IsTruthy(user) && Prop(user, "rol") !in roles.value then RedirectHome
    else Render
  }

  /** Without a token no role list and no user gets past the guard. */
  lemma NoTokenNoEntry(roles: Option<seq<Json>>, user: Json)
    ensures Decide(None, roles, user) == RedirectLogin && Decide(Some(""), roles, user) == RedirectLogin
  {
  }

  /** Widening the role list never turns a rendered page into a redirect. */
  lemma MoreRolesAdmitMore(token: Option<string>, roles: seq<Json>, extra: seq<Json>, user: Json)
    requires Decide(token, Some(roles), user) == Render
    ensures Decide(token, Some(roles + extra), user) == Render
  {
    if IsTruthy(user) {
      assert Prop(user, "rol") in roles + extra;
    }
  }

  /** An empty role list is still a list: a signed-in user is sent home, but while no user is
      loaded the page is shown. */
  lemma EmptyRoleList(token: string, user: Json)
    requires token != ""
    ensures IsTruthy(user) ==> Decide(Some(token), Some([]), user) == RedirectHome
    ensures IsFalsy(user) ==> Decide(Some(token), Some([]), user) == Render
  {
  }
}
