/** The sign-in page of src/pages/Login.jsx: when the form may be sent, where each role
    lands, and what a submit does with the session. */
module LoginPage {
  import opened Js
  import opened Text
  import AuthContext

  /** `canSubmit`: at least six visible characters of document and three of password once
      trimmed. */
  predicate CanSubmit(numeroDocumento: string, password: string)
    ensures CanSubmit(numeroDocumento, password) ==> |numeroDocumento| >= 6 && |password| >= 3
  {
    |Trim(numeroDocumento)| >= 6 && |Trim(password)| >= 3
  }

  /** The submit button's `disabled`. */
  predicate SubmitDisabled(numeroDocumento: string, password: string, loading: bool) {
    !CanSubmit(numeroDocumento, password) || loading
  }

  /** A password of spaces only, or a request in flight, keeps the button disabled. */
  lemma BlankPasswordDisables(numeroDocumento: string, password: string, loading: bool)
    ensures AllWhitespace(password) ==> SubmitDisabled(numeroDocumento, password, loading)
    ensures loading ==> SubmitDisabled(numeroDocumento, password, loading)
  {
  }

  /** `goByRole(rol)` */
  function GoByRole(rol: Json): (path: string)
    ensures path == "/admin" <==> rol == Str("ADMIN")
    ensures path == "/pediatric" <==> rol == Str("PEDIATRA")
    ensures path == "/representative" <==> rol != Str("ADMIN") && rol != Str("PEDIATRA")
  {
    assert "/admin"[1] == 'a' && "/pediatric"[1] == 'p' && "/representative"[1] == 'r';
    if rol == Str("ADMIN") then "/admin"
    else if rol == Str("PEDIATRA") then "/pediatric"
    else "/representative"
  }

  /** `me?.rol || user?.rol || "REPRESENTANTE"` */
  function RouteRole(me: Json, user: Json): (rol: Json)
    ensures IsTruthy(rol)
    ensures IsTruthy(Prop(me, "rol")) ==> rol == Prop(me, "rol")
    ensures IsFalsy(Prop(me, "rol")) && IsTruthy(Prop(user, "rol")) ==> rol == Prop(user, "rol")
    ensures IsFalsy(Prop(me, "rol")) && IsFalsy(Prop(user, "rol")) ==> rol == Str("REPRESENTANTE")
  {
    Or(Prop(me, "rol"), Or(Prop(user, "rol"), Str("REPRESENTANTE")))
  }

  /** What the page ends up doing after a submit. */
  datatype SubmitOutcome = ShowError(message: Json) | Navigate(path: string)

  /** The page after `login` answered `r` and the second `refreshMe` gave `me`, where `user` is
      the session user the handler reads for its fallback. */
  function AfterLogin(r: AuthContext.LoginResult, me: Json, user: Json): (o: SubmitOutcome)
    ensures r.LoginFailed? <==> o.ShowError?
    ensures o.ShowError? ==> IsTruthy(o.message)
    ensures r.LoginFailed? && IsTruthy(r.error) ==> o.message == r.error
    ensures r.LoginFailed? && IsFalsy(r.error) ==> o.message == Str("Error al iniciar sesión")
    ensures o.Navigate? ==> o.path == GoByRole(RouteRole(me, user))
  {
    if r.LoginFailed? then ShowError(Or(r.error, Str("Error al iniciar sesión")))
    else Navigate(GoByRole(RouteRole(me, user)))
  }

  /** `handleSubmit` as written: `login(numero_documento.trim(), password)` answers `result`,
      then `refreshMe()` (answered by `authMeAgain` and `usersMeAgain`) gives `me`, then the
      route comes from `me` or else from the `user` the handler closed over, which is the
      session user from before the login. */
  method HandleSubmit(session: AuthContext.AuthSession, numeroDocumento: string, password: string,
                      loginResp: AuthContext.HttpResult, authMe: AuthContext.HttpResult,
                      usersMe: AuthContext.HttpResult, authMeAgain: AuthContext.HttpResult,
                      usersMeAgain: AuthContext.HttpResult)
    returns (outcome: SubmitOutcome, request: Record, result: AuthContext.LoginResult, me: Json)
    modifies session
    ensures request == map["numero_documento" := Str(Trim(numeroDocumento)), "password" := Str(password)]
    ensures result.LoginOk? <==> loginResp.Response? && IsTruthy(Prop(loginResp.data, "access_token"))
    ensures loginResp.Failure? ==>
      result == AuthContext.LoginFailed(Or(loginResp.detail, Str("Credenciales incorrectas o error de servidor")))
    ensures result.LoginFailed? ==>
      me == Null && session.token == old(session.token) && session.user == old(session.user) &&
      session.userSlot == old(session.userSlot)
    ensures session.booting == old(session.booting)
    ensures result.LoginOk? ==> session.InSync()
    ensures result.LoginOk? && IsTruthy(me) ==> session.user == me
    ensures result.LoginOk? ==> session.token == Some(ToStr(Prop(loginResp.data, "access_token")))
    ensures result.LoginOk? && session.IsAuthenticated() ==> me == AuthContext.RefreshedUser(authMeAgain, usersMeAgain)
    ensures outcome == AfterLogin(result, me, old(session.user))
    ensures (result.LoginOk? && IsTruthy(Prop(loginResp.data, "user")) && session.IsAuthenticated() &&
             IsFalsy(me)) ==>
      session.user == Prop(loginResp.data, "user")
  {
    var rendered := session.user;
    result, request := session.Login(Trim(numeroDocumento), password, loginResp, authMe, usersMe);
    if result.LoginFailed? {
      return AfterLogin(result, Null, rendered), request, result, Null;
    }
    var tried;
    me, tried := session.RefreshMe(authMeAgain, usersMeAgain);
    outcome := AfterLogin(result, me, rendered);
  }

  /** Without a profile and without a user, the page lands on the representative's screen. */
  lemma RepresentativeFallback()
    ensures AfterLogin(AuthContext.LoginOk, Null, Null) == Navigate("/representative")
  {
    assert RouteRole(Null, Null) == Str("REPRESENTANTE");
    assert "ADMIN"[0] == 'A' && "PEDIATRA"[0] == 'P' && "REPRESENTANTE"[0] == 'R';
  }

  /** The login answer `{access_token: token, user: u}`. */
  function LoginAnswer(u: Json, token: string): (r: AuthContext.HttpResult)
    ensures r.Response? && Prop(r.data, "user") == u && Prop(r.data, "access_token") == Str(token)
    ensures token != "" ==> IsTruthy(Prop(r.data, "access_token")) && ToStr(Prop(r.data, "access_token")) == token
  {
    AuthContext.Response(Obj(map["access_token" := Str(token), "user" := u]))
  }

  /** Any administrator or pediatrician named by a login answer with a token while neither
      profile endpoint answers, on a page whose session had no user yet: the session ends up
      holding that user, and the page sends them to the representative's screen, not to
      their own. */
  method StaleUserMisroutes(u: Json, token: string) returns (outcome: SubmitOutcome, stored: Json)
    requires token != ""
    requires Prop(u, "rol") == Str("ADMIN") || Prop(u, "rol") == Str("PEDIATRA")
    ensures stored == u
    ensures outcome == Navigate("/representative")
    ensures outcome != Navigate(GoByRole(Prop(stored, "rol")))
  {
    var session := new AuthContext.AuthSession(None, None);
    var none := AuthContext.Failure(Undefined);
    var loginResp := LoginAnswer(u, token);
    assert IsTruthy(u);
    var request, result, me;
    outcome, request, result, me := HandleSubmit(session, "1234567", "secret", loginResp, none, none, none, none);
    assert result.LoginOk? && session.token == Some(token);
    assert me == AuthContext.RefreshedUser(none, none) == Null;
    stored := session.user;
    RepresentativeFallback();
    assert GoByRole(Prop(u, "rol")) != "/representative";
  }

  /** `handleSubmit` with the fallback read from the session as `login` left it, which is the
      user the page just stored. */
  method HandleSubmitFixed(session: AuthContext.AuthSession, numeroDocumento: string, password: string,
                           loginResp: AuthContext.HttpResult, authMe: AuthContext.HttpResult,
                           usersMe: AuthContext.HttpResult, authMeAgain: AuthContext.HttpResult,
                           usersMeAgain: AuthContext.HttpResult)
    returns (outcome: SubmitOutcome, request: Record, result: AuthContext.LoginResult, me: Json)
    modifies session
    ensures request == map["numero_documento" := Str(Trim(numeroDocumento)), "password" := Str(password)]
    ensures result.LoginOk? <==> loginResp.Response? && IsTruthy(Prop(loginResp.data, "access_token"))
    ensures result.LoginFailed? ==> outcome == AfterLogin(result, Null, old(session.user))
    ensures result.LoginFailed? ==>
      me == Null && session.token == old(session.token) && session.user == old(session.user) &&
      session.userSlot == old(session.userSlot)
    ensures session.booting == old(session.booting)
    ensures result.LoginOk? ==> session.InSync()
    ensures result.LoginOk? && IsTruthy(me) ==> session.user == me
    ensures result.LoginOk? ==> session.token == Some(ToStr(Prop(loginResp.data, "access_token")))
    ensures result.LoginOk? && session.IsAuthenticated() ==> me == AuthContext.RefreshedUser(authMeAgain, usersMeAgain)
    ensures (result.LoginOk? && IsTruthy(Prop(loginResp.data, "user")) && session.IsAuthenticated() &&
             IsFalsy(me)) ==>
      session.user == Prop(loginResp.data, "user")
    ensures (result.LoginOk? && IsTruthy(Prop(loginResp.data, "user")) && IsFalsy(me)) ==>
      outcome == Navigate(GoByRole(Or(Prop(Prop(loginResp.data, "user"), "rol"), Str("REPRESENTANTE"))))
    ensures (result.LoginOk? && session.IsAuthenticated() && IsTruthy(Prop(session.user, "rol"))) ==>
      outcome == Navigate(GoByRole(Prop(session.user, "rol")))
  {
    var rendered := session.user;
    result, request := session.Login(Trim(numeroDocumento), password, loginResp, authMe, usersMe);
    if result.LoginFailed? {
      return AfterLogin(result, Null, rendered), request, result, Null;
    }
    var signedIn := session.user;
    var tried;
    me, tried := session.RefreshMe(authMeAgain, usersMeAgain);
    if IsTruthy(Prop(loginResp.data, "user")) && IsFalsy(me) {
      assert signedIn == Prop(loginResp.data, "user") && me == Null;
      assert IsFalsy(Prop(me, "rol"));
      assert RouteRole(me, signedIn) == Or(Prop(signedIn, "rol"), Str("REPRESENTANTE"));
    }
    if session.IsAuthenticated() && IsTruthy(Prop(session.user, "rol")) {
      if IsTruthy(me) {
        assert session.user == me;
      } else {
        assert session.user == signedIn && me == Null;
      }
      assert RouteRole(me, signedIn) == Prop(session.user, "rol");
    }
    outcome := AfterLogin(result, me, signedIn);
  }

  /** The same sign-in through the corrected handler, for any user with a role: the page
      sends them where their role belongs. */
  method FixedRoutesStoredUser(u: Json, token: string) returns (outcome: SubmitOutcome, stored: Json)
    requires token != ""
    requires IsTruthy(Prop(u, "rol"))
    ensures stored == u
    ensures outcome == Navigate(GoByRole(Prop(stored, "rol")))
  {
    var session := new AuthContext.AuthSession(None, None);
    var none := AuthContext.Failure(Undefined);
    var loginResp := LoginAnswer(u, token);
    assert IsTruthy(u);
    var request, result, me;
    outcome, request, result, me := HandleSubmitFixed(session, "1234567", "secret", loginResp, none, none, none, none);
    assert result.LoginOk? && session.token == Some(token);
    assert me == AuthContext.RefreshedUser(none, none) == Null;
    stored := session.user;
  }
}
