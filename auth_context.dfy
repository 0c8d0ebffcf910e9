/** The session of src/context/AuthContext.jsx. Browser storage is two slots, `token` and
    `user`; the provider also keeps the current `user` and a `booting` flag. The answers of
    the HTTP endpoints the operations call are passed in as parameters. */
module AuthContext {
  import opened Js

  /** What the `user` slot holds: `JSON.stringify(u)` of some value, or text that is not
      JSON at all. Serialization itself is not modelled: parsing what was stored gives the
      stored value back. */
  datatype StoredUser = Serialized(value: Json) | Corrupt

  /** The answer of an HTTP call: a response body, or a failure carrying
      `e?.response?.data?.detail`. */
  datatype HttpResult = Response(data: Json) | Failure(detail: Json)

  /** What `login` resolves to: `{ ok: true }` or `{ ok: false, error }`. */
  datatype LoginResult = LoginOk | LoginFailed(error: Json)

  /** `safeJSONParse(localStorage.getItem("user"))`: a missing slot reads as `JSON.parse(null)`,
      which is null, and text that does not parse is caught and gives null. */
  function SafeJsonParse(slot: Option<StoredUser>): (v: Json)
    ensures slot.None? || slot == Some(Corrupt) ==> v == Null
    ensures slot.Some? && slot.value.Serialized? ==> v == slot.value.value
  {
    match slot
    case None => Null
    case Some(Corrupt) => Null
    case Some(Serialized(u)) => u
  }

  /** `r.data?.user || r.data`: the user inside a response body, or the body itself. */
  function UserFrom(data: Json): (u: Json)
    ensures IsTruthy(Prop(data, "user")) ==> u == Prop(data, "user")
    ensures IsFalsy(Prop(data, "user")) ==> u == data
  {
    Or(Prop(data, "user"), data)
  }

  /** The user one profile endpoint yields: `UserFrom` of its body, or nothing when the call
      failed (the error is caught and the next endpoint tried). */
  function ProfileOf(r: HttpResult): (u: Json)
    ensures r.Failure? ==> u == Null
    ensures r.Response? ==> u == UserFrom(r.data)
  {
    if r.Response? then UserFrom(r.data) else Null
  }

  /** The user `refreshMe` settles on once a token is present: the first truthy profile of
      GET /auth/me and GET /users/me, otherwise null. */
  function RefreshedUser(authMe: HttpResult, usersMe: HttpResult): (u: Json)
    ensures IsTruthy(ProfileOf(authMe)) ==> u == ProfileOf(authMe)
    ensures IsFalsy(ProfileOf(authMe)) && IsTruthy(ProfileOf(usersMe)) ==> u == ProfileOf(usersMe)
    ensures IsFalsy(ProfileOf(authMe)) && IsFalsy(ProfileOf(usersMe)) ==> u == Null
    ensures IsTruthy(u) || u == Null
  {
    if IsTruthy(ProfileOf(authMe)) then ProfileOf(authMe)
    else if IsTruthy(ProfileOf(usersMe)) then ProfileOf(usersMe)
    else Null
  }

  /** The fallback user `login` stores when no profile endpoint answers. */
  function FallbackLoginUser(numeroDocumento: string): (u: Json)
    ensures IsTruthy(u) && Prop(u, "rol") == Str("REPRESENTANTE")
    ensures Prop(u, "numero_documento") == Str(numeroDocumento)
  {
    Obj(map["rol" := Str("REPRESENTANTE"), "numero_documento" := Str(numeroDocumento)])
  }

  /** The fallback user the boot effect stores when nothing is known about the session. */
  const FallbackBootUser: Json := Obj(map["rol" := Str("REPRESENTANTE")])

  class AuthSession {
    var token: Option<string>
    var userSlot: Option<StoredUser>
    var user: Json
    var booting: bool

    /** A fresh provider over whatever the browser had stored. */
    constructor (token: Option<string>, userSlot: Option<StoredUser>)
      ensures this.token == token && this.userSlot == userSlot
      ensures user == Null && booting
    {
      this.token := token;
      this.userSlot := userSlot;
      user := Null;
      booting := true;
    }

    /** `!!localStorage.getItem("token")`: a stored, non-empty token. */
    predicate IsAuthenticated()
      reads this
      ensures IsAuthenticated() <==> token.Some? && token.value != ""
    {
      token.Some? && token.value != ""
    }

    /** The `user` slot and the in-memory user agree: both empty, or the slot holds the user. */
    ghost predicate InSync()
      reads this
    {
      (IsFalsy(user) && userSlot.None?) || (IsTruthy(user) && userSlot == Some(Serialized(user)))
    }

    /** `persistUser(u)`: removes the slot and clears the user for a falsy `u`, otherwise stores
        and sets `u`. The token is never touched. */
    method PersistUser(u: Json)
      modifies this
      ensures IsFalsy(u) ==> userSlot.None? && user == Null
      ensures IsTruthy(u) ==> userSlot == Some(Serialized(u)) && user == u
      ensures InSync()
      ensures token == old(token) && booting == old(booting)
    {
      if IsFalsy(u) {
        userSlot := None;
        user := Null;
        return;
      }
      userSlot := Some(Serialized(u));
      user := u;
    }

    /** `refreshMe()`, with the answers of GET /auth/me and GET /users/me as `authMe` and
        `usersMe`. `tried` lists the endpoints requested, in order. */
    method RefreshMe(authMe: HttpResult, usersMe: HttpResult) returns (me: Json, tried: seq<string>)
      modifies this
      ensures token == old(token) && booting == old(booting)
      ensures !old(IsAuthenticated()) ==> tried == [] && me == Null && user == Null && userSlot.None?
      ensures old(IsAuthenticated()) ==> me == RefreshedUser(authMe, usersMe)
      ensures old(IsAuthenticated()) ==>
        tried == (if IsTruthy(ProfileOf(authMe)) then ["/auth/me"] else ["/auth/me", "/users/me"])
      ensures IsTruthy(me) ==> user == me && userSlot == Some(Serialized(me))
      ensures old(IsAuthenticated()) && IsFalsy(me) ==> user == old(user) && userSlot == old(userSlot)
      ensures old(InSync()) ==> InSync()
    {
      if !IsAuthenticated() {
        PersistUser(Null);
        return Null, [];
      }
      tried := ["/auth/me"];
      if authMe.Response? {
        var u := UserFrom(authMe.data);
        if IsTruthy(u) {
          PersistUser(u);
          return u, tried;
        }
      }
      tried := tried + ["/users/me"];
      if usersMe.Response? {
        var u2 := UserFrom(usersMe.data);
        if IsTruthy(u2) {
          PersistUser(u2);
          return u2, tried;
        }
      }
      return Null, tried;
    }

    /** `login(numero_documento, password)`, with the answer of POST /auth/login as `loginResp`
        and those of the profile endpoints as `authMe` and `usersMe`. `request` is the body
        posted to /auth/login. */
    method Login(numeroDocumento: string, password: string, loginResp: HttpResult,
                 authMe: HttpResult, usersMe: HttpResult) returns (r: LoginResult, request: Record)
      modifies this
      ensures request == map["numero_documento" := Str(numeroDocumento), "password" := Str(password)]
      ensures booting == old(booting)
      ensures loginResp.Failure? ==>
        r == LoginFailed(Or(loginResp.detail, Str("Credenciales incorrectas o error de servidor")))
      ensures loginResp.Response? && IsFalsy(Prop(loginResp.data, "access_token")) ==>
        r == LoginFailed(Str("Login inválido: no llegó access_token"))
      ensures r.LoginFailed? ==> token == old(token) && userSlot == old(userSlot) && user == old(user)
      ensures r.LoginOk? <==> loginResp.Response? && IsTruthy(Prop(loginResp.data, "access_token"))
      ensures r.LoginOk? ==> token == Some(ToStr(Prop(loginResp.data, "access_token")))
      ensures r.LoginOk? && IsTruthy(Prop(loginResp.data, "user")) ==> user == Prop(loginResp.data, "user")
      ensures r.LoginOk? && IsFalsy(Prop(loginResp.data, "user")) ==>
        user == (if IsAuthenticated() && IsTruthy(RefreshedUser(authMe, usersMe))
                 then RefreshedUser(authMe, usersMe) else FallbackLoginUser(numeroDocumento))
      ensures r.LoginOk? ==> IsTruthy(user) && InSync()
    {
      request := map["numero_documento" := Str(numeroDocumento), "password" := Str(password)];
      if loginResp.Failure? {
        return LoginFailed(Or(loginResp.detail, Str("Credenciales incorrectas o error de servidor"))), request;
      }
      var accessToken := Prop(loginResp.data, "access_token");
      if IsFalsy(accessToken) {
        return LoginFailed(Str("Login inválido: no llegó access_token")), request;
      }
      token := Some(ToStr(accessToken));
      var userFromLogin := Prop(loginResp.data, "user");
      if IsTruthy(userFromLogin) {
        PersistUser(userFromLogin);
        return LoginOk, request;
      }
      var me, tried := RefreshMe(authMe, usersMe);
      if IsFalsy(me) {
        PersistUser(FallbackLoginUser(numeroDocumento));
      }
      return LoginOk, request;
    }

    /** `logout()`: both slots removed and the user cleared. */
    method Logout()
      modifies this
      ensures token.None? && userSlot.None? && user == Null
      ensures booting == old(booting)
      ensures !IsAuthenticated() && InSync()
    {
      token := None;
      userSlot := None;
      user := Null;
    }

    /** The boot effect: restore the stored user when there is a token, refresh it, fall back to
        a representative when nothing is known, and end booting. */
    method Boot(authMe: HttpResult, usersMe: HttpResult)
      modifies this
      ensures !booting
      ensures token == old(token)
      ensures !old(IsAuthenticated()) ==> user == old(user) && userSlot == old(userSlot)
      ensures old(IsAuthenticated()) ==> IsTruthy(user) && InSync()
      ensures old(IsAuthenticated()) && IsTruthy(RefreshedUser(authMe, usersMe)) ==>
        user == RefreshedUser(authMe, usersMe)
      ensures old(IsAuthenticated()) && IsFalsy(RefreshedUser(authMe, usersMe)) ==>
        user == (if IsTruthy(SafeJsonParse(old(userSlot))) then SafeJsonParse(old(userSlot)) else FallbackBootUser)
    {
      var storedUser := SafeJsonParse(userSlot);
      if IsAuthenticated() && IsTruthy(storedUser) {
        user := storedUser;
      }
      if IsAuthenticated() {
        var me, tried := RefreshMe(authMe, usersMe);
        if IsFalsy(me) && IsFalsy(storedUser) {
          PersistUser(FallbackBootUser);
        }
      }
      booting := false;
    }
  }
}
