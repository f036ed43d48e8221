/** POST /api/auth/login: checks the submitted user name and password against
    the configured administrator and, on a match, answers the user and sets
    the session cookie the middleware reads. Encoding the cookie value
    (JSON.stringify of `{username}`, then btoa) is the `writeSession`
    parameter: None where btoa throws. */
module LoginRoute {
  import opened Outcomes
  import opened Text
  import opened JsValues
  import Middleware

  datatype Cookie = Cookie(name: string, value: string, httpOnly: bool, secure: bool, sameSite: string, maxAge: int)

  datatype LoginResponse =
    | LoggedIn(message: string, username: string, name: string, cookie: Cookie)
    | Refused(status: int, error: string)

  const MissingFields := "Username dan password harus diisi"
  const NotConfigured := "Konfigurasi server tidak lengkap"
  const WrongCredentials := "Username atau password salah"
  const ServerError := "Terjadi kesalahan pada server"

  /** Seven days, in seconds. */
  const SessionMaxAge := 60 * 60 * 24 * 7

  /** The handler. `body` is the parsed request body, None where reading it
      throws; `adminUsername`, `adminPassword` and `nodeEnv` are the
      environment variables, None where unset. */
  function Post(body: Option<JsValue>, adminUsername: Option<string>, adminPassword: Option<string>,
                nodeEnv: Option<string>, writeSession: string -> Option<string>): (r: LoginResponse)
    ensures r.LoggedIn? ==> r.cookie.maxAge == 604800 && r.cookie.name == "session"
  {
    if body.None? || Nullish(body.value) then Refused(500, ServerError)
    else
      var username := OptMember(body.value, "username");
      var password := OptMember(body.value, "password");
      if !Truthy(username) || !Truthy(password) then Refused(400, MissingFields)
      else if adminUsername.None? || adminUsername.value == "" || adminPassword.None? || adminPassword.value == "" then
        Refused(500, NotConfigured)
      else if username != Str(adminUsername.value) || password != Str(adminPassword.value) then
        Refused(401, WrongCredentials)
      else
        match writeSession(adminUsername.value)
        case None => Refused(500, ServerError)
        case Some(value) =>
          LoggedIn("Login berhasil", adminUsername.value, "Admin",
                   Cookie("session", value, true, nodeEnv == Some("production"), "lax", SessionMaxAge))
  }

  // ---------------------------------------------------------------------------
  // Properties

  /** A missing or empty user name or password is refused with 400 before
      the configuration is looked at. */
  lemma MissingFieldsFirst(body: JsValue, adminUsername: Option<string>, adminPassword: Option<string>,
                           nodeEnv: Option<string>, writeSession: string -> Option<string>)
    requires !Nullish(body)
    requires !Truthy(OptMember(body, "username")) || !Truthy(OptMember(body, "password"))
    ensures Post(Some(body), adminUsername, adminPassword, nodeEnv, writeSession) == Refused(400, MissingFields)
  {
  }

  /** The configuration error is only reached with both fields given. */
  lemma NotConfiguredNeedsFields(body: Option<JsValue>, adminUsername: Option<string>, adminPassword: Option<string>,
                                 nodeEnv: Option<string>, writeSession: string -> Option<string>)
    requires Post(body, adminUsername, adminPassword, nodeEnv, writeSession) == Refused(500, NotConfigured)
    ensures body.Some? && Truthy(OptMember(body.value, "username")) && Truthy(OptMember(body.value, "password"))
    ensures adminUsername in {None, Some("")} || adminPassword in {None, Some("")}
  {
  }

  /** Sign-in succeeds exactly when both values equal the configured ones as
      strings and the cookie can be encoded; the answer names the
      administrator "Admin". */
  lemma SuccessIff(body: Option<JsValue>, adminUsername: Option<string>, adminPassword: Option<string>,
                   nodeEnv: Option<string>, writeSession: string -> Option<string>)
    ensures var r := Post(body, adminUsername, adminPassword, nodeEnv, writeSession);
      r.LoggedIn? <==>
        body.Some? && !Nullish(body.value)
        && adminUsername.Some? && adminUsername.value != "" && adminPassword.Some? && adminPassword.value != ""
        && OptMember(body.value, "username") == Str(adminUsername.value)
        && OptMember(body.value, "password") == Str(adminPassword.value)
        && writeSession(adminUsername.value).Some?
    ensures var r := Post(body, adminUsername, adminPassword, nodeEnv, writeSession);
      r.LoggedIn? ==>
        (r.username == adminUsername.value && r.name == "Admin"
         && r.cookie == Cookie("session", writeSession(adminUsername.value).value, true,
                               nodeEnv == Some("production"), "lax", 604800))
  {
  }

  /** Given both fields and the configuration, any difference from the
      configured values is refused with 401. */
  lemma MismatchRefused(username: string, password: string, adminUsername: string, adminPassword: string,
                        nodeEnv: Option<string>, writeSession: string -> Option<string>)
    requires username != "" && password != "" && adminUsername != "" && adminPassword != ""
    requires username != adminUsername || password != adminPassword
    ensures Post(Some(Obj(map["username" := Str(username), "password" := Str(password)])),
                 Some(adminUsername), Some(adminPassword), nodeEnv, writeSession) == Refused(401, WrongCredentials)
  {
    var body := Obj(map["username" := Str(username), "password" := Str(password)]);
    assert OptMember(body, "username") == Str(username);
    assert OptMember(body, "password") == Str(password);
  }

  /** The session cookie issued on success is accepted by the middleware,
      provided the written value is not empty (base64 of a non-empty JSON
      text never is) and decoding it gives back `{username}`: the
      dashboard lets the request through and the login page forwards to the
      dashboard. */
  lemma IssuedCookieSignsIn(body: Option<JsValue>, adminUsername: Option<string>, adminPassword: Option<string>,
                            nodeEnv: Option<string>, writeSession: string -> Option<string>,
                            readSession: string -> Option<JsValue>, rest: string)
    requires Post(body, adminUsername, adminPassword, nodeEnv, writeSession).LoggedIn?
    requires adminUsername.Some? && writeSession(adminUsername.value).Some? && writeSession(adminUsername.value).value != ""
    requires readSession(writeSession(adminUsername.value).value) == Some(Obj(map["username" := Str(adminUsername.value)]))
    ensures var c := Post(body, adminUsername, adminPassword, nodeEnv, writeSession).cookie;
      && Middleware.SignedIn(Some(c.value), readSession)
      && Middleware.Decide("/dashboard" + rest, Some(c.value), readSession) == Middleware.Next
      && Middleware.Decide("/login", Some(c.value), readSession) == Middleware.Redirect("/dashboard")
  {
    var c := Post(body, adminUsername, adminPassword, nodeEnv, writeSession).cookie;
    SuccessIff(body, adminUsername, adminPassword, nodeEnv, writeSession);
    var p := "/dashboard" + rest;
    assert p[..10] == Middleware.Dashboard;
    Middleware.ProtectedNeedsSession(p, Some(c.value), readSession);
    Middleware.EntryPages("/login", Some(c.value), readSession);
  }
}
