// app/api/login/route.ts: the POST handler of the login form, as the ladder
// of redirects it answers with. Reading the request body is abstract (its
// outcome is an input), verifyPassword is the AuthData model and
// createSessionCookie the Auth model; encodeURIComponent is a parameter.

module LoginRoute {
  import opened Base
  import opened JsString
  import opened Auth
  import opened AuthData

  /** checkAuthSecret: None when the trimmed AUTH_SECRET has at least 16 characters, else "AUTH_SECRET". */
  function CheckAuthSecret(env: Entorno): (r: Option<string>)
    ensures r.None? <==> |Trim(env.authSecret.GetOr(""))| >= 16
    ensures r.Some? ==> r.value == SecretVar
  {
    if |Trim(env.authSecret.GetOr(""))| >= 16 then None else Some(SecretVar)
  }

  /** The options of `res.cookies.set`. */
  datatype Cookie = Cookie(name: string, value: string, httpOnly: bool, secure: bool, sameSite: string, maxAge: int, path: string)

  /** A 302 redirect, with the session cookie on success. */
  datatype Respuesta = Respuesta(destino: string, cookie: Option<Cookie>)

  /**
   * What the request body yields: Ok(Some(p)) when the `password` field is a
   * string, Ok(None) when it is not, Err(message) when reading the body throws.
   */
  type Cuerpo = Result<Option<string>, string>

  /** The login form's collaborators that the handler calls. */
  datatype Servicios = Servicios(
    envSuperPassword: Option<string>,   // AUTH_SUPER_PASSWORD
    datos: Datos,                       // load() of lib/auth-data.json
    hash: string -> string,             // hashPassword (SHA-256, hex)
    oraculos: Oraculos,                 // the primitives createSessionCookie uses
    encodeUri: string -> string)        // encodeURIComponent

  /** `s.includes(t)`. */
  predicate Incluye(s: string, t: string)
    decreases |s|
  {
    |t| <= |s| && (s[..|t|] == t || Incluye(s[1..], t))
  }

  lemma {:induction false} IncluyeEn(p: string, t: string, q: string)
    ensures Incluye(p + t + q, t)
    decreases |p|
  {
    if p == [] {
      assert (p + t + q)[..|t|] == t;
    } else {
      assert (p + t + q)[1..] == p[1..] + t + q;
      IncluyeEn(p[1..], t, q);
    }
  }

  /** The `catch` branch: the message shown on the login page. */
  function MensajeError(env: Entorno, message: string): (msg: string)
    ensures env.nodeEnv == Some("development") ==> msg == message
    ensures env.nodeEnv != Some("development") ==> msg == (if Incluye(message, SecretVar) then "auth_secret_required" else "error")
  {
    if env.nodeEnv == Some("development") then message
    else if Incluye(message, SecretVar) then "auth_secret_required"
    else "error"
  }

  /** The session cookie set on success: httpOnly, path /, lax, secure in production, 30 days. */
  function CookieDeSesion(env: Entorno, value: string): (c: Cookie)
    ensures c.maxAge * 1000 == ExpiresMs
    ensures c.name == CookieName && c.value == value && c.httpOnly && c.path == "/"
  {
    Cookie(CookieName, value, true, env.nodeEnv == Some("production"), "lax", 30 * 24 * 60 * 60, "/")
  }

  /** Where a new session is sent: its own school for an escuela session with a cct, else the start page. */
  function Destino(s: Session): string
  {
    if s.tipo == Escuela && s.cct.Some? && s.cct.value != "" then "/escuela/" + s.cct.value else "/"
  }

  /** POST: the response to a login attempt at time `ahora`. */
  function Post(env: Entorno, cuerpo: Cuerpo, ahora: int, sv: Servicios): (r: Respuesta)
    ensures CheckAuthSecret(env).Some? ==> r == Respuesta("/login?error=server&msg=auth_secret_required", None)
    ensures r.cookie.Some? ==> CheckAuthSecret(env).None? && cuerpo.Ok? && cuerpo.value.Some?
    // The catch block: a body read that throws redirects with the shown message and sets no cookie.
    ensures CheckAuthSecret(env).None? && cuerpo.Err? ==>
              r == Respuesta("/login?error=server&msg=" + sv.encodeUri(MensajeError(env, cuerpo.error)), None)
  {
    if CheckAuthSecret(env).Some? then
      Respuesta("/login?error=server&msg=auth_secret_required", None)
    else if cuerpo.Err? then
      Respuesta("/login?error=server&msg=" + sv.encodeUri(MensajeError(env, cuerpo.error)), None)
    else
      var password := if cuerpo.value.Some? then NormalizePasswordForVerify(cuerpo.value.value) else "";
      if password == "" then Respuesta("/login?error=empty", None)
      else
        var session := Verificar(password, sv.envSuperPassword, sv.datos, sv.hash);
        if session.None? then Respuesta("/login?error=invalid", None)
        else
          match CreateSessionCookie(session.value, env, ahora, sv.oraculos)
          case Err(m) => Respuesta("/login?error=server&msg=" + sv.encodeUri(MensajeError(env, m)), None)
          case Ok(value) => Respuesta(Destino(session.value), Some(CookieDeSesion(env, value)))
  }

  /** Once checkAuthSecret passes, createSessionCookie cannot throw: the same trimmed secret is long enough. */
  lemma SecretoListo(env: Entorno, s: Session, ahora: int, o: Oraculos)
    requires CheckAuthSecret(env).None?
    ensures CreateSessionCookie(s, env, ahora, o).Ok?
  {
  }

  /**
   * The ladder: an empty password (after normalisation) is refused as empty,
   * an unrecognised one as invalid, and a recognised one gets the session
   * cookie createSessionCookie makes and is sent to its page.
   */
  lemma PostEscalera(env: Entorno, p: string, ahora: int, sv: Servicios)
    requires CheckAuthSecret(env).None?
    ensures var password := NormalizePasswordForVerify(p);
            var session := Verificar(password, sv.envSuperPassword, sv.datos, sv.hash);
            var r := Post(env, Ok(Some(p)), ahora, sv);
            (password == [] ==> r == Respuesta("/login?error=empty", None)) &&
            (password != [] && session.None? ==> r == Respuesta("/login?error=invalid", None)) &&
            (password != [] && session.Some? ==>
               r.destino == Destino(session.value) && r.cookie.Some? &&
               Ok(r.cookie.value.value) == CreateSessionCookie(session.value, env, ahora, sv.oraculos))
    ensures Post(env, Ok(None), ahora, sv) == Respuesta("/login?error=empty", None)
  {
    var password := NormalizePasswordForVerify(p);
    if password != [] {
      var session := Verificar(password, sv.envSuperPassword, sv.datos, sv.hash);
      if session.Some? {
        SecretoListo(env, session.value, ahora, sv.oraculos);
      }
    }
  }

  /** In production an error message never reaches the page: it becomes auth_secret_required or error. */
  lemma ProduccionNoFiltra(env: Entorno, message: string)
    requires env.nodeEnv != Some("development")
    ensures MensajeError(env, message) == "auth_secret_required" || MensajeError(env, message) == "error"
  {
  }

  /**
   * Outside development a failed body read sends the user to one of two fixed
   * server-error pages, and the raw message never reaches the address.
   */
  lemma PostFallaLectura(env: Entorno, m: string, ahora: int, sv: Servicios)
    requires CheckAuthSecret(env).None? && env.nodeEnv != Some("development")
    ensures var r := Post(env, Err(m), ahora, sv);
            r.cookie.None? &&
            (r.destino == "/login?error=server&msg=" + sv.encodeUri("auth_secret_required") ||
             r.destino == "/login?error=server&msg=" + sv.encodeUri("error"))
  {
    ProduccionNoFiltra(env, m);
  }

  /** getSecret's error, shown in production, is the auth_secret_required message. */
  lemma MensajeDelSecreto(env: Entorno)
    requires env.nodeEnv != Some("development")
    ensures MensajeError(env, SecretMessage) == "auth_secret_required"
  {
    IncluyeEn("Configura ", SecretVar, " (mínimo 16 caracteres) en Variables de entorno de Vercel.");
  }
}
