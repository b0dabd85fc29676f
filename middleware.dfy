// middleware.ts: the decision taken for every page request, from the session
// the cookie carries and the requested pathname. Reading the cookie is the
// Auth model; here its outcome is an input (Err when getSession threw).

module Middleware {
  import opened Base
  import opened Auth

  const Login: string := "/login"
  const PrefijoEscuela: string := "/escuela/"

  /** NextResponse.next() or a redirect to a pathname, with the `from` search parameter when it is set. */
  datatype Respuesta = Siguiente | Redirigir(destino: string, from: Option<string>)

  /** The session's cct when it is an escuela session with a truthy (non-empty) cct. */
  function CctPropio(s: Session): Option<string>
  {
    if s.tipo == Escuela && s.cct.Some? && s.cct.value != "" then s.cct else None
  }

  /** `path.match(/^\/escuela\/([^/]+)/)?.[1]`: the first segment after `/escuela/`, when non-empty. */
  function EscuelaDeRuta(path: string): (r: Option<string>)
    ensures r.Some? ==> r.value != [] && '/' !in r.value && |PrefijoEscuela| + |r.value| <= |path| && path[..|PrefijoEscuela| + |r.value|] == PrefijoEscuela + r.value
    ensures r.Some? <==> |path| > |PrefijoEscuela| && path[..|PrefijoEscuela|] == PrefijoEscuela && path[|PrefijoEscuela|] != '/'
  {
    if |path| > |PrefijoEscuela| && path[..|PrefijoEscuela|] == PrefijoEscuela && path[|PrefijoEscuela|] != '/' then
      var x := HastaChar(path[|PrefijoEscuela|..], '/');
      assert path[..|PrefijoEscuela| + |x|] == PrefijoEscuela + x;
      Some(x)
    else None
  }

  /** The own school's page of an escuela session. */
  function PaginaPropia(cct: string): string
  {
    PrefijoEscuela + cct
  }

  /** middleware: the response to a request for `path` given the outcome of getSession. */
  function Decidir(leida: Result<Option<Session>, string>, path: string): (r: Respuesta)
    // No session (or getSession threw): /login passes, anything else goes to /login?from=<path>.
    ensures (leida.Err? || leida.value.None?) ==>
              r == (if path == Login then Siguiente else Redirigir(Login, Some(path)))
    // An escuela session with a cct is kept to its own school.
    ensures leida.Ok? && leida.value.Some? && CctPropio(leida.value.value).Some? ==>
              var cct := CctPropio(leida.value.value).value;
              r == (if (EscuelaDeRuta(path).Some? && EscuelaDeRuta(path).value != cct) || path == "/" || path == "/escuelas" || path == Login
                    then Redirigir(PaginaPropia(cct), None)
                    else Siguiente)
    // Any other session passes every path but /login, which sends it to the start page.
    ensures leida.Ok? && leida.value.Some? && CctPropio(leida.value.value).None? ==>
              r == (if path == Login then Redirigir("/", None) else Siguiente)
  {
    var session := if leida.Err? then None else leida.value;
    if session.None? then
      if path == Login then Siguiente else Redirigir(Login, Some(path))
    else
      var propio := CctPropio(session.value);
      if propio.Some? && EscuelaDeRuta(path).Some? && EscuelaDeRuta(path).value != propio.value then
        Redirigir(PaginaPropia(propio.value), None)
      else if propio.Some? && (path == "/" || path == "/escuelas") then
        Redirigir(PaginaPropia(propio.value), None)
      else if path == Login then
        if propio.Some? then Redirigir(PaginaPropia(propio.value), None) else Redirigir("/", None)
      else Siguiente
  }

  /**
   * Authorisation: a request passes only (a) to /login without a session, or
   * (b) with a super session or an escuela session lacking a cct, anywhere but
   * /login, or (c) with an escuela session for cct c, on a path that is not
   * /login, / or /escuelas and is no other school's page.
   */
  lemma PasaSoloAutorizado(leida: Result<Option<Session>, string>, path: string)
    requires Decidir(leida, path) == Siguiente
    ensures (leida.Err? || leida.value.None?) ==> path == Login
    ensures leida.Ok? && leida.value.Some? ==> path != Login
    ensures leida.Ok? && leida.value.Some? && CctPropio(leida.value.value).Some? ==>
              path != "/" && path != "/escuelas" &&
              forall x :: EscuelaDeRuta(path) == Some(x) ==> x == CctPropio(leida.value.value).value
  {
  }

  /** An escuela session never reaches another school's page: it is sent to its own. */
  lemma OtraEscuelaRedirige(s: Session, cct: string, x: string, resto: string)
    requires CctPropio(s) == Some(cct)
    requires x != [] && '/' !in x && x != cct
    requires resto == [] || resto[0] == '/'
    ensures Decidir(Ok(Some(s)), PrefijoEscuela + x + resto) == Redirigir(PaginaPropia(cct), None)
  {
    var path := PrefijoEscuela + x + resto;
    assert path[..|PrefijoEscuela|] == PrefijoEscuela;
    assert path[|PrefijoEscuela|..] == x + resto;
    HastaCharAntes(x, resto, '/');
    assert path[|PrefijoEscuela|] == x[0];
  }

  /** Its own school's pages pass. */
  lemma PropiaEscuelaPasa(s: Session, cct: string, resto: string)
    requires CctPropio(s) == Some(cct)
    requires '/' !in cct
    requires resto == [] || resto[0] == '/'
    ensures Decidir(Ok(Some(s)), PrefijoEscuela + cct + resto) == Siguiente
  {
    var path := PrefijoEscuela + cct + resto;
    assert path[..|PrefijoEscuela|] == PrefijoEscuela;
    assert path[|PrefijoEscuela|..] == cct + resto;
    HastaCharAntes(cct, resto, '/');
    assert path[|PrefijoEscuela|] == cct[0];
    assert path != Login by {
      assert path[1] == 'e' && Login[1] == 'l';
    }
    assert |path| > |"/escuelas"|;
  }
}
