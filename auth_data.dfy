// lib/auth-data.ts: the password check behind the login form. The file
// lib/auth-data.json arrives parsed (None when it cannot be read or parsed);
// SHA-256 and the environment variables are parameters.

module AuthData {
  import opened Base
  import opened JsString
  import opened Auth

  // ---- normalizePasswordForVerify ----

  /** U+200B to U+200D and U+FEFF, removed after the whitespace. */
  predicate EsInvisible(c: char)
  {
    ('\U{200B}' <= c <= '\U{200D}') || c == '\U{FEFF}'
  }

  /** The characters normalisation drops: whitespace (`\s`) and the invisible ones. */
  predicate Descartable(c: char)
  {
    IsWhite(c) || EsInvisible(c)
  }

  /** `s.replace(/[…]/g, "")` for a character class `f`: the characters of `s` outside it, in order. */
  function Quitar(s: string, f: char -> bool): (r: string)
    ensures |r| <= |s|
    ensures forall k :: 0 <= k < |r| ==> !f(r[k])
  {
    if s == [] then []
    else Quitar(s[..|s| - 1], f) + (if f(s[|s| - 1]) then [] else [s[|s| - 1]])
  }

  /** normalizePasswordForVerify: trim, drop all whitespace, drop the zero-width characters and BOM. */
  function NormalizePasswordForVerify(p: string): (r: string)
    ensures forall k :: 0 <= k < |r| ==> !Descartable(r[k])
  {
    var r := Quitar(Quitar(Trim(p), IsWhite), EsInvisible);
    assert forall k :: 0 <= k < |r| ==> !IsWhite(r[k]) by {
      QuitarConserva(Quitar(Trim(p), IsWhite), EsInvisible, IsWhite);
    }
    r
  }

  lemma {:induction false} QuitarConserva(s: string, f: char -> bool, g: char -> bool)
    requires forall k :: 0 <= k < |s| ==> !g(s[k])
    ensures forall k :: 0 <= k < |Quitar(s, f)| ==> !g(Quitar(s, f)[k])
  {
    if s != [] {
      QuitarConserva(s[..|s| - 1], f, g);
    }
  }

  lemma {:induction false} QuitarConcat(a: string, b: string, f: char -> bool)
    ensures Quitar(a + b, f) == Quitar(a, f) + Quitar(b, f)
  {
    if b != [] {
      assert (a + b)[..|a + b| - 1] == a + b[..|b| - 1];
      QuitarConcat(a, b[..|b| - 1], f);
    } else {
      assert a + b == a;
    }
  }

  lemma {:induction false} QuitarTodo(s: string, f: char -> bool)
    requires forall k :: 0 <= k < |s| ==> f(s[k])
    ensures Quitar(s, f) == []
  {
    if s != [] {
      QuitarTodo(s[..|s| - 1], f);
    }
  }

  /** Dropping two classes one after the other is dropping their union. */
  lemma {:induction false} QuitarDos(s: string)
    ensures Quitar(Quitar(s, IsWhite), EsInvisible) == Quitar(s, Descartable)
  {
    if s != [] {
      var n := |s| - 1;
      QuitarDos(s[..n]);
      QuitarConcat(Quitar(s[..n], IsWhite), if IsWhite(s[n]) then [] else [s[n]], EsInvisible);
      if !IsWhite(s[n]) {
        assert Quitar([s[n]], EsInvisible) == (if EsInvisible(s[n]) then [] else [s[n]]) by {
          assert [s[n]][..0] == [];
        }
      }
    }
  }

  /** Trimming first changes nothing: whitespace is dropped everywhere anyway. */
  lemma TrimAntesDeQuitar(s: string)
    ensures Quitar(Trim(s), IsWhite) == Quitar(s, IsWhite)
  {
    var t := TrimStart(s);
    var r := TrimEnd(t);
    var a := s[..|s| - |t|];
    var b := t[|r|..];
    TresPiezas(s, t, r);
    QuitarEntreBlancos(a, r, b);
  }

  /** Whitespace around a text adds nothing once whitespace is dropped. */
  lemma QuitarEntreBlancos(a: string, m: string, b: string)
    requires AllWhite(a) && AllWhite(b)
    ensures Quitar(a + m + b, IsWhite) == Quitar(m, IsWhite)
  {
    QuitarConcat(a + m, b, IsWhite);
    QuitarConcat(a, m, IsWhite);
    QuitarTodo(a, IsWhite);
    QuitarTodo(b, IsWhite);
    assert [] + Quitar(m, IsWhite) + [] == Quitar(m, IsWhite);
  }

  /** Normalisation keeps exactly the characters that are neither whitespace nor invisible, in order. */
  lemma NormalizeEsFiltrar(p: string)
    ensures NormalizePasswordForVerify(p) == Quitar(p, Descartable)
  {
    TrimAntesDeQuitar(p);
    QuitarDos(p);
  }

  /** Text with nothing to drop is left alone. */
  lemma {:induction false} QuitarNada(s: string, f: char -> bool)
    requires forall k :: 0 <= k < |s| ==> !f(s[k])
    ensures Quitar(s, f) == s
  {
    if s != [] {
      QuitarNada(s[..|s| - 1], f);
    }
  }

  /** Normalising twice is normalising once. */
  lemma NormalizeIdempotente(p: string)
    ensures NormalizePasswordForVerify(NormalizePasswordForVerify(p)) == NormalizePasswordForVerify(p)
  {
    var n := NormalizePasswordForVerify(p);
    NormalizeEsFiltrar(n);
    QuitarNada(n, Descartable);
  }

  // ---- verifyPassword ----

  /** The loaded auth data: the super hash and the `escuelas` entries in Object.entries order. */
  datatype Datos = Datos(superUsuario: string, escuelas: seq<(string, Json)>)

  /**
   * `h != null && String(h).trim() === hash`, for string values; other values
   * never match. The trim is a parameter: verifyPassword passes String.prototype.trim.
   */
  predicate Coincide(h: Json, hash: string, recortar: string -> string)
  {
    h.JStr? && recortar(h.s) == hash
  }

  /** The index of the first entry from `desde` on whose stored hash matches; |es| when none does. */
  function IndicePrimera(es: seq<(string, Json)>, hash: string, recortar: string -> string, desde: nat): (i: nat)
    requires desde <= |es|
    ensures desde <= i <= |es|
    ensures forall j :: desde <= j < i ==> !Coincide(es[j].1, hash, recortar)
    ensures i < |es| ==> Coincide(es[i].1, hash, recortar)
    decreases |es| - desde
  {
    if desde == |es| then desde
    else if Coincide(es[desde].1, hash, recortar) then desde
    else IndicePrimera(es, hash, recortar, desde + 1)
  }

  /** The cct of the first entry whose stored hash matches, in iteration order. */
  function PrimeraEscuela(es: seq<(string, Json)>, hash: string, recortar: string -> string): (r: Option<string>)
    ensures r.None? <==> forall j :: 0 <= j < |es| ==> !Coincide(es[j].1, hash, recortar)
    ensures r.Some? ==> var i := IndicePrimera(es, hash, recortar, 0);
                        i < |es| && es[i].0 == r.value && Coincide(es[i].1, hash, recortar) &&
                        forall j :: 0 <= j < i ==> !Coincide(es[j].1, hash, recortar)
  {
    var i := IndicePrimera(es, hash, recortar, 0);
    if i < |es| then Some(es[i].0) else None
  }

  /** `process.env.AUTH_SUPER_PASSWORD?.trim()`, when truthy. */
  function EnvSuper(envSuperPassword: Option<string>): Option<string>
  {
    if envSuperPassword.Some? && Trim(envSuperPassword.value) != "" then Some(Trim(envSuperPassword.value)) else None
  }

  /** The result verifyPassword promises, step by step. */
  function Verificar(password: string, envSuperPassword: Option<string>, datos: Datos, hash: string -> string): (r: Option<Session>)
    // An empty normalised password is refused outright.
    ensures NormalizePasswordForVerify(password) == [] ==> r.None?
    // The env super password wins before any hash is looked at.
    ensures NormalizePasswordForVerify(password) != [] && EnvSuper(envSuperPassword).Some? &&
            NormalizePasswordForVerify(password) == NormalizePasswordForVerify(EnvSuper(envSuperPassword).value)
            ==> r == Some(Session(Super, None))
    // A super session is either that or a non-empty stored super hash equal to the password's hash.
    ensures r.Some? && r.value.tipo == Super ==>
              (EnvSuper(envSuperPassword).Some? &&
               NormalizePasswordForVerify(password) == NormalizePasswordForVerify(EnvSuper(envSuperPassword).value)) ||
              (Trim(datos.superUsuario) != "" && hash(NormalizePasswordForVerify(password)) == Trim(datos.superUsuario))
    // A school session is the first entry whose hash matches, and only when super did not match.
    ensures r.Some? && r.value.tipo == Escuela ==>
              Trim(datos.superUsuario) == "" || hash(NormalizePasswordForVerify(password)) != Trim(datos.superUsuario)
    ensures r.Some? && r.value.tipo == Escuela ==>
              r.value.cct == PrimeraEscuela(datos.escuelas, hash(NormalizePasswordForVerify(password)), Trim)
    ensures NormalizePasswordForVerify(password) != [] && r.None? ==>
              PrimeraEscuela(datos.escuelas, hash(NormalizePasswordForVerify(password)), Trim).None?
    // The stored super hash: a non-empty trimmed hash equal to the password's hash logs in as super.
    ensures NormalizePasswordForVerify(password) != [] &&
            Trim(datos.superUsuario) != "" && hash(NormalizePasswordForVerify(password)) == Trim(datos.superUsuario)
            ==> r == Some(Session(Super, None))
    // Past both super tests, the first matching school entry, or refusal.
    ensures NormalizePasswordForVerify(password) != [] &&
            !(EnvSuper(envSuperPassword).Some? &&
              NormalizePasswordForVerify(password) == NormalizePasswordForVerify(EnvSuper(envSuperPassword).value)) &&
            !(Trim(datos.superUsuario) != "" && hash(NormalizePasswordForVerify(password)) == Trim(datos.superUsuario))
            ==> var cct := PrimeraEscuela(datos.escuelas, hash(NormalizePasswordForVerify(password)), Trim);
                r == (if cct.Some? then Some(Session(Escuela, cct)) else None)
  {
    var normalized := NormalizePasswordForVerify(password);
    if normalized == [] then None
    else if EnvSuper(envSuperPassword).Some? && normalized == NormalizePasswordForVerify(EnvSuper(envSuperPassword).value) then
      Some(Session(Super, None))
    else
      var h := hash(normalized);
      var superHash := Trim(datos.superUsuario);
      if superHash != "" && h == superHash then Some(Session(Super, None))
      else
        var cct := PrimeraEscuela(datos.escuelas, h, Trim);
        if cct.Some? then Some(Session(Escuela, cct)) else None
  }

  /** verifyPassword, with its loop over the school entries and first-match return. */
  method VerifyPassword(password: string, envSuperPassword: Option<string>, datos: Datos, hash: string -> string)
    returns (r: Option<Session>)
    ensures r == Verificar(password, envSuperPassword, datos, hash)
  {
    var normalized := NormalizePasswordForVerify(password);
    if normalized == [] {
      return None;
    }
    var envSuper := EnvSuper(envSuperPassword);
    if envSuper.Some? && normalized == NormalizePasswordForVerify(envSuper.value) {
      return Some(Session(Super, None));
    }
    var h := hash(normalized);
    var superHash := Trim(datos.superUsuario);
    if superHash != "" && h == superHash {
      return Some(Session(Super, None));
    }
    var cct := BuscarEscuela(datos.escuelas, h, Trim);
    if cct.Some? {
      return Some(Session(Escuela, cct));
    }
    return None;
  }

  /** The `for (const [cct, h] of Object.entries(data.escuelas))` loop, returning at the first match. */
  method BuscarEscuela(es: seq<(string, Json)>, h: string, recortar: string -> string) returns (r: Option<string>)
    ensures r == PrimeraEscuela(es, h, recortar)
  {
    var i := 0;
    while i < |es|
      invariant 0 <= i <= |es|
      invariant forall j :: 0 <= j < i ==> !Coincide(es[j].1, h, recortar)
    {
      if es[i].1.JStr? && recortar(es[i].1.s) == h {
        ghost var k := IndicePrimera(es, h, recortar, 0);
        assert k == i;
        return Some(es[i].0);
      }
      i := i + 1;
    }
    return None;
  }

  // ---- load ----

  /** `k.replace(/﻿/g, "")`. */
  predicate EsBom(c: char)
  {
    c == '\U{FEFF}'
  }

  /** A key that names the super user once its BOMs are removed. */
  predicate NombraSuper(k: string)
  {
    Quitar(k, EsBom) == "superUsuario" || Quitar(k, EsBom) == "super"
  }

  /** `Object.keys(parsed).find(...)`: the first key naming the super user once BOMs are removed. */
  function ClaveSuper(obj: seq<(string, Json)>): (r: Option<string>)
    ensures r.Some? ==> NombraSuper(r.value) &&
                        exists j :: 0 <= j < |obj| && obj[j].0 == r.value && forall i :: 0 <= i < j ==> !NombraSuper(obj[i].0)
    ensures r.None? ==> forall j :: 0 <= j < |obj| ==> !NombraSuper(obj[j].0)
  {
    if obj == [] then None
    else if NombraSuper(obj[0].0) then
      Some(obj[0].0)
    else
      var r := ClaveSuper(obj[1..]);
      assert forall j :: 1 <= j < |obj| ==> obj[j] == obj[1..][j - 1];
      if r.Some? then
        var j :| 0 <= j < |obj[1..]| && obj[1..][j].0 == r.value && forall i :: 0 <= i < j ==> !NombraSuper(obj[1..][i].0);
        assert obj[j + 1] == obj[1..][j];
        assert forall i :: 0 <= i < j + 1 ==> !NombraSuper(obj[i].0);
        r
      else r
  }

  /** A value that is a string, as text. */
  function Cadena(v: Option<Json>): Option<string>
  {
    if v.Some? && v.value.JStr? then Some(v.value.s) else None
  }

  /** The super hash stored in the file: `superUsuario`, else `super`, else a key that names one of them after removing BOMs. */
  function SuperDelArchivo(obj: seq<(string, Json)>): (r: string)
    ensures Cadena(Lookup(obj, "superUsuario")).Some? ==> r == Trim(Cadena(Lookup(obj, "superUsuario")).value)
    ensures Cadena(Lookup(obj, "superUsuario")).None? && Cadena(Lookup(obj, "super")).Some? ==>
              r == Trim(Cadena(Lookup(obj, "super")).value)
    ensures Cadena(Lookup(obj, "superUsuario")).None? && Cadena(Lookup(obj, "super")).None? ==>
              var clave := ClaveSuper(obj);
              r == Trim(if clave.Some? && Cadena(Lookup(obj, clave.value)).Some? then Cadena(Lookup(obj, clave.value)).value else "")
  {
    var raw :=
      if Cadena(Lookup(obj, "superUsuario")).Some? then Cadena(Lookup(obj, "superUsuario")).value
      else if Cadena(Lookup(obj, "super")).Some? then Cadena(Lookup(obj, "super")).value
      else
        var clave := ClaveSuper(obj);
        if clave.Some? && Cadena(Lookup(obj, clave.value)).Some? then Cadena(Lookup(obj, clave.value)).value else "";
    Trim(raw)
  }

  /**
   * load: the file's object, read as JavaScript does (each key once, last value
   * wins). AUTH_SUPER_HASH, trimmed, overrides the file's super hash; a file
   * that cannot be read or is not an object gives no schools.
   */
  function Load(leido: Option<Json>, envSuperHash: Option<string>): (d: Datos)
    ensures var env := Trim(envSuperHash.GetOr(""));
            (leido.None? || !leido.value.JObj? ==> d == Datos(env, [])) &&
            (env != "" ==> d.superUsuario == env) &&
            (env == "" && leido.Some? && leido.value.JObj? ==> d.superUsuario == SuperDelArchivo(ObjectOf(leido.value.entries)))
    ensures d.escuelas != [] ==> leido.Some? && leido.value.JObj? &&
                                 exists e :: LookupLast(leido.value.entries, "escuelas") == Some(JObj(e)) && d.escuelas == ObjectOf(e)
    ensures leido.Some? && leido.value.JObj? ==>
              var v := LookupLast(leido.value.entries, "escuelas");
              d.escuelas == (if v.Some? && v.value.JObj? then ObjectOf(v.value.entries) else [])
    ensures UniqueKeys(d.escuelas)
  {
    var env := Trim(envSuperHash.GetOr(""));
    if leido.None? || !leido.value.JObj? then
      Datos(env, [])
    else
      var obj := ObjectOf(leido.value.entries);
      var archivo := SuperDelArchivo(obj);
      var escuelas := Lookup(obj, "escuelas");
      ObjectOfLookup(leido.value.entries, "escuelas");
      var lista :=
        if escuelas.Some? && escuelas.value.JObj? then
          ObjectOfDistinct(escuelas.value.entries);
          ObjectOf(escuelas.value.entries)
        else [];
      Datos(if env != "" then env else archivo, lista)
  }
}
