// scripts/generate-auth-simple.mjs: a fresh credential table. The super user
// gets a random 10-character password, every result cct a random
// 8-character one, redrawn until it differs from all passwords handed out
// so far; lib/auth-data.json is replaced by the super hash and the table of
// hashes. Files are abstract, SHA-256 is a parameter and Math.random a
// stream of draws; `tope` bounds the draws a run may make, and a run that
// would need more has no outcome (None), standing in for a rejection loop
// that never ends.

module GenerateAuth {
  import opened Base
  import opened JsString
  import opened Azar
  import opened AuthData
  import SyncAuth

  /** CHARS: lower-case letters without i, l, o and the digits 2 to 9. */
  const Chars: string := "abcdefghjkmnpqrstuvwxyz23456789"

  const LargoSuper: nat := 10
  const LargoEscuela: nat := 8

  /** No character of CHARS can be mistaken for another: no 0, 1, i, l or o, and no capitals. */
  lemma CharsSinConfusiones()
    ensures forall k :: 0 <= k < |Chars| ==>
              Chars[k] != '0' && Chars[k] != '1' && Chars[k] != 'i' && Chars[k] != 'l' && Chars[k] != 'o' && !IsUpperLetter(Chars[k])
  {
  }

  /** The string randomSimple(length) builds when its first draw is number p. */
  function SimpleDesde(azar: Flujo, length: nat): nat -> string
  {
    (p: nat) => Aleatoria(Chars, length, azar, p)
  }

  /** randomSimple: `length` characters of CHARS, drawing from position `pos` on. */
  method RandomSimple(azar: Flujo, length: nat, pos: nat) returns (s: string)
    ensures s == SimpleDesde(azar, length)(pos)
  {
    s := Generar(Chars, length, azar, pos);
  }

  /**
   * The do…while loop from draw `pos`: the first 8-character password not in
   * `used`, with the position after it; None when the draws up to `tope` run out.
   */
  function Intento(used: set<string>, generar: nat -> string, paso: nat, pos: nat, tope: nat): (r: Option<(string, nat)>)
    requires paso > 0
    ensures r.Some? ==> r.value.0 !in used && pos + paso <= r.value.1 <= tope && r.value.0 == generar(r.value.1 - paso)
    decreases tope - pos
  {
    if pos + paso > tope then None
    else
      var pwd := generar(pos);
      if pwd in used then Intento(used, generar, paso, pos + paso, tope)
      else Some((pwd, pos + paso))
  }

  /** An outcome of the redraw loop is the draw just before its final position. */
  lemma IntentoGenera(used: set<string>, generar: nat -> string, paso: nat, pos: nat, tope: nat, pwd: string, fin: nat)
    requires paso > 0 && Intento(used, generar, paso, pos, tope) == Some((pwd, fin))
    ensures fin >= paso && pwd == generar(fin - paso)
  {
  }

  /** A draw already in `used` is discarded and the loop goes on from the next one. */
  lemma IntentoDescarta(used: set<string>, generar: nat -> string, paso: nat, pos: nat, tope: nat)
    requires paso > 0 && pos + paso <= tope && generar(pos) in used
    ensures Intento(used, generar, paso, pos, tope) == Intento(used, generar, paso, pos + paso, tope)
  {
  }

  /**
   * `do { pwd = randomSimple(largo) } while (used.has(pwd))`, the script
   * calling it with largo 8; `generar(p)` is the string randomSimple(largo)
   * builds from draw p on (SimpleDesde), so each turn of the loop draws
   * `largo` numbers.
   */
  method RandomNoUsada(used: set<string>, generar: nat -> string, largo: nat, pos: nat, tope: nat) returns (r: Option<(string, nat)>)
    requires largo > 0
    ensures r == Intento(used, generar, largo, pos, tope)
  {
    var q := pos;
    if q + largo > tope {
      return None;
    }
    var pwd := generar(q);
    while pwd in used
      invariant pos <= q && q + largo <= tope
      invariant pwd == generar(q)
      invariant Intento(used, generar, largo, pos, tope) == Intento(used, generar, largo, q, tope)
      decreases tope - q
    {
      IntentoDescarta(used, generar, largo, q, tope);
      q := q + largo;
      if q + largo > tope {
        return None;
      }
      pwd := generar(q);
    }
    r := Some((pwd, q + largo));
  }

  /** The state of the loop over the ccts. */
  datatype Estado = Estado(escuelasAuth: seq<(string, Json)>, passwordsList: seq<(string, string)>, used: set<string>, pos: nat)

  /** The passwords of the list, in order. */
  function Passwords(l: seq<(string, string)>): (r: seq<string>)
    ensures |r| == |l|
    ensures forall i :: 0 <= i < |l| ==> r[i] == l[i].1
  {
    if l == [] then [] else Passwords(l[..|l| - 1]) + [l[|l| - 1].1]
  }

  /** The ccts of the list, in order. */
  function Ccts(l: seq<(string, string)>): (r: seq<string>)
    ensures |r| == |l|
    ensures forall i :: 0 <= i < |l| ==> r[i] == l[i].0
  {
    if l == [] then [] else Ccts(l[..|l| - 1]) + [l[|l| - 1].0]
  }

  /** The loop over the ccts from state `inicio`, `sello(pwd)` being the value stored for a password. */
  function Repartir(ccts: seq<string>, generar: nat -> string, paso: nat, tope: nat, sello: string -> Json, inicio: Estado): Option<Estado>
    requires paso > 0
  {
    if ccts == [] then Some(inicio)
    else
      var previo := Repartir(ccts[..|ccts| - 1], generar, paso, tope, sello, inicio);
      if previo.None? then None
      else
        var e := previo.value;
        var cct := ccts[|ccts| - 1];
        var intento := Intento(e.used, generar, paso, e.pos, tope);
        if intento.None? then None
        else
          var pwd := intento.value.0;
          Some(Estado(Assign(e.escuelasAuth, cct, sello(pwd)), e.passwordsList + [(cct, pwd)], e.used + {pwd}, intento.value.1))
  }

  /** What a run produces: the super password, the new auth file, and the loop's final state. */
  datatype Generado = Generado(superPassword: string, authData: seq<(string, Json)>, final: Estado)

  /** The whole script on the result ccts and the run's draws. */
  function Generate(ccts: seq<string>, azar: Flujo, tope: nat, hash: string -> string): Option<Generado>
  {
    if LargoSuper > tope then None
    else
      var superPassword := SimpleDesde(azar, LargoSuper)(0);
      var r := Repartir(ccts, SimpleDesde(azar, LargoEscuela), LargoEscuela, tope, SyncAuth.Sellar(hash), Estado([], [], {superPassword}, LargoSuper));
      if r.None? then None
      else
        Some(Generado(superPassword,
                      [("superUsuario", JStr(hash(NormalizePasswordForVerify(superPassword)))), ("escuelas", JObj(r.value.escuelasAuth))],
                      r.value))
  }

  /** One turn of the loop over the ccts. */
  method AsignarUna(e: Estado, cct: string, azar: Flujo, tope: nat, hash: string -> string) returns (r: Option<Estado>)
    ensures var intento := Intento(e.used, SimpleDesde(azar, LargoEscuela), LargoEscuela, e.pos, tope);
            r == if intento.None? then None
                 else Some(Estado(Assign(e.escuelasAuth, cct, SyncAuth.Sellar(hash)(intento.value.0)),
                                  e.passwordsList + [(cct, intento.value.0)], e.used + {intento.value.0}, intento.value.1))
  {
    var intento := RandomNoUsada(e.used, SimpleDesde(azar, LargoEscuela), LargoEscuela, e.pos, tope);
    if intento.None? {
      return None;
    }
    var pwd := intento.value.0;
    r := Some(Estado(Assign(e.escuelasAuth, cct, JStr(hash(NormalizePasswordForVerify(pwd)))),
                     e.passwordsList + [(cct, pwd)], e.used + {pwd}, intento.value.1));
  }

  lemma RepartirPaso(ccts: seq<string>, i: nat, generar: nat -> string, paso: nat, tope: nat, sello: string -> Json, inicio: Estado)
    requires i < |ccts| && paso > 0
    requires Repartir(ccts[..i], generar, paso, tope, sello, inicio).Some?
    ensures var e := Repartir(ccts[..i], generar, paso, tope, sello, inicio).value;
            var intento := Intento(e.used, generar, paso, e.pos, tope);
            Repartir(ccts[..i + 1], generar, paso, tope, sello, inicio) ==
              if intento.None? then None
              else Some(Estado(Assign(e.escuelasAuth, ccts[i], sello(intento.value.0)),
                               e.passwordsList + [(ccts[i], intento.value.0)], e.used + {intento.value.0}, intento.value.1))
  {
    assert ccts[..i + 1][..i] == ccts[..i];
  }

  /** The loop over the ccts: `for (const cct of ccts) { … }`. */
  method Asignar(ccts: seq<string>, azar: Flujo, tope: nat, hash: string -> string, inicio: Estado) returns (r: Option<Estado>)
    ensures r == Repartir(ccts, SimpleDesde(azar, LargoEscuela), LargoEscuela, tope, SyncAuth.Sellar(hash), inicio)
  {
    ghost var generar := SimpleDesde(azar, LargoEscuela);
    ghost var sello := SyncAuth.Sellar(hash);
    var st := inicio;
    var i := 0;
    while i < |ccts|
      invariant 0 <= i <= |ccts|
      invariant Repartir(ccts[..i], generar, LargoEscuela, tope, sello, inicio) == Some(st)
    {
      RepartirPaso(ccts, i, generar, LargoEscuela, tope, sello, inicio);
      var siguiente := AsignarUna(st, ccts[i], azar, tope, hash);
      if siguiente.None? {
        RepartirSinSalida(ccts, i + 1, generar, LargoEscuela, tope, sello, inicio);
        return None;
      }
      st := siguiente.value;
      i := i + 1;
    }
    assert ccts[..|ccts|] == ccts;
    r := Some(st);
  }

  /** The script: the super password, then every cct in turn, then the new auth file. */
  method GenerateAuthSimple(ccts: seq<string>, azar: Flujo, tope: nat, hash: string -> string) returns (r: Option<Generado>)
    ensures r == Generate(ccts, azar, tope, hash)
  {
    if LargoSuper > tope {
      return None;
    }
    var superPassword := RandomSimple(azar, LargoSuper, 0);
    var superHash := hash(NormalizePasswordForVerify(superPassword));
    var final := Asignar(ccts, azar, tope, hash, Estado([], [], {superPassword}, LargoSuper));
    if final.None? {
      return None;
    }
    r := Some(Generado(superPassword, [("superUsuario", JStr(superHash)), ("escuelas", JObj(final.value.escuelasAuth))], final.value));
  }

  /** Once the draws run out the run has no outcome, whatever ccts follow. */
  lemma {:induction false} RepartirSinSalida(ccts: seq<string>, i: nat, generar: nat -> string, paso: nat, tope: nat, sello: string -> Json, inicio: Estado)
    requires i <= |ccts| && paso > 0
    requires Repartir(ccts[..i], generar, paso, tope, sello, inicio).None?
    ensures Repartir(ccts, generar, paso, tope, sello, inicio).None?
    decreases |ccts| - i
  {
    if i < |ccts| {
      assert ccts[..i + 1][..i] == ccts[..i];
      RepartirSinSalida(ccts, i + 1, generar, paso, tope, sello, inicio);
    } else {
      assert ccts[..i] == ccts;
    }
  }

  /**
   * The loop's invariant: one list entry per cct, in order; every password
   * new (not in the starting `used`, and pairwise distinct); `used` is the
   * starting set plus exactly the list's passwords, so it grows by one per
   * cct; each password is one `generar` produced; and the table holds, for
   * each listed cct, the value of the last password it received.
   */
  lemma RepartirCorrecto(ccts: seq<string>, generar: nat -> string, paso: nat, tope: nat, sello: string -> Json, inicio: Estado, ok: string -> bool, f: Estado)
    requires paso > 0
    requires inicio.passwordsList == []
    requires forall p :: ok(generar(p))
    requires Repartir(ccts, generar, paso, tope, sello, inicio) == Some(f)
    ensures Ccts(f.passwordsList) == ccts
    ensures NoRepeats(Passwords(f.passwordsList))
    ensures forall x :: x in Passwords(f.passwordsList) ==> x !in inicio.used && ok(x)
    ensures forall x :: x in f.used <==> x in inicio.used || x in Passwords(f.passwordsList)
    ensures |f.used| == |inicio.used| + |ccts|
    ensures forall k :: Lookup(f.escuelasAuth, k) ==
                        if k in ccts then Some(sello(LookupLast(f.passwordsList, k).value)) else Lookup(inicio.escuelasAuth, k)
  {
    RepartirListas(ccts, generar, paso, tope, sello, inicio, ok, f);
    RepartirTabla(ccts, generar, paso, tope, sello, inicio, f);
  }

  /** The last turn of a completed loop, from the state before it. */
  lemma RepartirUltimo(ccts: seq<string>, generar: nat -> string, paso: nat, tope: nat, sello: string -> Json, inicio: Estado, ok: string -> bool, f: Estado)
      returns (e: Estado, pwd: string)
    requires paso > 0 && ccts != []
    requires forall p :: ok(generar(p))
    requires Repartir(ccts, generar, paso, tope, sello, inicio) == Some(f)
    ensures Repartir(ccts[..|ccts| - 1], generar, paso, tope, sello, inicio) == Some(e)
    ensures pwd !in e.used && ok(pwd)
    ensures f.passwordsList == e.passwordsList + [(ccts[|ccts| - 1], pwd)] && f.used == e.used + {pwd}
    ensures f.escuelasAuth == Assign(e.escuelasAuth, ccts[|ccts| - 1], sello(pwd))
  {
    var previo := Repartir(ccts[..|ccts| - 1], generar, paso, tope, sello, inicio);
    assert previo.Some?;
    e := previo.value;
    var intento := Intento(e.used, generar, paso, e.pos, tope);
    assert intento.Some?;
    pwd := intento.value.0;
    IntentoGenera(e.used, generar, paso, e.pos, tope, intento.value.0, intento.value.1);
    assert f == Estado(Assign(e.escuelasAuth, ccts[|ccts| - 1], sello(pwd)), e.passwordsList + [(ccts[|ccts| - 1], pwd)], e.used + {pwd}, intento.value.1);
  }

  /** The list, `used` and freshness parts of the loop's invariant. */
  lemma {:induction false} RepartirListas(ccts: seq<string>, generar: nat -> string, paso: nat, tope: nat, sello: string -> Json, inicio: Estado, ok: string -> bool, f: Estado)
    requires paso > 0
    requires inicio.passwordsList == []
    requires forall p :: ok(generar(p))
    requires Repartir(ccts, generar, paso, tope, sello, inicio) == Some(f)
    ensures Ccts(f.passwordsList) == ccts
    ensures NoRepeats(Passwords(f.passwordsList))
    ensures forall x :: x in Passwords(f.passwordsList) ==> x !in inicio.used && ok(x)
    ensures forall x :: x in f.used <==> x in inicio.used || x in Passwords(f.passwordsList)
    ensures |f.used| == |inicio.used| + |ccts|
  {
    if ccts != [] {
      var init := ccts[..|ccts| - 1];
      var cct := ccts[|ccts| - 1];
      FrenteUltimo(ccts);
      var e, pwd := RepartirUltimo(ccts, generar, paso, tope, sello, inicio, ok, f);
      RepartirListas(init, generar, paso, tope, sello, inicio, ok, e);
      PasoListas(init, cct, pwd, e, f, inicio, ok);
    }
  }

  /** The table part of the loop's invariant. */
  lemma {:induction false} RepartirTabla(ccts: seq<string>, generar: nat -> string, paso: nat, tope: nat, sello: string -> Json, inicio: Estado, f: Estado)
    requires paso > 0
    requires inicio.passwordsList == []
    requires Repartir(ccts, generar, paso, tope, sello, inicio) == Some(f)
    ensures Ccts(f.passwordsList) == ccts
    ensures forall k :: Lookup(f.escuelasAuth, k) ==
                        if k in ccts then Some(sello(LookupLast(f.passwordsList, k).value)) else Lookup(inicio.escuelasAuth, k)
  {
    if ccts != [] {
      var init := ccts[..|ccts| - 1];
      var cct := ccts[|ccts| - 1];
      FrenteUltimo(ccts);
      var e, pwd := RepartirUltimo(ccts, generar, paso, tope, sello, inicio, (x: string) => true, f);
      RepartirTabla(init, generar, paso, tope, sello, inicio, e);
      assert Ccts(f.passwordsList) == Ccts(e.passwordsList) + [cct];
      PasoTabla(init, cct, pwd, e, f, inicio, sello);
    }
  }

  /** One turn keeps the list, `used` and freshness parts of the invariant. */
  lemma PasoListas(init: seq<string>, cct: string, pwd: string, e: Estado, f: Estado, inicio: Estado, ok: string -> bool)
    requires pwd !in e.used && ok(pwd)
    requires f.passwordsList == e.passwordsList + [(cct, pwd)] && f.used == e.used + {pwd}
    requires Ccts(e.passwordsList) == init
    requires NoRepeats(Passwords(e.passwordsList))
    requires forall x :: x in Passwords(e.passwordsList) ==> x !in inicio.used && ok(x)
    requires forall x :: x in e.used <==> x in inicio.used || x in Passwords(e.passwordsList)
    requires |e.used| == |inicio.used| + |init|
    ensures Ccts(f.passwordsList) == init + [cct]
    ensures NoRepeats(Passwords(f.passwordsList))
    ensures forall x :: x in Passwords(f.passwordsList) ==> x !in inicio.used && ok(x)
    ensures forall x :: x in f.used <==> x in inicio.used || x in Passwords(f.passwordsList)
    ensures |f.used| == |inicio.used| + |init + [cct]|
  {
    assert Passwords(f.passwordsList) == Passwords(e.passwordsList) + [pwd];
    assert Ccts(f.passwordsList) == Ccts(e.passwordsList) + [cct];
  }

  /** One turn keeps the table part of the invariant. */
  lemma PasoTabla(init: seq<string>, cct: string, pwd: string, e: Estado, f: Estado, inicio: Estado, sello: string -> Json)
    requires f.passwordsList == e.passwordsList + [(cct, pwd)] && f.escuelasAuth == Assign(e.escuelasAuth, cct, sello(pwd))
    requires Ccts(e.passwordsList) == init && Ccts(f.passwordsList) == init + [cct]
    requires forall k :: Lookup(e.escuelasAuth, k) ==
                         if k in init then Some(sello(LookupLast(e.passwordsList, k).value)) else Lookup(inicio.escuelasAuth, k)
    ensures forall k :: Lookup(f.escuelasAuth, k) ==
                        if k in init + [cct] then Some(sello(LookupLast(f.passwordsList, k).value)) else Lookup(inicio.escuelasAuth, k)
  {
    forall k ensures Lookup(f.escuelasAuth, k) ==
                     if k in init + [cct] then Some(sello(LookupLast(f.passwordsList, k).value)) else Lookup(inicio.escuelasAuth, k) {
      LookupLastSnoc(e.passwordsList, cct, pwd, k);
      if k != cct {
        assert k in init + [cct] <==> k in init;
      }
    }
  }

  /**
   * A completed run: the auth file is exactly the super hash and the new
   * table (nothing of the old file survives); the table's keys are exactly
   * the result ccts, each holding the hash of the normalised password last
   * listed for it; the passwords are 8 characters over CHARS, pairwise
   * distinct and distinct from the 10-character super password; and `used`
   * holds one password more than there are ccts.
   */
  lemma GenerateCorrecto(ccts: seq<string>, azar: Flujo, tope: nat, hash: string -> string)
    requires Generate(ccts, azar, tope, hash).Some?
    ensures var g := Generate(ccts, azar, tope, hash).value;
            g.authData == [("superUsuario", JStr(hash(NormalizePasswordForVerify(g.superPassword)))), ("escuelas", JObj(g.final.escuelasAuth))] &&
            |g.superPassword| == LargoSuper && Over(g.superPassword, Chars) &&
            Ccts(g.final.passwordsList) == ccts &&
            NoRepeats(Passwords(g.final.passwordsList)) &&
            g.superPassword !in Passwords(g.final.passwordsList) &&
            |g.final.used| == |ccts| + 1
    ensures var g := Generate(ccts, azar, tope, hash).value;
            forall x :: x in Passwords(g.final.passwordsList) ==> |x| == LargoEscuela && Over(x, Chars)
    ensures var g := Generate(ccts, azar, tope, hash).value;
            forall k :: Lookup(g.final.escuelasAuth, k) ==
                        if k in ccts then Some(JStr(hash(NormalizePasswordForVerify(LookupLast(g.final.passwordsList, k).value)))) else None
  {
    var superPassword := SimpleDesde(azar, LargoSuper)(0);
    var ok := (x: string) => |x| == LargoEscuela && Over(x, Chars);
    RepartirCorrecto(ccts, SimpleDesde(azar, LargoEscuela), LargoEscuela, tope, SyncAuth.Sellar(hash),
                     Estado([], [], {superPassword}, LargoSuper), ok, Generate(ccts, azar, tope, hash).value.final);
  }
}
