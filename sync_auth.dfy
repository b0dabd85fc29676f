// scripts/sync-auth-escuelas.mjs: brings the `escuelas` table of
// lib/auth-data.json in line with the ccts of the results. A cct without a
// truthy hash gets a random 12-character password (its hash is stored, the
// password listed in `added`); a key that is no longer a result cct is
// deleted (and listed in `removed`). Files are abstract: the result ccts and
// the parsed auth file are inputs, SHA-256 a parameter, Math.random a stream.

module SyncAuth {
  import opened Base
  import opened JsString
  import opened Azar
  import opened AuthData
  import ApplyPasswords

  /** randomPassword's alphabet: no l, o, 0 or 1 among the lower-case letters and digits, no I, L, O among the capitals. */
  const Chars: string := "abcdefghijkmnpqrstuvwxyz23456789ABCDEFGHJKMNPQRSTUVWXYZ"

  /** randomPassword(12). */
  const Largo: nat := 12

  /** `new Set(ccts)`: each cct once, in the order of its first occurrence. */
  function Conjunto(ccts: seq<string>): (r: seq<string>)
    ensures NoRepeats(r)
    ensures forall c :: c in r <==> c in ccts
  {
    if ccts == [] then []
    else
      var r := Conjunto(ccts[..|ccts| - 1]);
      assert forall c :: c in ccts <==> c in ccts[..|ccts| - 1] || c == ccts[|ccts| - 1] by {
        assert ccts == ccts[..|ccts| - 1] + [ccts[|ccts| - 1]];
      }
      if ccts[|ccts| - 1] in r then r else r + [ccts[|ccts| - 1]]
  }

  /** The password randomPassword(12) builds from draw number p on. */
  function Sorteada(azar: Flujo): nat -> string
  {
    (p: nat) => Aleatoria(Chars, Largo, azar, p)
  }

  /** The value stored for a password: `sha256(normalizePassword(pwd))`. */
  function Sellar(hash: string -> string): string -> Json
  {
    pwd => JStr(hash(NormalizePasswordForVerify(pwd)))
  }

  /** The state the first loop carries: the table, the `added` list and the next draw. */
  datatype Altas = Altas(escuelas: seq<(string, Json)>, added: seq<(string, string)>, pos: nat)

  /**
   * The first loop over the set of result ccts: a cct whose entry is missing
   * or falsy gets the password drawn next (`generar(pos)`, `paso` draws long)
   * and its stored value `sello(pwd)`.
   */
  function Alta(previas: seq<(string, Json)>, conj: seq<string>, generar: nat -> string, paso: nat, sello: string -> Json): Altas
  {
    if conj == [] then Altas(previas, [], 0)
    else
      var a := Alta(previas, conj[..|conj| - 1], generar, paso, sello);
      var cct := conj[|conj| - 1];
      if Truthy(Lookup(a.escuelas, cct)) then a
      else
        var pwd := generar(a.pos);
        Altas(Assign(a.escuelas, cct, sello(pwd)), a.added + [(cct, pwd)], a.pos + paso)
  }

  /** One more cct of the set: Alta on the first i + 1. */
  lemma AltaPaso(previas: seq<(string, Json)>, conj: seq<string>, i: nat, generar: nat -> string, paso: nat, sello: string -> Json)
    requires i < |conj|
    ensures var a := Alta(previas, conj[..i], generar, paso, sello);
            Alta(previas, conj[..i + 1], generar, paso, sello) ==
              if Truthy(Lookup(a.escuelas, conj[i])) then a
              else Altas(Assign(a.escuelas, conj[i], sello(generar(a.pos))), a.added + [(conj[i], generar(a.pos))], a.pos + paso)
  {
    assert conj[..i + 1][..i] == conj[..i];
  }

  /** The state the second loop carries: the table and the `removed` list. */
  datatype Bajas = Bajas(escuelas: seq<(string, Json)>, removed: seq<string>)

  /** The second loop over the keys `claves` taken before it: a key not in the set is deleted. */
  function Baja(escuelas: seq<(string, Json)>, claves: seq<string>, conj: seq<string>): Bajas
  {
    if claves == [] then Bajas(escuelas, [])
    else
      var b := Baja(escuelas, claves[..|claves| - 1], conj);
      var k := claves[|claves| - 1];
      if k in conj then b else Bajas(Remove(b.escuelas, k), b.removed + [k])
  }

  /** `lines.join("\n") + "\n"` for the lines `cct\tpwd` of the added pairs: every line ends in a newline. */
  function Lineas(added: seq<(string, string)>): string
  {
    if added == [] then ""
    else Lineas(added[..|added| - 1]) + added[|added| - 1].0 + "\t" + added[|added| - 1].1 + "\n"
  }

  /** What a run leaves behind: the auth file, the final table, the two lists and lib/passwords-nuevos.txt if written. */
  datatype Salida = Salida(
    authData: seq<(string, Json)>,
    escuelas: seq<(string, Json)>,
    added: seq<(string, string)>,
    removed: seq<string>,
    nuevos: Option<string>)

  /** The whole script on the result ccts, the parsed auth file and the run's draws. */
  function Sync(ccts: seq<string>, authData: seq<(string, Json)>, azar: Flujo, hash: string -> string): Salida
  {
    var conj := Conjunto(ccts);
    var a := Alta(ApplyPasswords.EscuelasPrevias(authData), conj, Sorteada(azar), Largo, Sellar(hash));
    var b := Baja(a.escuelas, KeysOf(a.escuelas), conj);
    Salida(Assign(ObjectOf(authData), "escuelas", JObj(b.escuelas)), b.escuelas, a.added, b.removed,
           if |a.added| > 0 then Some(Lineas(a.added)) else None)
  }

  /** One turn of the first loop: `if (!escuelas[cct]) { … escuelas[cct] = sha256(…); added.push(…) }`. */
  method AnadirSiFalta(a: Altas, cct: string, azar: Flujo, hash: string -> string) returns (b: Altas)
    ensures b == if Truthy(Lookup(a.escuelas, cct)) then a
                 else Altas(Assign(a.escuelas, cct, Sellar(hash)(Sorteada(azar)(a.pos))),
                            a.added + [(cct, Sorteada(azar)(a.pos))], a.pos + Largo)
  {
    b := a;
    if !Truthy(Lookup(a.escuelas, cct)) {
      var pwd := Generar(Chars, Largo, azar, a.pos);
      b := Altas(Assign(a.escuelas, cct, JStr(hash(NormalizePasswordForVerify(pwd)))), a.added + [(cct, pwd)], a.pos + Largo);
    }
  }

  /** The first loop, over the set of result ccts. */
  method AnadirFaltantes(previas: seq<(string, Json)>, conj: seq<string>, azar: Flujo, hash: string -> string)
    returns (escuelas: seq<(string, Json)>, added: seq<(string, string)>)
    ensures var a := Alta(previas, conj, Sorteada(azar), Largo, Sellar(hash));
            escuelas == a.escuelas && added == a.added
  {
    var st := Altas(previas, [], 0);
    var i := 0;
    while i < |conj|
      invariant 0 <= i <= |conj|
      invariant st == Alta(previas, conj[..i], Sorteada(azar), Largo, Sellar(hash))
    {
      AltaPaso(previas, conj, i, Sorteada(azar), Largo, Sellar(hash));
      st := AnadirSiFalta(st, conj[i], azar, hash);
      i := i + 1;
    }
    assert conj[..|conj|] == conj;
    escuelas, added := st.escuelas, st.added;
  }

  /** The second loop: `if (!cctsEnResultados.has(cct)) { delete escuelas[cct]; removed.push(cct) }`. */
  method QuitarSobrantes(escuelas0: seq<(string, Json)>, conj: seq<string>)
    returns (escuelas: seq<(string, Json)>, removed: seq<string>)
    ensures var b := Baja(escuelas0, KeysOf(escuelas0), conj);
            escuelas == b.escuelas && removed == b.removed
  {
    var claves := KeysOf(escuelas0);
    escuelas := escuelas0;
    removed := [];
    var i := 0;
    while i < |claves|
      invariant 0 <= i <= |claves|
      invariant Baja(escuelas0, claves[..i], conj) == Bajas(escuelas, removed)
    {
      var cct := claves[i];
      assert claves[..i + 1][..i] == claves[..i];
      if cct !in conj {
        escuelas := Remove(escuelas, cct);
        removed := removed + [cct];
      }
      i := i + 1;
    }
    assert claves[..|claves|] == claves;
  }

  /** The script: both loops on the spread copy, then the written files. */
  method SyncAuthEscuelas(ccts: seq<string>, authData: seq<(string, Json)>, azar: Flujo, hash: string -> string)
    returns (r: Salida)
    ensures r == Sync(ccts, authData, azar, hash)
  {
    var conj := Conjunto(ccts);
    var escuelas, added := AnadirFaltantes(ApplyPasswords.EscuelasPrevias(authData), conj, azar, hash);
    var escuelas2, removed := QuitarSobrantes(escuelas, conj);
    var nuevos := None;
    if |added| > 0 {
      nuevos := Some(Lineas(added));
    }
    r := Salida(Assign(ObjectOf(authData), "escuelas", JObj(escuelas2)), escuelas2, added, removed, nuevos);
  }

  /**
   * The first loop, key by key: a key is added exactly when it is in the set
   * and its entry was missing or falsy; an added key holds the value of its
   * password, any other key what it held before.
   */
  lemma {:induction false} AltaCorrecta(previas: seq<(string, Json)>, conj: seq<string>, generar: nat -> string, paso: nat, sello: string -> Json, k: string)
    requires NoRepeats(conj)
    ensures var a := Alta(previas, conj, generar, paso, sello);
            (Lookup(a.added, k).Some? <==> k in conj && !Truthy(Lookup(previas, k))) &&
            (Lookup(a.added, k).Some? ==> Lookup(a.escuelas, k) == Some(sello(Lookup(a.added, k).value))) &&
            (Lookup(a.added, k).None? ==> Lookup(a.escuelas, k) == Lookup(previas, k))
  {
    if conj != [] {
      var init := conj[..|conj| - 1];
      var cct := conj[|conj| - 1];
      assert conj == init + [cct];
      assert NoRepeats(init) by {
        forall i, j | 0 <= i < j < |init| ensures init[i] != init[j] {
          assert init[i] == conj[i] && init[j] == conj[j];
        }
      }
      assert cct !in init by {
        forall i | 0 <= i < |init| ensures init[i] != cct {
          assert init[i] == conj[i];
        }
      }
      AltaCorrecta(previas, init, generar, paso, sello, k);
      var a := Alta(previas, init, generar, paso, sello);
      if !Truthy(Lookup(a.escuelas, cct)) {
        LookupSnoc(a.added, cct, generar(a.pos), k);
        if k == cct {
          LookupSnoc(a.added, cct, generar(a.pos), cct);
        }
      }
    }
  }

  /** The second loop, key by key: a key goes exactly when it is one of the keys walked and not in the set. */
  lemma {:induction false} BajaCorrecta(escuelas: seq<(string, Json)>, claves: seq<string>, conj: seq<string>, k: string)
    ensures var b := Baja(escuelas, claves, conj);
            Lookup(b.escuelas, k) == (if k in claves && k !in conj then None else Lookup(escuelas, k)) &&
            (k in b.removed <==> k in claves && k !in conj)
  {
    if claves != [] {
      var init := claves[..|claves| - 1];
      assert claves == init + [claves[|claves| - 1]];
      BajaCorrecta(escuelas, init, conj, k);
    }
  }

  /**
   * After a run the table's keys are exactly the result ccts; a cct that had
   * a truthy hash keeps it; `added` lists exactly the result ccts whose entry
   * was missing or falsy, each stored as the hash of its normalised password;
   * `removed` lists exactly the old keys that are not result ccts; every other
   * key of the auth file, superUsuario among them, is as parsed; and
   * lib/passwords-nuevos.txt is written exactly when something was added.
   */
  lemma SyncCorrecto(ccts: seq<string>, authData: seq<(string, Json)>, azar: Flujo, hash: string -> string, k: string)
    ensures var r := Sync(ccts, authData, azar, hash);
            var previas := ApplyPasswords.EscuelasPrevias(authData);
            (Lookup(r.escuelas, k).Some? <==> k in ccts) &&
            (k in ccts && Truthy(Lookup(previas, k)) ==> Lookup(r.escuelas, k) == Lookup(previas, k)) &&
            (Lookup(r.added, k).Some? <==> k in ccts && !Truthy(Lookup(previas, k))) &&
            (Lookup(r.added, k).Some? ==>
               Lookup(r.escuelas, k) == Some(JStr(hash(NormalizePasswordForVerify(Lookup(r.added, k).value))))) &&
            (k in r.removed <==> Lookup(previas, k).Some? && k !in ccts) &&
            Lookup(r.authData, "escuelas") == Some(JObj(r.escuelas)) &&
            (k != "escuelas" ==> Lookup(r.authData, k) == LookupLast(authData, k)) &&
            (r.nuevos.Some? <==> r.added != [])
  {
    var conj := Conjunto(ccts);
    var previas := ApplyPasswords.EscuelasPrevias(authData);
    var a := Alta(previas, conj, Sorteada(azar), Largo, Sellar(hash));
    AltaCorrecta(previas, conj, Sorteada(azar), Largo, Sellar(hash), k);
    BajaCorrecta(a.escuelas, KeysOf(a.escuelas), conj, k);
    ObjectOfLookup(authData, k);
  }

  /** superUsuario is untouched. */
  lemma SuperIntacto(ccts: seq<string>, authData: seq<(string, Json)>, azar: Flujo, hash: string -> string)
    ensures Lookup(Sync(ccts, authData, azar, hash).authData, "superUsuario") == LookupLast(authData, "superUsuario")
  {
    SyncCorrecto(ccts, authData, azar, hash, "superUsuario");
  }

  /** Every password the first loop adds is one `generar` produced, so it keeps whatever all of them have. */
  lemma {:induction false} AltaGeneradas(previas: seq<(string, Json)>, conj: seq<string>, generar: nat -> string, paso: nat, sello: string -> Json, ok: string -> bool)
    requires forall p :: ok(generar(p))
    ensures forall j :: 0 <= j < |Alta(previas, conj, generar, paso, sello).added| ==> ok(Alta(previas, conj, generar, paso, sello).added[j].1)
  {
    if conj != [] {
      var a := Alta(previas, conj[..|conj| - 1], generar, paso, sello);
      AltaGeneradas(previas, conj[..|conj| - 1], generar, paso, sello, ok);
      assert forall j :: 0 <= j < |a.added| ==> ok(a.added[j].1);
      var b := Alta(previas, conj, generar, paso, sello);
      var nuevo := generar(a.pos);
      assert ok(nuevo);
      assert b.added == a.added || b.added == a.added + [(conj[|conj| - 1], nuevo)];
      forall j | 0 <= j < |b.added| ensures ok(b.added[j].1) {
        if j < |a.added| {
          assert b.added[j] == a.added[j];
          assert ok(a.added[j].1);
        } else {
          assert b.added[j].1 == nuevo;
        }
      }
    }
  }

  /** Every new password is 12 characters over randomPassword's alphabet. */
  lemma NuevasDelAlfabeto(ccts: seq<string>, authData: seq<(string, Json)>, azar: Flujo, hash: string -> string)
    ensures var r := Sync(ccts, authData, azar, hash);
            forall j :: 0 <= j < |r.added| ==> |r.added[j].1| == Largo && Over(r.added[j].1, Chars)
  {
    var ok := (s: string) => |s| == Largo && Over(s, Chars);
    AltaGeneradas(ApplyPasswords.EscuelasPrevias(authData), Conjunto(ccts), Sorteada(azar), Largo, Sellar(hash), ok);
  }
}
