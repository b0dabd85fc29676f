// scripts/apply-passwords-estilo-dst.mjs: every school gets the password
// "dst" + its cct without the 26DST prefix, lowercased + one capital letter
// derived from the cct + "+", and lib/auth-data.json stores the hash of each.
// Reading and writing the files is abstract: the parsed auth file and the
// list of result ccts are inputs, SHA-256 is a parameter.

module ApplyPasswords {
  import opened Base
  import opened JsString
  import opened AuthData

  /** MAYUS: the capitals without I, L and O. */
  const Mayus: string := "ABCDEFGHJKMNPQRSTUVWXYZ"

  /** The weighted sum letraMayusParaCct accumulates: character code times its position from 1. */
  function Peso(cct: string): int
  {
    if cct == [] then 0
    else Peso(cct[..|cct| - 1]) + (cct[|cct| - 1] as int) * |cct|
  }

  /** The school's capital: MAYUS[n % MAYUS.length] for the weighted sum n. */
  function Letra(cct: string): char
  {
    Mayus[Peso(cct) % |Mayus|]
  }

  /** letraMayusParaCct: the loop over the cct's characters. */
  method LetraMayusParaCct(cct: string) returns (letra: char)
    ensures letra == Letra(cct)
  {
    var n := 0;
    var i := 0;
    while i < |cct|
      invariant 0 <= i <= |cct|
      invariant n == Peso(cct[..i])
    {
      assert cct[..i + 1][..i] == cct[..i];
      n := n + (cct[i] as int) * (i + 1);
      i := i + 1;
    }
    assert cct[..|cct|] == cct;
    letra := Mayus[n % |Mayus|];
  }

  /** The letter is one of MAYUS, a capital, and never one of the look-alikes I, L, O. */
  lemma LetraSinConfusiones(cct: string)
    ensures Letra(cct) in Mayus
    ensures IsUpperLetter(Letra(cct))
    ensures Letra(cct) != 'I' && Letra(cct) != 'L' && Letra(cct) != 'O'
  {
    var k := Peso(cct) % |Mayus|;
    assert forall j :: 0 <= j < |Mayus| ==> IsUpperLetter(Mayus[j]) && Mayus[j] != 'I' && Mayus[j] != 'L' && Mayus[j] != 'O';
    assert Letra(cct) == Mayus[k];
  }

  /** `/^26DST/i`: the cct starts with 26DST in any letter case. */
  predicate ConPrefijo(cct: string)
  {
    |cct| >= 5 && cct[0] == '2' && cct[1] == '6' &&
    (cct[2] == 'D' || cct[2] == 'd') && (cct[3] == 'S' || cct[3] == 's') && (cct[4] == 'T' || cct[4] == 't')
  }

  /** `cct.replace(/^26DST/i, "")`. */
  function SinPrefijo(cct: string): (r: string)
    ensures ConPrefijo(cct) ==> cct == cct[..5] + r
    ensures !ConPrefijo(cct) ==> r == cct
  {
    if ConPrefijo(cct) then cct[5..] else cct
  }

  /** passwordParaCct, with the letter given by its specification. */
  function Password(cct: string): string
  {
    "dst" + Lower(SinPrefijo(cct)) + [Letra(cct)] + ['+']
  }

  /** passwordParaCct: strip the prefix, lowercase, add the school's letter and "+". */
  method PasswordParaCct(cct: string) returns (pwd: string)
    ensures pwd == Password(cct)
  {
    var suf := Lower(SinPrefijo(cct));
    var letra := LetraMayusParaCct(cct);
    pwd := "dst" + suf + [letra] + ['+'];
  }

  /**
   * The shape of a password: "dst", then the characters of the cct after a
   * leading 26DST (all of them when it has none), lowercased, then the
   * school's capital and "+".
   */
  lemma PasswordForma(cct: string)
    ensures |Password(cct)| == |SinPrefijo(cct)| + 5
    ensures Password(cct)[..3] == "dst"
    ensures Password(cct)[|Password(cct)| - 2] == Letra(cct) && Password(cct)[|Password(cct)| - 1] == '+'
    ensures forall k :: 0 <= k < |SinPrefijo(cct)| ==> Password(cct)[3 + k] == LowerChar(SinPrefijo(cct)[k])
  {
    Armada(SinPrefijo(cct), Letra(cct));
  }

  /** The pieces of `"dst" + Lower(t) + [c] + ['+']`. */
  lemma Armada(t: string, c: char)
    ensures var p := "dst" + Lower(t) + [c] + ['+'];
            |p| == |t| + 5 && p[..3] == "dst" && p[|p| - 2] == c && p[|p| - 1] == '+' &&
            forall k :: 0 <= k < |t| ==> p[3 + k] == LowerChar(t[k])
  {
    Partes("dst", Lower(t), c, '+');
  }

  lemma Partes(a: string, s: string, c: char, d: char)
    ensures var p := a + s + [c] + [d];
            |p| == |a| + |s| + 2 && p[..|a|] == a && p[|p| - 2] == c && p[|p| - 1] == d &&
            forall k :: 0 <= k < |s| ==> p[|a| + k] == s[k]
  {
    var p := a + s + [c] + [d];
    assert p[..|a|] == a;
    forall k | 0 <= k < |s| ensures p[|a| + k] == s[k] {
      assert p[|a| + k] == (a + s)[|a| + k];
    }
  }

  /** A cct without the 26DST prefix is kept whole: "dst", the lower-cased cct, its letter and "+". */
  lemma PasswordSinPrefijo(cct: string)
    requires !ConPrefijo(cct)
    ensures Password(cct) == "dst" + Lower(cct) + [Letra(cct)] + ['+']
  {
  }

  /** `authData.escuelas || {}` spread into a new object: the entries of a truthy object, else none. */
  function EscuelasPrevias(authData: seq<(string, Json)>): seq<(string, Json)>
  {
    var v := Lookup(ObjectOf(authData), "escuelas");
    if v.Some? && v.value.JObj? then ObjectOf(v.value.entries) else []
  }

  /** The hash the loop stores for one cct. */
  function HashDe(cct: string, hash: string -> string): Json
  {
    JStr(hash(NormalizePasswordForVerify(Password(cct))))
  }

  /** `escuelasAuth[cct] = valor(cct)` for every cct in turn, on the spread copy. */
  function Asignar(previas: seq<(string, Json)>, ccts: seq<string>, valor: string -> Json): seq<(string, Json)>
  {
    if ccts == [] then previas
    else Assign(Asignar(previas, ccts[..|ccts| - 1], valor), ccts[|ccts| - 1], valor(ccts[|ccts| - 1]))
  }

  /** The escuelas object the script writes. */
  function Escuelas(authData: seq<(string, Json)>, ccts: seq<string>, hash: string -> string): seq<(string, Json)>
  {
    Asignar(EscuelasPrevias(authData), ccts, c => HashDe(c, hash))
  }

  /** The rows of passwordsList. */
  function Lista(ccts: seq<string>): (l: seq<(string, string)>)
    ensures |l| == |ccts|
    ensures forall i :: 0 <= i < |ccts| ==> l[i] == (ccts[i], Password(ccts[i]))
  {
    MapearEn(ccts, ConPassword);
    Mapear(ccts, ConPassword)
  }

  /** The pair the script lists for a cct. */
  function ConPassword(cct: string): (string, string)
  {
    (cct, Password(cct))
  }

  /**
   * The script: the auth file's object with `escuelas` replaced by the updated
   * copy (every other key, superUsuario included, as it was), and the list of
   * (cct, password) pairs it prints.
   */
  method AplicarPasswords(ccts: seq<string>, authData: seq<(string, Json)>, hash: string -> string)
    returns (salida: seq<(string, Json)>, passwordsList: seq<(string, string)>)
    ensures salida == Assign(ObjectOf(authData), "escuelas", JObj(Escuelas(authData, ccts, hash)))
    ensures passwordsList == Lista(ccts)
  {
    var valor := c => HashDe(c, hash);
    var previas := EscuelasPrevias(authData);
    var escuelasAuth := previas;
    passwordsList := [];
    var i := 0;
    while i < |ccts|
      invariant 0 <= i <= |ccts|
      invariant escuelasAuth == Asignar(previas, ccts[..i], valor)
      invariant passwordsList == Mapear(ccts[..i], ConPassword)
    {
      var cct := ccts[i];
      var pwd := PasswordParaCct(cct);
      assert ccts[..i + 1][..i] == ccts[..i];
      MapearSnoc(ccts, i, ConPassword);
      escuelasAuth := Assign(escuelasAuth, cct, JStr(hash(NormalizePasswordForVerify(pwd))));
      passwordsList := passwordsList + [(cct, pwd)];
      i := i + 1;
    }
    assert ccts[..|ccts|] == ccts;
    salida := Assign(ObjectOf(authData), "escuelas", JObj(escuelasAuth));
  }

  /**
   * After the assignments every listed cct holds its value and every other
   * key holds what the object had before.
   */
  lemma {:induction false} AsignarCorrecto(previas: seq<(string, Json)>, ccts: seq<string>, valor: string -> Json, k: string)
    ensures k in ccts ==> Lookup(Asignar(previas, ccts, valor), k) == Some(valor(k))
    ensures k !in ccts ==> Lookup(Asignar(previas, ccts, valor), k) == Lookup(previas, k)
  {
    if ccts != [] {
      var init := ccts[..|ccts| - 1];
      AsignarCorrecto(previas, init, valor, k);
      assert ccts == init + [ccts[|ccts| - 1]];
    }
  }

  /**
   * The written file: each result cct maps to the hash of its normalised
   * password, keys of the old `escuelas` not among the results keep their
   * value, and every key but `escuelas` (superUsuario among them) is left as
   * parsed.
   */
  lemma AplicarCorrecto(ccts: seq<string>, authData: seq<(string, Json)>, hash: string -> string, k: string)
    ensures var escuelas := Escuelas(authData, ccts, hash);
            var salida := Assign(ObjectOf(authData), "escuelas", JObj(escuelas));
            Lookup(salida, "escuelas") == Some(JObj(escuelas)) &&
            (k in ccts ==> Lookup(escuelas, k) == Some(HashDe(k, hash))) &&
            (k !in ccts ==> Lookup(escuelas, k) == Lookup(EscuelasPrevias(authData), k)) &&
            (k != "escuelas" ==> Lookup(salida, k) == LookupLast(authData, k))
  {
    AsignarCorrecto(EscuelasPrevias(authData), ccts, c => HashDe(c, hash), k);
    ObjectOfLookup(authData, k);
  }

  /** superUsuario is never modified. */
  lemma SuperIntacto(ccts: seq<string>, authData: seq<(string, Json)>, hash: string -> string)
    ensures Lookup(Assign(ObjectOf(authData), "escuelas", JObj(Escuelas(authData, ccts, hash))), "superUsuario")
            == LookupLast(authData, "superUsuario")
  {
    AplicarCorrecto(ccts, authData, hash, "superUsuario");
  }

  /**
   * The stored hash is the one the login check computes: the handed-out
   * password, normalised again by normalizePasswordForVerify when typed,
   * hashes to the entry of its school.
   */
  lemma PasswordAbreSuEscuela(ccts: seq<string>, authData: seq<(string, Json)>, hash: string -> string, cct: string)
    requires cct in ccts
    ensures Lookup(Escuelas(authData, ccts, hash), cct) == Some(JStr(hash(NormalizePasswordForVerify(NormalizePasswordForVerify(Password(cct))))))
  {
    AplicarCorrecto(ccts, authData, hash, cct);
    NormalizeIdempotente(Password(cct));
  }
}
