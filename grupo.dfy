// Group-label normalisation: maps the classroom labels found in the exam
// spreadsheets ("M1A", "Z11EST56V1", "Z4EST71V1I", " 1am ", ...) to a short
// code <grade><letter><shift>. Two variants exist in the repository: the full
// one shared by the ingestion scripts and a weaker one in the web library.

module GrupoNorm {
  import opened Base
  import opened JsString

  const LetraGrupo: string := "ABCDEFGHIJKLMNOPQRSTUVWXYZ"

  /** /^[1-3][A-Z][MV]$/ */
  predicate IsCanonical(s: string)
  {
    |s| == 3 && '1' <= s[0] <= '3' && IsUpperLetter(s[1]) && (s[2] == 'M' || s[2] == 'V')
  }

  /** The shape of every rewritten code: a digit, a letter, a shift. */
  predicate IsCode(s: string)
  {
    |s| == 3 && IsDigit(s[0]) && IsUpperLetter(s[1]) && (s[2] == 'M' || s[2] == 'V')
  }

  /** "<t>1<A-H>" starts at position k of s. */
  predicate PairAt(s: string, t: char, k: int)
  {
    0 <= k && k + 2 < |s| && s[k] == t && s[k + 1] == '1' && 'A' <= s[k + 2] <= 'H'
  }

  /** Position of the leftmost match of /<t>1([A-H])/ at or after `from`. */
  function FirstPair(s: string, t: char, from: nat): (r: Option<nat>)
    ensures r.Some? ==> from <= r.value && PairAt(s, t, r.value)
    ensures r.Some? ==> forall k :: from <= k < r.value ==> !PairAt(s, t, k)
    ensures r.None? ==> forall k :: from <= k ==> !PairAt(s, t, k)
    decreases |s| - from
  {
    if from + 2 >= |s| then None
    else if PairAt(s, t, from) then Some(from)
    else FirstPair(s, t, from + 1)
  }

  /** Number of ASCII digits at the front of s. */
  function LeadingDigits(s: string): (n: nat)
    ensures n <= |s| && AllDigits(s[..n])
    ensures n < |s| ==> !IsDigit(s[n])
  {
    if s != [] && IsDigit(s[0]) then
      var n := 1 + LeadingDigits(s[1..]);
      assert s[..n] == [s[0]] + s[1..][..n - 1];
      n
    else 0
  }

  /** Captures (grade, group number, shift) of /^Z(\d)(\d)EST[\d]*(M|V)\d*$/. */
  function MatchZNum(s: string): Option<(char, char, char)>
  {
    if |s| >= 7 && s[0] == 'Z' && IsDigit(s[1]) && IsDigit(s[2]) && s[3..6] == "EST" then
      var rest := s[6..];
      var k := LeadingDigits(rest);
      if k < |rest| && (rest[k] == 'M' || rest[k] == 'V') && AllDigits(rest[k + 1..])
      then Some((s[1], s[2], rest[k]))
      else None
    else None
  }

  /** Captures (shift, grade, letter) of /^Z\d+EST[\d]*(M|V)(\d)([A-Z])$/. */
  function MatchZLetra(s: string): Option<(char, char, char)>
  {
    if |s| >= 2 && s[0] == 'Z' then
      var k := LeadingDigits(s[1..]);
      if k >= 1 && 1 + k + 3 <= |s| && s[1 + k..1 + k + 3] == "EST" then
        var rest := s[1 + k + 3..];
        var n := |rest|;
        if n >= 3 && AllDigits(rest[..n - 3]) && (rest[n - 3] == 'M' || rest[n - 3] == 'V')
           && IsDigit(rest[n - 2]) && IsUpperLetter(rest[n - 1])
        then Some((rest[n - 3], rest[n - 2], rest[n - 1]))
        else None
      else None
    else None
  }

  /** LETRA_GRUPO[numGrupo - 1] || LETRA_GRUPO[0]: 1 -> A, ..., 9 -> I, 0 -> A. */
  function LetraDeNumero(d: char): (l: char)
    requires IsDigit(d)
    ensures IsUpperLetter(l)
  {
    if d == '0' then LetraGrupo[0] else LetraGrupo[d as int - '1' as int]
  }

  /** The M1x / V1x rules: the leftmost "M1<A-H>", else the leftmost "V1<A-H>". */
  function ReescribirTurno(s: string): (r: Option<string>)
    ensures r.Some? ==> IsCode(r.value) && r.value[0] == '1'
    ensures r.None? <==> forall k :: !PairAt(s, 'M', k) && !PairAt(s, 'V', k)
    ensures forall k :: PairAt(s, 'M', k) && (forall j :: 0 <= j < k ==> !PairAt(s, 'M', j)) ==>
              r == Some(['1', s[k + 2], 'M'])
    ensures forall k :: PairAt(s, 'V', k) && (forall j :: 0 <= j < k ==> !PairAt(s, 'V', j))
                        && (forall j :: !PairAt(s, 'M', j)) ==>
              r == Some(['1', s[k + 2], 'V'])
  {
    match FirstPair(s, 'M', 0)
    case Some(k) => Some(['1', s[k + 2], 'M'])
    case None =>
      match FirstPair(s, 'V', 0)
      case Some(k) => Some(['1', s[k + 2], 'V'])
      case None => None
  }

  /** The rewriting rules of the ingestion scripts, tried in order. */
  function Reescribir(s: string): (r: Option<string>)
    ensures r.Some? ==> IsCode(r.value)
  {
    match ReescribirTurno(s)
    case Some(c) => Some(c)
    case None =>
      match MatchZNum(s)
      case Some(z) => Some([z.0, LetraDeNumero(z.1), z.2])
      case None =>
        match MatchZLetra(s)
        case Some(z) => Some([z.1, z.2, z.0])
        case None => None
  }

  /** The rules applied to the upper-cased, trimmed label, in order. */
  function NormalizarTexto(s: string): (r: string)
    ensures |r| <= 10
    ensures IsCode(r) || r == Prefix(s, 10)
  {
    if IsCanonical(s) then s
    else match Reescribir(s)
      case Some(c) => c
      case None => Prefix(s, 10)
  }

  /**
   * normalizarGrupo of the ingestion scripts. `None` is a null or undefined
   * label. Rules in order: empty, canonical, M1x, V1x, Z<g><n>EST..., Z..EST..<t><g><L>,
   * and otherwise the first ten characters of the trimmed upper-case label.
   */
  function NormalizarGrupo(grupo: Option<string>): (r: string)
    ensures |r| <= 10
    ensures grupo.None? || grupo == Some("") ==> r == "S/G"
    ensures grupo.Some? && grupo.value != "" ==>
              IsCode(r) || r == Prefix(Trim(Upper(grupo.value)), 10)
  {
    if grupo.None? || grupo.value == "" then "S/G"
    else NormalizarTexto(Trim(Upper(grupo.value)))
  }

  /**
   * normalizarGrupo of lib/raf.ts: no trim, no canonical pass-through and no
   * Z...EST... rules; the label is only upper-cased.
   */
  function NormalizarGrupoLib(grupo: Option<string>): (r: string)
    ensures |r| <= 10
    ensures grupo.None? || grupo == Some("") ==> r == "S/G"
    ensures grupo.Some? && grupo.value != "" ==>
              IsCode(r) || r == Prefix(Upper(grupo.value), 10)
  {
    if grupo.None? || grupo.value == "" then "S/G"
    else
      var s := Upper(grupo.value);
      match ReescribirTurno(s)
      case Some(c) => c
      case None => Prefix(s, 10)
  }

  // ---------------------------------------------------------------------
  // Properties of the full variant

  /** Upper-casing leaves digits, upper-case letters, '/' and blanks alone. */
  lemma UpperFixed(s: string)
    requires forall k :: 0 <= k < |s| ==> IsDigit(s[k]) || IsUpperLetter(s[k]) || s[k] == '/' || s[k] == ' '
    ensures Upper(s) == s
  {
  }

  /** A label of digits, capitals and '/' goes straight to the rules. */
  lemma PlainLabel(s: string)
    requires s != []
    requires forall k :: 0 <= k < |s| ==> IsDigit(s[k]) || IsUpperLetter(s[k]) || s[k] == '/'
    ensures NormalizarGrupo(Some(s)) == NormalizarTexto(s)
  {
    UpperFixed(s);
    TrimNoEdges(s);
  }

  /** A label already of the form 1AM..3ZV (after upper-case and trim) comes back unchanged. */
  lemma CanonicalUnchanged(raw: string)
    requires IsCanonical(Trim(Upper(raw)))
    ensures NormalizarGrupo(Some(raw)) == Trim(Upper(raw))
  {
  }

  /**
   * Every code the normaliser produces, and "S/G", is a fixpoint: normalising
   * it again gives it back.
   */
  lemma OutputsAreFixpoints(c: string)
    requires IsCode(c) || c == "S/G"
    ensures NormalizarGrupo(Some(c)) == c
  {
    PlainLabel(c);
    assert FirstPair(c, 'M', 0).None? && FirstPair(c, 'V', 0).None? by {
      forall k | 0 <= k ensures !PairAt(c, 'M', k) && !PairAt(c, 'V', k) {
        if k + 2 < |c| { assert k == 0; }
      }
    }
  }

  lemma LeadingDigitsOf(d: string, rest: string)
    requires AllDigits(d)
    requires rest == [] || !IsDigit(rest[0])
    ensures LeadingDigits(d + rest) == |d|
  {
    if d != [] {
      assert (d + rest)[1..] == d[1..] + rest;
      LeadingDigitsOf(d[1..], rest);
    } else {
      assert d + rest == rest;
    }
  }

  lemma TextoZNum(s: string, g: char, n: char, t: char)
    requires IsDigit(n) && |s| > 3
    requires ReescribirTurno(s).None? && MatchZNum(s) == Some((g, n, t))
    ensures NormalizarTexto(s) == [g, LetraDeNumero(n), t]
  {
  }

  lemma TextoZLetra(s: string, g: char, l: char, t: char)
    requires |s| > 3
    requires ReescribirTurno(s) == None || ReescribirTurno(s) == Some([g, l, t])
    requires MatchZNum(s).None? && MatchZLetra(s) == Some((t, g, l))
    ensures NormalizarTexto(s) == [g, l, t]
  {
  }

  /** Z<g><n>EST<digits><M|V><digits> becomes <g><n-th letter><shift>, 0 standing for A. */
  lemma ZNumRule(g: char, n: char, d1: string, t: char, d2: string)
    requires IsDigit(g) && IsDigit(n) && AllDigits(d1) && AllDigits(d2)
    requires t == 'M' || t == 'V'
    ensures NormalizarGrupo(Some(['Z', g, n] + "EST" + d1 + [t] + d2)) == [g, LetraDeNumero(n), t]
  {
    var s := ['Z', g, n, 'E', 'S', 'T'] + (d1 + ([t] + d2));
    assert s == ['Z', g, n] + "EST" + d1 + [t] + d2;
    ZNumPlain(g, n, d1, t, d2);
    ZNumNoTurnoPair(g, n, d1, t, d2);
    ZNumMatches(g, n, d1, t, d2);
    TextoZNum(s, g, n, t);
  }

  lemma ZNumPlain(g: char, n: char, d1: string, t: char, d2: string)
    requires IsDigit(g) && IsDigit(n) && AllDigits(d1) && AllDigits(d2)
    requires t == 'M' || t == 'V'
    ensures var s := ['Z', g, n, 'E', 'S', 'T'] + (d1 + ([t] + d2));
            NormalizarGrupo(Some(s)) == NormalizarTexto(s)
  {
    var tail := d1 + ([t] + d2);
    var s := ['Z', g, n, 'E', 'S', 'T'] + tail;
    var p := |d1|;
    forall k | 0 <= k < |tail| && k != p ensures IsDigit(tail[k]) {
      if k < p { assert tail[k] == d1[k]; } else { assert tail[k] == d2[k - p - 1]; }
    }
    PlainLabel(s);
  }

  lemma ZNumNoTurnoPair(g: char, n: char, d1: string, t: char, d2: string)
    requires IsDigit(g) && IsDigit(n) && AllDigits(d1) && AllDigits(d2)
    requires t == 'M' || t == 'V'
    ensures ReescribirTurno(['Z', g, n, 'E', 'S', 'T'] + (d1 + ([t] + d2))).None?
  {
    var tail := d1 + ([t] + d2);
    var s := ['Z', g, n, 'E', 'S', 'T'] + tail;
    var p := |d1|;
    forall k | 0 <= k < |tail| && k != p ensures IsDigit(tail[k]) {
      if k < p { assert tail[k] == d1[k]; } else { assert tail[k] == d2[k - p - 1]; }
    }
    assert forall k :: 0 <= k ==> !PairAt(s, 'M', k) && !PairAt(s, 'V', k);
  }

  lemma ZNumMatches(g: char, n: char, d1: string, t: char, d2: string)
    requires IsDigit(g) && IsDigit(n) && AllDigits(d1) && AllDigits(d2)
    requires t == 'M' || t == 'V'
    ensures MatchZNum(['Z', g, n, 'E', 'S', 'T'] + (d1 + ([t] + d2))) == Some((g, n, t))
  {
    var tail := d1 + ([t] + d2);
    var s := ['Z', g, n, 'E', 'S', 'T'] + tail;
    assert s[3..6] == "EST";
    assert s[6..] == tail;
    LeadingDigitsOf(d1, [t] + d2);
    assert tail[|d1| + 1..] == d2;
  }

  /** Z<digits>EST<digits><M|V><g><L> becomes <g><L><shift>. */
  lemma ZLetraRule(d0: string, d1: string, t: char, g: char, l: char)
    requires d0 != [] && AllDigits(d0) && AllDigits(d1)
    requires t == 'M' || t == 'V'
    requires IsDigit(g) && IsUpperLetter(l)
    ensures NormalizarGrupo(Some(['Z'] + d0 + "EST" + d1 + [t, g, l])) == [g, l, t]
  {
    var s := ['Z'] + (d0 + ("EST" + (d1 + [t, g, l])));
    assert s == ['Z'] + d0 + "EST" + d1 + [t, g, l];
    ZLetraPlain(d0, d1, t, g, l);
    ZLetraTurno(d0, d1, t, g, l);
    ZLetraNoZNum(d0, d1, t, g, l);
    ZLetraMatches(d0, d1, t, g, l);
    TextoZLetra(s, g, l, t);
  }

  lemma ZLetraPlain(d0: string, d1: string, t: char, g: char, l: char)
    requires d0 != [] && AllDigits(d0) && AllDigits(d1)
    requires t == 'M' || t == 'V'
    requires IsDigit(g) && IsUpperLetter(l)
    ensures var s := ['Z'] + (d0 + ("EST" + (d1 + [t, g, l])));
            NormalizarGrupo(Some(s)) == NormalizarTexto(s)
  {
    var s := ['Z'] + (d0 + ("EST" + (d1 + [t, g, l])));
    ZLetraChars(d0, d1, t, g, l);
    PlainLabel(s);
  }

  lemma ZLetraTurno(d0: string, d1: string, t: char, g: char, l: char)
    requires d0 != [] && AllDigits(d0) && AllDigits(d1)
    requires t == 'M' || t == 'V'
    requires IsDigit(g) && IsUpperLetter(l)
    ensures var s := ['Z'] + (d0 + ("EST" + (d1 + [t, g, l])));
            ReescribirTurno(s) == None || ReescribirTurno(s) == Some([g, l, t])
  {
    var s := ['Z'] + (d0 + ("EST" + (d1 + [t, g, l])));
    ZLetraChars(d0, d1, t, g, l);
    assert |s| == 4 + |d0| + |d1| + 3;
    PairsOnlyAt(s, 4 + |d0| + |d1|);
  }

  lemma ZLetraChars(d0: string, d1: string, t: char, g: char, l: char)
    requires d0 != [] && AllDigits(d0) && AllDigits(d1)
    requires t == 'M' || t == 'V'
    requires IsDigit(g) && IsUpperLetter(l)
    ensures var s := ['Z'] + (d0 + ("EST" + (d1 + [t, g, l])));
            var p := 4 + |d0| + |d1|;
            && |s| == p + 3 && s[p] == t && s[p + 1] == g && s[p + 2] == l
            && (forall k :: 0 <= k < |s| ==> IsDigit(s[k]) || IsUpperLetter(s[k]))
            && (forall k :: 0 <= k < p ==> s[k] != 'M' && s[k] != 'V')
  {
    var rest := d1 + [t, g, l];
    var mid := "EST" + rest;
    var s := ['Z'] + (d0 + mid);
    var e := 1 + |d0|;
    var p := e + 3 + |d1|;
    forall k | 0 <= k < |s|
      ensures IsDigit(s[k]) || IsUpperLetter(s[k])
      ensures k < p ==> s[k] != 'M' && s[k] != 'V'
    {
      if k == 0 {
      } else if k < e {
        assert s[k] == d0[k - 1];
      } else if k < e + 3 {
        assert s[k] == mid[k - e] == "EST"[k - e];
      } else if k < p {
        assert s[k] == rest[k - e - 3] == d1[k - e - 3];
      } else {
        assert s[k] == rest[k - e - 3] == [t, g, l][k - p];
      }
    }
  }

  lemma ZLetraNoZNum(d0: string, d1: string, t: char, g: char, l: char)
    requires d0 != [] && AllDigits(d0) && AllDigits(d1)
    requires t == 'M' || t == 'V'
    requires IsDigit(g) && IsUpperLetter(l)
    ensures MatchZNum(['Z'] + (d0 + ("EST" + (d1 + [t, g, l])))).None?
  {
    var s := ['Z'] + (d0 + ("EST" + (d1 + [t, g, l])));
    if |d0| == 2 {
      ZLetraNoZNumTwo(d0, d1, t, g, l);
    } else if |d0| == 1 {
      assert s[2] == 'E';
    } else {
      assert s[3] == d0[2];
    }
  }

  lemma ZLetraNoZNumTwo(d0: string, d1: string, t: char, g: char, l: char)
    requires |d0| == 2 && AllDigits(d0) && AllDigits(d1)
    requires t == 'M' || t == 'V'
    requires IsDigit(g) && IsUpperLetter(l)
    ensures MatchZNum(['Z'] + (d0 + ("EST" + (d1 + [t, g, l])))).None?
  {
    var rest := d1 + [t, g, l];
    var s := ['Z'] + (d0 + ("EST" + rest));
    assert s[6..] == rest;
    LeadingDigitsOf(d1, [t, g, l]);
    assert rest[|d1| + 1..] == [g, l];
    assert !IsDigit([g, l][1]);
  }

  lemma ZLetraMatches(d0: string, d1: string, t: char, g: char, l: char)
    requires d0 != [] && AllDigits(d0) && AllDigits(d1)
    requires t == 'M' || t == 'V'
    requires IsDigit(g) && IsUpperLetter(l)
    ensures MatchZLetra(['Z'] + (d0 + ("EST" + (d1 + [t, g, l])))) == Some((t, g, l))
  {
    var rest := d1 + [t, g, l];
    var mid := "EST" + rest;
    var s := ['Z'] + (d0 + mid);
    var e := 1 + |d0|;
    assert s[1..] == d0 + mid;
    LeadingDigitsOf(d0, mid);
    assert s[e..e + 3] == "EST";
    assert s[e + 3..] == rest;
    assert rest[..|rest| - 3] == d1;
  }

  /** When no pair can start anywhere but at p, the M1/V1 rules can only fire there. */
  lemma PairsOnlyAt(s: string, p: int)
    requires 0 <= p && p + 2 < |s|
    requires forall k :: 0 <= k && k + 2 < |s| && k != p ==> s[k] != 'M' && s[k] != 'V'
    ensures ReescribirTurno(s) == None || ReescribirTurno(s) == Some(['1', s[p + 2], s[p]])
  {
    if ReescribirTurno(s).Some? {
      assert PairAt(s, 'M', p) || PairAt(s, 'V', p);
    }
  }

  /**
   * Counterexample to idempotence: "Z11EST5V12Q" matches no rule and is cut to
   * "Z11EST5V12", which matches the Z<g><n>EST rule when normalised again.
   */
  lemma TruncationNotIdempotent(cut: string)
    requires cut == ['Z', '1', '1'] + "EST" + "5" + ['V'] + "12"
    ensures NormalizarGrupo(Some(cut + ['Q'])) == cut
    ensures NormalizarGrupo(Some(cut)) == ['1', 'A', 'V']
  {
    ZNumRule('1', '1', "5", 'V', "12");
    TruncatedLabel(cut);
  }

  lemma TruncatedLabel(cut: string)
    requires cut == ['Z', '1', '1'] + "EST" + "5" + ['V'] + "12"
    ensures NormalizarGrupo(Some(cut + ['Q'])) == cut
  {
    var raw := cut + ['Q'];
    PlainLabel(raw);
    TruncationFacts(raw, cut);
  }

  lemma TruncationFacts(raw: string, cut: string)
    requires cut == ['Z', '1', '1'] + "EST" + "5" + ['V'] + "12"
    requires raw == cut + ['Q']
    ensures NormalizarTexto(raw) == cut
  {
    TruncNoTurno(raw);
    TruncNoZNum(raw);
    TruncNoZLetra(raw);
  }

  lemma TruncNoTurno(raw: string)
    requires raw == ['Z', '1', '1'] + "EST" + "5" + ['V'] + "12" + ['Q']
    ensures ReescribirTurno(raw).None?
  {
    assert raw == "Z11EST5V12Q";
    assert forall k :: !PairAt(raw, 'M', k) && !PairAt(raw, 'V', k);
  }

  lemma TruncNoZNum(raw: string)
    requires raw == ['Z', '1', '1'] + "EST" + "5" + ['V'] + "12" + ['Q']
    ensures MatchZNum(raw).None?
  {
    assert raw[6..] == "5" + "V12Q";
    LeadingDigitsOf("5", "V12Q");
    assert raw[6..][2..][2] == 'Q';
  }

  lemma TruncNoZLetra(raw: string)
    requires raw == ['Z', '1', '1'] + "EST" + "5" + ['V'] + "12" + ['Q']
    ensures MatchZLetra(raw).None?
  {
    assert raw[1..] == "11" + "EST5V12Q";
    LeadingDigitsOf("11", "EST5V12Q");
    assert raw[6..][..2][1] == 'V';
  }

  /** A canonical code has no M1/V1 pair: its first character is a digit and it has only three. */
  lemma CanonicalSinPar(s: string)
    requires IsCanonical(s)
    ensures forall k :: !PairAt(s, 'M', k) && !PairAt(s, 'V', k)
  {
    forall k ensures !PairAt(s, 'M', k) && !PairAt(s, 'V', k) {
      if 0 <= k && k + 2 < |s| { assert k == 0; }
    }
  }

  /** Once an M1/V1 rule fires, it decides the text's code. */
  lemma TextoTurno(s: string)
    requires ReescribirTurno(s).Some?
    ensures NormalizarTexto(s) == ReescribirTurno(s).value
  {
    if IsCanonical(s) { CanonicalSinPar(s); }
  }

  /** A label whose trimmed upper-case form is s, non-empty, is normalised through s. */
  lemma GrupoDeTexto(raw: string, s: string)
    requires s == Trim(Upper(raw)) && s != []
    ensures NormalizarGrupo(Some(raw)) == NormalizarTexto(s)
  {
    assert |s| <= |Upper(raw)| == |raw|;
  }

  /**
   * The M1x rule: when the trimmed upper-case label has an "M1<A-H>", the
   * result is 1, the letter after the leftmost one, and M.
   */
  lemma TurnoM(raw: string, k: int)
    requires PairAt(Trim(Upper(raw)), 'M', k)
    requires forall j :: 0 <= j < k ==> !PairAt(Trim(Upper(raw)), 'M', j)
    ensures NormalizarGrupo(Some(raw)) == ['1', Trim(Upper(raw))[k + 2], 'M']
  {
    var s := Trim(Upper(raw));
    TextoTurnoM(s, k);
    GrupoDeTexto(raw, s);
  }

  /**
   * The V1x rule: with no "M1<A-H>" anywhere, the leftmost "V1<A-H>" gives 1,
   * its letter, and V.
   */
  lemma TurnoV(raw: string, k: int)
    requires PairAt(Trim(Upper(raw)), 'V', k)
    requires forall j :: 0 <= j < k ==> !PairAt(Trim(Upper(raw)), 'V', j)
    requires forall j :: !PairAt(Trim(Upper(raw)), 'M', j)
    ensures NormalizarGrupo(Some(raw)) == ['1', Trim(Upper(raw))[k + 2], 'V']
  {
    var s := Trim(Upper(raw));
    TextoTurnoV(s, k);
    GrupoDeTexto(raw, s);
  }

  lemma TextoTurnoM(s: string, k: int)
    requires PairAt(s, 'M', k)
    requires forall j :: 0 <= j < k ==> !PairAt(s, 'M', j)
    ensures s != [] && NormalizarTexto(s) == ['1', s[k + 2], 'M']
  {
    TextoTurno(s);
  }

  lemma TextoTurnoV(s: string, k: int)
    requires PairAt(s, 'V', k)
    requires forall j :: 0 <= j < k ==> !PairAt(s, 'V', j)
    requires forall j :: !PairAt(s, 'M', j)
    ensures s != [] && NormalizarTexto(s) == ['1', s[k + 2], 'V']
  {
    TextoTurno(s);
  }

  /** A non-empty label of blanks only trims to nothing and normalises to "". */
  lemma BlankLabel(raw: string)
    requires raw != "" && AllWhite(raw)
    ensures NormalizarGrupo(Some(raw)) == ""
  {
    var u := Upper(raw);
    forall k | 0 <= k < |u| ensures IsWhite(u[k]) {
      UpperKeepsWhite(raw[k]);
    }
    assert Trim(u) == [];
  }

  // ---------------------------------------------------------------------
  // Properties of the lib/raf.ts variant

  /** The web variant's M1x rule, on the upper-cased (untrimmed) label. */
  lemma LibTurnoM(raw: string, k: int)
    requires PairAt(Upper(raw), 'M', k)
    requires forall j :: 0 <= j < k ==> !PairAt(Upper(raw), 'M', j)
    ensures NormalizarGrupoLib(Some(raw)) == ['1', Upper(raw)[k + 2], 'M']
  {
    assert raw != "";
  }

  /** The web variant's V1x rule, used only when no "M1<A-H>" occurs. */
  lemma LibTurnoV(raw: string, k: int)
    requires PairAt(Upper(raw), 'V', k)
    requires forall j :: 0 <= j < k ==> !PairAt(Upper(raw), 'V', j)
    requires forall j :: !PairAt(Upper(raw), 'M', j)
    ensures NormalizarGrupoLib(Some(raw)) == ['1', Upper(raw)[k + 2], 'V']
  {
    assert raw != "";
  }

  /**
   * Whenever the upper-cased label has an "M1<A-H>" anywhere, the web variant
   * answers 1<letter>M, whatever "V1" occurrences come before it; with only
   * "V1<A-H>" occurrences it answers 1<letter>V.
   */
  lemma LibTurnoOrder(raw: string, t: char, k: int)
    requires t == 'M' || t == 'V'
    requires PairAt(Upper(raw), t, k)
    ensures IsCanonical(NormalizarGrupoLib(Some(raw)))
    ensures t == 'M' ==> NormalizarGrupoLib(Some(raw))[2] == 'M'
    ensures (forall j :: !PairAt(Upper(raw), 'M', j)) ==> NormalizarGrupoLib(Some(raw))[2] == 'V'
  {
    var s := Upper(raw);
    if FirstPair(s, 'M', 0).None? {
      assert FirstPair(s, 'V', 0).Some?;
    }
  }

  /** The web variant does not trim: a blank before a code is kept, where the full variant drops it. */
  lemma LibDoesNotTrim(c: string)
    requires IsCanonical(c)
    ensures NormalizarGrupoLib(Some([' '] + c)) == [' '] + c
    ensures NormalizarGrupo(Some([' '] + c)) == c
  {
    var s := [' '] + c;
    BlankCodeFacts(c);
    CanonicalUnchanged(s);
  }

  lemma BlankCodeFacts(c: string)
    requires IsCanonical(c)
    ensures Upper([' '] + c) == [' '] + c
    ensures Trim([' '] + c) == c
    ensures ReescribirTurno([' '] + c).None?
  {
    BlankCodeUpper(c);
    BlankCodeTrim(c);
    BlankCodeNoPair(c);
  }

  lemma BlankCodeUpper(c: string)
    requires IsCanonical(c)
    ensures Upper([' '] + c) == [' '] + c
  {
    UpperFixed([' '] + c);
  }

  lemma BlankCodeTrim(c: string)
    requires IsCanonical(c)
    ensures Trim([' '] + c) == c
  {
    BlankCodeTrimStart(c);
    TrimNoEdges(c);
  }

  lemma BlankCodeTrimStart(c: string)
    requires IsCanonical(c)
    ensures TrimStart([' '] + c) == c
  {
    var s := [' '] + c;
    assert s[0] == ' ' && s[1..] == c;
    assert !IsWhite(c[0]);
    assert TrimStart(c) == c;
  }

  lemma BlankCodeNoPair(c: string)
    requires IsCanonical(c)
    ensures ReescribirTurno([' '] + c).None?
  {
    var s := [' '] + c;
    forall k | 0 <= k ensures !PairAt(s, 'M', k) && !PairAt(s, 'V', k) {
      if k + 2 < |s| { assert k == 0 || k == 1; }
    }
  }

  /** The web variant has no Z...EST... rules: such a label is only cut to ten characters. */
  lemma LibKeepsZLabels(g: char, n: char, d1: string, t: char, d2: string)
    requires IsDigit(g) && IsDigit(n) && AllDigits(d1) && AllDigits(d2)
    requires t == 'M' || t == 'V'
    ensures var s := ['Z', g, n] + "EST" + d1 + [t] + d2;
            NormalizarGrupoLib(Some(s)) == Prefix(s, 10)
  {
    var tail := d1 + ([t] + d2);
    var s := ['Z', g, n, 'E', 'S', 'T'] + tail;
    assert s == ['Z', g, n] + "EST" + d1 + [t] + d2;
    var p := |d1|;
    forall k | 0 <= k < |tail| && k != p ensures IsDigit(tail[k]) {
      if k < p { assert tail[k] == d1[k]; } else { assert tail[k] == d2[k - p - 1]; }
    }
    UpperFixed(s);
    ZNumNoTurnoPair(g, n, d1, t, d2);
  }
}
