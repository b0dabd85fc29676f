// lib/auth.ts: the signed session cookie. A token is `encoded + "." + sig`,
// where `encoded` is the base64 text of the JSON payload {t, cct, exp} and `sig`
// the base64url text of its HMAC-SHA-256 under the server secret.
// HMAC, base64, the URI escaping and JSON are oracles (the Oraculos record);
// the round trip is proved under the laws those primitives obey (Leyes).

module Auth {
  import opened Base
  import opened JsString

  const CookieName: string := "raf_session"
  /** The text the cookie regex looks for: `raf_session=`. */
  const Prefijo: string := "raf_session="
  const ExpiresDays: nat := 30
  /** Token lifetime in milliseconds: EXPIRES_DAYS * 24 * 60 * 60 * 1000. */
  const ExpiresMs: nat := ExpiresDays * 24 * 60 * 60 * 1000

  datatype Tipo = Super | Escuela

  function TipoTexto(t: Tipo): string
  {
    match t
    case Super => "super"
    case Escuela => "escuela"
  }

  /** A session: `{ tipo, cct? }`; an absent cct is None. */
  datatype Session = Session(tipo: Tipo, cct: Option<string>)

  /** The payload object `{ t, cct, exp }` before JSON.stringify. */
  datatype Carga = Carga(t: string, cct: Option<string>, exp: int)

  /** The environment variables the module reads. */
  datatype Entorno = Entorno(authSecret: Option<string>, nodeEnv: Option<string>)

  /** The primitives the module calls and does not define. */
  datatype Oraculos = Oraculos(
    firmar: (string, string) -> string,             // btoa of HMAC-SHA-256(secret, message), standard base64
    verificar: (string, string, string) -> Option<bool>, // crypto.subtle.verify on atob(signature); None: atob throws
    codificar: string -> string,                     // btoa(unescape(encodeURIComponent(payload)))
    decodificar: string -> Option<string>,           // decodeURIComponent(escape(atob(encoded))); None: throws
    serializar: Carga -> string,                     // JSON.stringify
    analizar: string -> Option<Json>)                // JSON.parse; None: throws

  // ---- getSecret ----

  const DevSecret: string := "raf-dev-secret-min-16-chars"
  /** The environment variable holding the secret, as the error message names it. */
  const SecretVar: string := "AUTH_SECRET"
  const SecretMessage: string := "Configura " + SecretVar + " (mínimo 16 caracteres) en Variables de entorno de Vercel."

  /** getSecret: the trimmed AUTH_SECRET when it has at least 16 characters, a fixed secret in development, else an error. */
  function GetSecret(env: Entorno): (r: Result<string, string>)
    ensures var s := Trim(env.authSecret.GetOr(""));
            (|s| >= 16 ==> r == Ok(s)) &&
            (|s| < 16 && env.nodeEnv == Some("development") ==> r == Ok(DevSecret)) &&
            (|s| < 16 && env.nodeEnv != Some("development") ==> r == Err(SecretMessage))
    ensures r.Ok? ==> |r.value| >= 16
  {
    var s := Trim(env.authSecret.GetOr(""));
    if |s| >= 16 then Ok(s)
    else if env.nodeEnv == Some("development") then Ok(DevSecret)
    else Err(SecretMessage)
  }

  // ---- base64url ----

  /** A data character of standard base64 text: letters, digits, `+` and `/`. */
  predicate EsB64(c: char)
  {
    ('A' <= c <= 'Z') || ('a' <= c <= 'z') || ('0' <= c <= '9') || c == '+' || c == '/'
  }

  /** Standard base64 text: data characters followed by `=` padding. */
  predicate Base64(s: string)
  {
    var t := SinRelleno(s);
    forall k :: 0 <= k < |t| ==> EsB64(t[k])
  }

  function UrlChar(c: char): char
  {
    if c == '+' then '-' else if c == '/' then '_' else c
  }

  function StdChar(c: char): char
  {
    if c == '-' then '+' else if c == '_' then '/' else c
  }

  /** `.replace(/\+/g, "-").replace(/\//g, "_")`. */
  function AUrl(s: string): (r: string)
    ensures |r| == |s|
    ensures forall k :: 0 <= k < |s| ==> r[k] == UrlChar(s[k])
  {
    if s == [] then [] else [UrlChar(s[0])] + AUrl(s[1..])
  }

  /** `.replace(/-/g, "+").replace(/_/g, "/")`. */
  function AStd(s: string): (r: string)
    ensures |r| == |s|
    ensures forall k :: 0 <= k < |s| ==> r[k] == StdChar(s[k])
  {
    if s == [] then [] else [StdChar(s[0])] + AStd(s[1..])
  }

  /** `.replace(/=+$/, "")`: the trailing run of `=` removed. */
  function SinRelleno(s: string): (r: string)
    ensures |r| <= |s| && r == s[..|r|]
    ensures r == [] || r[|r| - 1] != '='
    ensures forall k :: |r| <= k < |s| ==> s[k] == '='
  {
    if s != [] && s[|s| - 1] == '=' then SinRelleno(s[..|s| - 1]) else s
  }

  /** The signature text of hmacSign: base64 made URL-safe and unpadded. */
  function Base64Url(s: string): string
  {
    SinRelleno(AUrl(s))
  }

  /** A character of base64url text: no `+`, `/`, `=`, and so no `.`, `;` or whitespace. */
  predicate EsB64Url(c: char)
  {
    ('A' <= c <= 'Z') || ('a' <= c <= 'z') || ('0' <= c <= '9') || c == '-' || c == '_'
  }

  /**
   * hmacSign's output from base64 text is base64url: none of `+`, `/`, `=`
   * is left, so the text holds no `.` either; hmacVerify's substitutions undo
   * it up to the stripped padding.
   */
  lemma Base64UrlCorrecto(s: string)
    requires Base64(s)
    ensures forall k :: 0 <= k < |Base64Url(s)| ==> EsB64Url(Base64Url(s)[k])
    ensures AStd(Base64Url(s)) == SinRelleno(s)
    ensures s != [] && s[0] != '=' ==> Base64Url(s) != []
  {
    SinRellenoMapea(s);
    Base64UrlCaracteres(s);
  }

  lemma Base64UrlCaracteres(s: string)
    requires Base64(s)
    requires |SinRelleno(AUrl(s))| == |SinRelleno(s)|
    ensures forall k :: 0 <= k < |Base64Url(s)| ==> EsB64Url(Base64Url(s)[k]) && StdChar(Base64Url(s)[k]) == SinRelleno(s)[k]
    ensures AStd(Base64Url(s)) == SinRelleno(s)
  {
    var r := Base64Url(s);
    var t := SinRelleno(s);
    forall k | 0 <= k < |r| ensures EsB64Url(r[k]) && StdChar(r[k]) == t[k] {
      assert r[k] == AUrl(s)[k] == UrlChar(s[k]);
      assert t[k] == s[k];
    }
  }

  /** Removing the padding commutes with the character substitution, which leaves `=` alone. */
  lemma {:induction false} SinRellenoMapea(s: string)
    ensures |SinRelleno(AUrl(s))| == |SinRelleno(s)|
  {
    if s != [] && s[|s| - 1] == '=' {
      assert AUrl(s)[..|s| - 1] == AUrl(s[..|s| - 1]);
      SinRellenoMapea(s[..|s| - 1]);
    } else if s != [] {
      assert AUrl(s)[|s| - 1] == UrlChar(s[|s| - 1]) != '=';
    }
  }

  /** Every character of standard base64 text is a data character or `=`. */
  lemma Base64Caracteres(s: string)
    requires Base64(s)
    ensures forall k :: 0 <= k < |s| ==> EsB64(s[k]) || s[k] == '='
  {
    var t := SinRelleno(s);
    forall k | 0 <= k < |s| ensures EsB64(s[k]) || s[k] == '=' {
      if k < |t| {
        assert s[k] == t[k];
      }
    }
  }

  // ---- Reading a cookie ----

  /** The text before the first `c` (all of `s` when there is none). */
  function HastaChar(s: string, c: char): (r: string)
    ensures |r| <= |s| && r == s[..|r|]
    ensures c !in r
    ensures |r| < |s| ==> s[|r|] == c
  {
    if s == [] || s[0] == c then [] else [s[0]] + HastaChar(s[1..], c)
  }

  /**
   * `cookieHeader.match(/raf_session=([^;]+)/)?.[1]`: the text after the
   * leftmost `raf_session=` that is followed by a character other than `;`,
   * up to the next `;`.
   */
  function BuscarCookie(h: string): (r: Option<string>)
    ensures r.Some? ==> r.value != [] && ';' !in r.value
    ensures r.None? <==> forall i: nat :: !Ocurrencia(h, i)
    ensures forall i: nat :: Ocurrencia(h, i) && (forall j: nat :: j < i ==> !Ocurrencia(h, j)) ==>
              r == Some(HastaChar(h[i + |Prefijo|..], ';'))
  {
    if |h| <= |Prefijo| then None
    else if h[..|Prefijo|] == Prefijo && h[|Prefijo|] != ';' then
      assert Ocurrencia(h, 0);
      Some(HastaChar(h[|Prefijo|..], ';'))
    else
      var r1 := BuscarCookie(h[1..]);
      BuscarEnCola(h, r1);
      r1
  }

  /** `raf_session=` followed by a character other than `;` starts at index `i` of `h`. */
  predicate Ocurrencia(h: string, i: nat)
  {
    i + |Prefijo| < |h| && h[i..i + |Prefijo|] == Prefijo && h[i + |Prefijo|] != ';'
  }

  /**
   * When none starts at index 0, the answer for `h[1..]` is the answer for
   * `h`: its leftmost occurrence is that of `h`, one index earlier.
   */
  lemma BuscarEnCola(h: string, r1: Option<string>)
    requires |h| > |Prefijo| && !(h[..|Prefijo|] == Prefijo && h[|Prefijo|] != ';')
    requires r1.None? <==> forall i: nat :: !Ocurrencia(h[1..], i)
    requires forall i: nat :: Ocurrencia(h[1..], i) && (forall j: nat :: j < i ==> !Ocurrencia(h[1..], j)) ==>
               r1 == Some(HastaChar(h[1..][i + |Prefijo|..], ';'))
    ensures r1.None? <==> forall i: nat :: !Ocurrencia(h, i)
    ensures forall i: nat :: Ocurrencia(h, i) && (forall j: nat :: j < i ==> !Ocurrencia(h, j)) ==>
              r1 == Some(HastaChar(h[i + |Prefijo|..], ';'))
  {
    assert !Ocurrencia(h, 0);
    OcurrenciaCola(h);
    if r1.None? {
      forall i: nat ensures !Ocurrencia(h, i) {
        if i > 0 { assert !Ocurrencia(h[1..], i - 1); }
      }
    } else {
      var i1: nat :| Ocurrencia(h[1..], i1);
      assert Ocurrencia(h, i1 + 1);
    }
    forall i: nat | Ocurrencia(h, i) && (forall j: nat :: j < i ==> !Ocurrencia(h, j))
      ensures r1 == Some(HastaChar(h[i + |Prefijo|..], ';'))
    {
      var i1: nat := i - 1;
      assert Ocurrencia(h[1..], i1);
      forall j: nat | j < i1 ensures !Ocurrencia(h[1..], j) {
        assert !Ocurrencia(h, j + 1);
      }
    }
  }

  /** The occurrences in `h[1..]` are those of `h` after index 0, shifted by one. */
  lemma OcurrenciaCola(h: string)
    requires h != []
    ensures forall i: nat :: Ocurrencia(h[1..], i) <==> Ocurrencia(h, i + 1)
    ensures forall i: nat :: Ocurrencia(h[1..], i) ==> h[1..][i + |Prefijo|..] == h[i + 1 + |Prefijo|..]
  {
    forall i: nat ensures Ocurrencia(h[1..], i) <==> Ocurrencia(h, i + 1) {
      if i + 1 + |Prefijo| < |h| {
        assert h[1..][i..i + |Prefijo|] == h[i + 1..i + 1 + |Prefijo|];
      }
    }
  }

  /** `raf_session=` occurs in `h` at index `i`. */
  predicate PrefijoEn(h: string, i: nat)
  {
    i + |Prefijo| <= |h| && h[i..i + |Prefijo|] == Prefijo
  }

  /** A header in which `raf_session=` occurs nowhere has no session cookie. */
  lemma {:induction false} BuscarCookieAusente(h: string)
    requires forall i: nat :: !PrefijoEn(h, i)
    ensures BuscarCookie(h) == None
  {
    if |h| > |Prefijo| {
      assert !PrefijoEn(h, 0);
      assert h[0..|Prefijo|] == h[..|Prefijo|];
      forall i: nat ensures !PrefijoEn(h[1..], i) {
        assert !PrefijoEn(h, i + 1);
        if i + |Prefijo| <= |h[1..]| {
          assert h[1..][i..i + |Prefijo|] == h[i + 1..i + 1 + |Prefijo|];
        }
      }
      BuscarCookieAusente(h[1..]);
    }
  }

  /**
   * `data.exp < Date.now()`: an absent exp compares false (never expires),
   * null and booleans compare as 0 and 1. Strings, arrays and objects go
   * through Number() in the source; the model treats them as NaN, which
   * compares false.
   */
  predicate Vencida(exp: Option<Json>, ahora: int)
  {
    match exp
    case None => false
    case Some(JNum(n)) => n < ahora
    case Some(JNull) => 0 < ahora
    case Some(JBool(b)) => (if b then 1 else 0) < ahora
    case Some(_) => false
  }

  /** `data.cct ?? undefined`: a string cct is kept, null or absent is none. */
  function CctDe(v: Option<Json>): Option<string>
  {
    if v.Some? && v.value.JStr? then Some(v.value.s) else None
  }

  /**
   * The session a parsed payload stands for. `null` throws on `data.exp` and any
   * other non-object has no `t`, so only an object yields a session.
   */
  function SesionDe(data: Json, ahora: int): (r: Option<Session>)
    ensures r.Some? <==> data.JObj? && !Vencida(LookupLast(data.entries, "exp"), ahora) &&
                         (LookupLast(data.entries, "t") == Some(JStr("super")) || LookupLast(data.entries, "t") == Some(JStr("escuela")))
    ensures r.Some? ==> LookupLast(data.entries, "t") == Some(JStr(TipoTexto(r.value.tipo))) &&
                        r.value.cct == CctDe(LookupLast(data.entries, "cct"))
  {
    if !data.JObj? then None
    else if Vencida(LookupLast(data.entries, "exp"), ahora) then None
    else
      var cct := CctDe(LookupLast(data.entries, "cct"));
      if LookupLast(data.entries, "t") == Some(JStr("super")) then Some(Session(Super, cct))
      else if LookupLast(data.entries, "t") == Some(JStr("escuela")) then Some(Session(Escuela, cct))
      else None
  }

  /** `const [encoded, sig] = value.split(".")`: the first two dot-fields; sig is absent without a dot. */
  function Partes(value: string): (r: (string, Option<string>))
    ensures r.0 == HastaChar(value, '.')
    ensures r.1.None? <==> '.' !in value
    ensures r.1.Some? ==> r.1.value == HastaChar(value[|r.0| + 1..], '.')
  {
    var enc := HastaChar(value, '.');
    if |enc| < |value| then
      assert value[|enc|] == '.';
      (enc, Some(HastaChar(value[|enc| + 1..], '.')))
    else
      assert value == enc;
      (enc, None)
  }

  /**
   * The checks getSessionFromCookie makes on the trimmed cookie value under a
   * known secret: both dot-fields present and non-empty, the MAC valid, the
   * payload decodable, parseable, unexpired and of a known type.
   */
  function LeerToken(value: string, secreto: string, ahora: int, o: Oraculos): (r: Option<Session>)
    ensures value == [] || '.' !in value || HastaChar(value, '.') == [] ==> r.None?
    ensures r.Some? ==> var (enc, sig) := Partes(value);
                        sig.Some? && sig.value != [] && o.verificar(enc, AStd(sig.value), secreto) == Some(true)
  {
    var (enc, sig) := Partes(value);
    if enc == [] || sig.None? || sig.value == [] then None
    else match o.verificar(enc, AStd(sig.value), secreto)
      case None => None
      case Some(false) => None
      case Some(true) =>
        match o.decodificar(enc)
        case None => None
        case Some(payload) =>
          match o.analizar(payload)
          case None => None
          case Some(data) => SesionDe(data, ahora)
  }

  /** getSessionFromCookie: every failure, a misconfigured secret included, is no session. */
  function GetSessionFromCookie(h: Option<string>, env: Entorno, ahora: int, o: Oraculos): (r: Option<Session>)
    ensures h.None? || h == Some([]) ==> r.None?
    ensures GetSecret(env).Err? ==> r.None?
    ensures h.Some? && BuscarCookie(h.value).None? ==> r.None?
    ensures r.Some? ==> h.Some? && BuscarCookie(h.value).Some? && GetSecret(env).Ok? &&
                        r == LeerToken(Trim(BuscarCookie(h.value).value), GetSecret(env).value, ahora, o)
    ensures h.Some? && h.value != [] && GetSecret(env).Ok? && BuscarCookie(h.value).Some? ==>
              r == LeerToken(Trim(BuscarCookie(h.value).value), GetSecret(env).value, ahora, o)
  {
    if h.None? || h.value == [] then None
    else match GetSecret(env)
      case Err(_) => None
      case Ok(secreto) =>
        match BuscarCookie(h.value)
        case None => None
        case Some(raw) => LeerToken(Trim(raw), secreto, ahora, o)
  }

  /** Only the first two dot-fields are read: anything after a second dot is ignored. */
  lemma SoloDosCampos(enc: string, sig: string, resto: string, secreto: string, ahora: int, o: Oraculos)
    requires '.' !in enc && '.' !in sig
    ensures LeerToken(enc + "." + sig + "." + resto, secreto, ahora, o) == LeerToken(enc + "." + sig, secreto, ahora, o)
  {
    var v1 := enc + "." + sig + "." + resto;
    var v2 := enc + "." + sig;
    PartesConResto(enc, sig, resto);
    PartesSinResto(enc, sig);
    MismasPartes(v1, v2, secreto, ahora, o);
  }

  /** `enc.sig.resto` splits into enc and sig. */
  lemma PartesConResto(enc: string, sig: string, resto: string)
    requires '.' !in enc && '.' !in sig
    ensures Partes(enc + "." + sig + "." + resto) == (enc, Some(sig))
  {
    assert enc + "." + sig + "." + resto == enc + "." + (sig + ("." + resto));
    PartesDe(enc, sig + ("." + resto));
    HastaCharAntes(sig, "." + resto, '.');
  }

  /** `enc.sig` splits into enc and sig. */
  lemma PartesSinResto(enc: string, sig: string)
    requires '.' !in enc && '.' !in sig
    ensures Partes(enc + "." + sig) == (enc, Some(sig))
  {
    PartesDe(enc, sig);
    HastaCharAntes(sig, [], '.');
    assert sig + [] == sig;
  }

  /** LeerToken looks at its value only through the two dot-fields. */
  lemma MismasPartes(v1: string, v2: string, secreto: string, ahora: int, o: Oraculos)
    requires Partes(v1) == Partes(v2)
    ensures LeerToken(v1, secreto, ahora, o) == LeerToken(v2, secreto, ahora, o)
  {
  }

  /** The text before the first `c` of `a + b`, when `a` holds no `c` and `b` is empty or starts with `c`. */
  lemma {:induction false} HastaCharAntes(a: string, b: string, c: char)
    requires c !in a
    requires b == [] || b[0] == c
    ensures HastaChar(a + b, c) == a
  {
    if a == [] {
      assert a + b == b;
    } else {
      assert a[0] != c;
      assert (a + b)[1..] == a[1..] + b;
      assert (a + b)[0] == a[0];
      HastaCharAntes(a[1..], b, c);
      assert [a[0]] + a[1..] == a;
    }
  }

  lemma PartesDe(enc: string, sig: string)
    requires '.' !in enc
    ensures Partes(enc + "." + sig) == (enc, Some(HastaChar(sig, '.')))
  {
    var v := enc + "." + sig;
    assert v == enc + ("." + sig);
    HastaCharAntes(enc, "." + sig, '.');
    assert v[|enc| + 1..] == sig;
  }

  // ---- Creating a cookie ----

  /** The JSON object JSON.parse reads back from the stringified payload. */
  function JsonDe(c: Carga): Json
  {
    JObj([("t", JStr(c.t)), ("cct", if c.cct.Some? then JStr(c.cct.value) else JNull), ("exp", JNum(c.exp))])
  }

  /** The payload of a session created at time `ahora`. */
  function CargaDe(s: Session, ahora: int): (c: Carga)
    ensures c.exp == ahora + ExpiresMs && c.exp == ahora + 2592000000
    ensures c.t == TipoTexto(s.tipo) && c.cct == s.cct
  {
    Carga(TipoTexto(s.tipo), s.cct, ahora + ExpiresMs)
  }

  /** createSessionCookie: `encoded + "." + sig`; it throws when getSecret does. */
  function CreateSessionCookie(s: Session, env: Entorno, ahora: int, o: Oraculos): (r: Result<string, string>)
    ensures r.Err? <==> GetSecret(env).Err?
    ensures r.Err? ==> r.error == SecretMessage
    ensures r.Ok? ==> var enc := o.codificar(o.serializar(CargaDe(s, ahora)));
                      r.value == enc + "." + Base64Url(o.firmar(enc, GetSecret(env).value))
  {
    var encoded := o.codificar(o.serializar(CargaDe(s, ahora)));
    match GetSecret(env)
    case Err(m) => Err(m)
    case Ok(secreto) => Ok(encoded + "." + Base64Url(o.firmar(encoded, secreto)))
  }

  /** What the round trip assumes of the primitives. */
  ghost predicate Leyes(o: Oraculos)
  {
    && (forall m, k :: Base64(o.firmar(m, k)) && o.firmar(m, k) != [] && o.firmar(m, k)[0] != '=')
    && (forall m, k :: o.verificar(m, SinRelleno(o.firmar(m, k)), k) == Some(true))
    && (forall p :: Base64(o.codificar(p)) && o.codificar(p) != [] && o.codificar(p)[0] != '=')
    && (forall p :: o.decodificar(o.codificar(p)) == Some(p))
    && (forall c :: o.analizar(o.serializar(c)) == Some(JsonDe(c)))
  }

  /** A token is base64 text, one dot and base64url text: no `;`, no whitespace, no further dot. */
  predicate TokenBienFormado(token: string, enc: string, sig: string)
  {
    && token == enc + "." + sig
    && enc != [] && (forall k :: 0 <= k < |enc| ==> EsB64(enc[k]) || enc[k] == '=')
    && sig != [] && (forall k :: 0 <= k < |sig| ==> EsB64Url(sig[k]))
  }

  /** The token createSessionCookie returns has that form, with the MAC of `enc` as `sig`. */
  lemma TokenForma(s: Session, env: Entorno, ahora: int, o: Oraculos, token: string)
    requires Leyes(o)
    requires CreateSessionCookie(s, env, ahora, o) == Ok(token)
    ensures var enc := o.codificar(o.serializar(CargaDe(s, ahora)));
            var sig := Base64Url(o.firmar(enc, GetSecret(env).value));
            TokenBienFormado(token, enc, sig) && AStd(sig) == SinRelleno(o.firmar(enc, GetSecret(env).value))
  {
    var enc := o.codificar(o.serializar(CargaDe(s, ahora)));
    var f := o.firmar(enc, GetSecret(env).value);
    Base64Caracteres(enc);
    Base64UrlCorrecto(f);
  }

  /** In a well-formed token the dot splits exactly the two parts. */
  lemma TokenPartes(token: string, enc: string, sig: string)
    requires TokenBienFormado(token, enc, sig)
    ensures '.' !in enc && '.' !in sig
    ensures Partes(token) == (enc, Some(sig))
  {
    assert forall k :: 0 <= k < |enc| ==> enc[k] != '.';
    assert forall k :: 0 <= k < |sig| ==> sig[k] != '.';
    PartesSinResto(enc, sig);
  }

  /** A well-formed token has no `;` and nothing for trim to remove. */
  lemma TokenLimpio(token: string, enc: string, sig: string)
    requires TokenBienFormado(token, enc, sig)
    ensures ';' !in token && token != [] && token[0] != ';'
    ensures Trim(token) == token
  {
    forall k | 0 <= k < |token| ensures token[k] != ';' {
      if k < |enc| {
        assert token[k] == enc[k];
      } else if k > |enc| {
        assert token[k] == sig[k - |enc| - 1];
      }
    }
    assert token[0] == enc[0];
    assert token[|token| - 1] == sig[|sig| - 1];
    TrimNoEdges(token);
  }

  /** Past the cookie lookup, reading the own cookie header is reading its token. */
  lemma CabeceraPropia(token: string, env: Entorno, ahora: int, o: Oraculos)
    requires token != [] && token[0] != ';' && ';' !in token && Trim(token) == token
    requires GetSecret(env).Ok?
    ensures GetSessionFromCookie(Some(Prefijo + token), env, ahora, o) == LeerToken(token, GetSecret(env).value, ahora, o)
  {
    BuscarCookiePropia(token);
  }

  /** A token whose MAC checks and whose payload decodes and parses reads as the parsed session. */
  lemma LeerTokenValido(token: string, enc: string, sig: string, secreto: string, ahora: int, o: Oraculos, p: string, data: Json)
    requires Partes(token) == (enc, Some(sig)) && enc != [] && sig != []
    requires o.verificar(enc, AStd(sig), secreto) == Some(true)
    requires o.decodificar(enc) == Some(p) && o.analizar(p) == Some(data)
    ensures LeerToken(token, secreto, ahora, o) == SesionDe(data, ahora)
  {
  }

  /** The cookie header `raf_session=<token>` yields the token back. */
  lemma BuscarCookiePropia(token: string)
    requires token != [] && token[0] != ';' && ';' !in token
    ensures BuscarCookie(Prefijo + token) == Some(token)
  {
    var h := Prefijo + token;
    assert h[..|Prefijo|] == Prefijo;
    assert h[|Prefijo|..] == token;
    assert HastaChar(token, ';') == token by {
      HastaCharAntes(token, [], ';');
      assert token + [] == token;
    }
  }

  /** The three fields of a created session's payload, as the parsed object holds them. */
  lemma CamposDeCarga(s: Session, t0: int)
    ensures JsonDe(CargaDe(s, t0)).JObj?
    ensures LookupLast(JsonDe(CargaDe(s, t0)).entries, "exp") == Some(JNum(t0 + ExpiresMs))
    ensures LookupLast(JsonDe(CargaDe(s, t0)).entries, "cct") == Some(if s.cct.Some? then JStr(s.cct.value) else JNull)
    ensures LookupLast(JsonDe(CargaDe(s, t0)).entries, "t") == Some(JStr(TipoTexto(s.tipo)))
  {
    var es := JsonDe(CargaDe(s, t0)).entries;
    assert |es[0].0| == 1 && |es[1].0| == 3 && |es[2].0| == 3 && es[1].0 != es[2].0;
    assert es[..2][..1] == es[..1];
    assert LookupLast(es, "cct") == LookupLast(es[..2], "cct");
    assert LookupLast(es, "t") == LookupLast(es[..2], "t") == LookupLast(es[..1], "t");
  }

  /** The payload of a created session reads back as that session until it expires. */
  lemma SesionDeCarga(s: Session, t0: int, ahora: int)
    ensures SesionDe(JsonDe(CargaDe(s, t0)), ahora) == (if ahora <= t0 + ExpiresMs then Some(s) else None)
  {
    CamposDeCarga(s, t0);
    var data := JsonDe(CargaDe(s, t0));
    assert Vencida(LookupLast(data.entries, "exp"), ahora) <==> t0 + ExpiresMs < ahora;
    assert CctDe(LookupLast(data.entries, "cct")) == s.cct;
    if s.tipo == Escuela {
      assert LookupLast(data.entries, "t") != Some(JStr("super")) by {
        assert "escuela"[0] != "super"[0];
      }
    }
  }

  /**
   * Round trip: the cookie header carrying a token createSessionCookie made at
   * time t0 gives back the session at any time up to t0 + 30 days, and no
   * session after that, provided the primitives obey their laws.
   */
  lemma RoundTrip(s: Session, env: Entorno, t0: int, ahora: int, o: Oraculos, token: string)
    requires Leyes(o)
    requires CreateSessionCookie(s, env, t0, o) == Ok(token)
    ensures GetSessionFromCookie(Some(Prefijo + token), env, ahora, o) == (if ahora <= t0 + ExpiresMs then Some(s) else None)
  {
    var c := CargaDe(s, t0);
    var enc := o.codificar(o.serializar(c));
    var secreto := GetSecret(env).value;
    var sig := Base64Url(o.firmar(enc, secreto));
    TokenForma(s, env, t0, o, token);
    TokenPartes(token, enc, sig);
    TokenLimpio(token, enc, sig);
    CabeceraPropia(token, env, ahora, o);
    assert o.verificar(enc, AStd(sig), secreto) == Some(true);
    assert o.decodificar(enc) == Some(o.serializar(c));
    assert o.analizar(o.serializar(c)) == Some(JsonDe(c));
    LeerTokenValido(token, enc, sig, secreto, ahora, o, o.serializar(c), JsonDe(c));
    SesionDeCarga(s, t0, ahora);
  }

  // ---- getSession ----

  /**
   * getSession: a value holding `=` and not starting with `.` is taken for a
   * whole Cookie header; any other value is wrapped as `raf_session=<value>`.
   */
  function GetSession(v: Option<string>, env: Entorno, ahora: int, o: Oraculos): (r: Option<Session>)
    ensures v.None? || v == Some([]) ==> r.None?
    ensures v.Some? && v.value != [] && '=' in v.value && v.value[0] != '.' ==>
              r == GetSessionFromCookie(v, env, ahora, o)
    ensures v.Some? && v.value != [] && ('=' !in v.value || v.value[0] == '.') ==>
              r == GetSessionFromCookie(Some(Prefijo + v.value), env, ahora, o)
  {
    if v.None? || v.value == [] then None
    else
      var esCabecera := '=' in v.value && v.value[0] != '.';
      GetSessionFromCookie(Some(if esCabecera then v.value else Prefijo + v.value), env, ahora, o)
  }

  /** `raf_session=` occurs somewhere in `h`. */
  function ContienePrefijo(h: string): bool
  {
    if |h| < |Prefijo| then false
    else h[..|Prefijo|] == Prefijo || ContienePrefijo(h[1..])
  }

  /** A text in which `raf_session=` occurs at no index has neither a cookie match nor the prefix. */
  lemma {:induction false} SinPrefijo(h: string)
    requires forall i: nat :: !PrefijoEn(h, i)
    ensures BuscarCookie(h) == None && !ContienePrefijo(h)
  {
    if |h| >= |Prefijo| {
      assert !PrefijoEn(h, 0);
      assert h[0..|Prefijo|] == h[..|Prefijo|];
      forall i: nat ensures !PrefijoEn(h[1..], i) {
        assert !PrefijoEn(h, i + 1);
        if i + |Prefijo| <= |h[1..]| {
          assert h[1..][i..i + |Prefijo|] == h[i + 1..i + 1 + |Prefijo|];
        }
      }
      SinPrefijo(h[1..]);
    }
  }

  /**
   * `raf_session=` never occurs in a token: its `=` could only be padding of
   * the base64 part, where the `_` eight characters before it cannot be.
   */
  lemma TokenSinPrefijo(token: string, enc: string, sig: string)
    requires TokenBienFormado(token, enc, sig)
    ensures forall i: nat :: !PrefijoEn(token, i)
    ensures token != [] && token[0] != '.'
  {
    assert token[0] == enc[0];
    forall k | |enc| <= k < |token| ensures token[k] != '=' {
      if k > |enc| {
        assert token[k] == sig[k - |enc| - 1];
      }
    }
    forall i: nat ensures !PrefijoEn(token, i) {
      if i + |Prefijo| <= |token| {
        var w := token[i..i + |Prefijo|];
        if token[i + 11] != '=' {
          assert w[11] != Prefijo[11];
        } else {
          assert token[i + 3] == enc[i + 3];
          assert w[3] != Prefijo[3];
        }
      }
    }
  }

  /** A created token neither holds `raf_session=` nor starts with a dot. */
  lemma TokenSinPrefijoDe(s: Session, env: Entorno, t0: int, o: Oraculos, token: string)
    requires Leyes(o)
    requires CreateSessionCookie(s, env, t0, o) == Ok(token)
    ensures forall i: nat :: !PrefijoEn(token, i)
    ensures token != [] && token[0] != '.'
  {
    var enc := o.codificar(o.serializar(CargaDe(s, t0)));
    var sig := Base64Url(o.firmar(enc, GetSecret(env).value));
    TokenForma(s, env, t0, o, token);
    TokenSinPrefijo(token, enc, sig);
  }

  /**
   * As written, getSession refuses the bare cookie value whenever the base64
   * payload carries `=` padding: the value holds `=` and does not start with a
   * dot, so it is searched for `raf_session=` as if it were a header, and that
   * text is not in it. The same token inside a Cookie header is accepted.
   */
  lemma GetSessionRechazaRelleno(s: Session, env: Entorno, t0: int, ahora: int, o: Oraculos, token: string)
    requires Leyes(o)
    requires CreateSessionCookie(s, env, t0, o) == Ok(token)
    requires '=' in token
    ensures GetSession(Some(token), env, ahora, o) == None
    ensures ahora <= t0 + ExpiresMs ==> GetSessionFromCookie(Some(Prefijo + token), env, ahora, o) == Some(s)
  {
    TokenSinPrefijoDe(s, env, t0, o, token);
    SinPrefijo(token);
    RoundTrip(s, env, t0, ahora, o, token);
  }

  /**
   * getSession as evidently intended: a value is a whole Cookie header when it
   * holds `raf_session=`, and a bare cookie value otherwise.
   */
  function GetSessionCorregida(v: Option<string>, env: Entorno, ahora: int, o: Oraculos): (r: Option<Session>)
    ensures v.None? || v == Some([]) ==> r.None?
    ensures v.Some? && ContienePrefijo(v.value) ==> r == GetSessionFromCookie(v, env, ahora, o)
  {
    if v.None? || v.value == [] then None
    else if ContienePrefijo(v.value) then GetSessionFromCookie(v, env, ahora, o)
    else GetSessionFromCookie(Some(Prefijo + v.value), env, ahora, o)
  }

  /** With the correction a bare token reads back as its session until it expires, padded or not. */
  lemma GetSessionCorregidaRoundTrip(s: Session, env: Entorno, t0: int, ahora: int, o: Oraculos, token: string)
    requires Leyes(o)
    requires CreateSessionCookie(s, env, t0, o) == Ok(token)
    ensures GetSessionCorregida(Some(token), env, ahora, o) == (if ahora <= t0 + ExpiresMs then Some(s) else None)
    ensures GetSessionCorregida(Some(Prefijo + token), env, ahora, o) == (if ahora <= t0 + ExpiresMs then Some(s) else None)
  {
    TokenSinPrefijoDe(s, env, t0, o, token);
    SinPrefijo(token);
    assert (Prefijo + token)[..|Prefijo|] == Prefijo;
    RoundTrip(s, env, t0, ahora, o, token);
  }
}
