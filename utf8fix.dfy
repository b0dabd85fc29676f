// Repair of text that was stored as UTF-8 but read back as Latin-1
// ("mojibake"), and its application to every string of a parsed JSON value.
// The Latin-1 re-encoding followed by UTF-8 decoding is a parameter.

module Utf8Fix {
  import opened Base

  const ATilde: char := '\U{00C3}'

  /**
   * The Latin-1 to UTF-8 re-decoding of a whole string
   * (`Buffer.from(s, "latin1").toString("utf8")`); None when it throws.
   */
  type Decoder = string -> Option<string>

  /** `ab` occurs at position i of s. */
  predicate PairAt(s: string, i: int, a: char, b: char)
  {
    0 <= i && i + 1 < |s| && s[i] == a && s[i + 1] == b
  }

  /** s.replace(/ab/g, rep): a left-to-right scan replacing non-overlapping occurrences. */
  function ReplaceAll(s: string, a: char, b: char, rep: char): (r: string)
    ensures |r| <= |s|
    decreases |s|
  {
    if |s| < 2 then s
    else if s[0] == a && s[1] == b then [rep] + ReplaceAll(s[2..], a, b, rep)
    else [s[0]] + ReplaceAll(s[1..], a, b, rep)
  }

  /** A replacement fires exactly when the pattern occurs: the text is unchanged iff it has no `ab`. */
  lemma {:induction false} ReplaceAllUnchanged(s: string, a: char, b: char, rep: char)
    ensures ReplaceAll(s, a, b, rep) == s <==> forall i :: !PairAt(s, i, a, b)
  {
    if |s| >= 2 {
      if s[0] == a && s[1] == b {
        assert PairAt(s, 0, a, b);
        assert |ReplaceAll(s, a, b, rep)| < |s|;
      } else {
        ReplaceAllUnchanged(s[1..], a, b, rep);
        if forall i :: !PairAt(s[1..], i, a, b) {
          forall i ensures !PairAt(s, i, a, b) {
            if i > 0 { assert !PairAt(s[1..], i - 1, a, b); }
          }
        } else {
          var i :| PairAt(s[1..], i, a, b);
          assert PairAt(s, i + 1, a, b);
        }
        assert s == [s[0]] + s[1..];
      }
    }
  }

  /**
   * After the scan no `ab` is left when the replacement character differs from
   * both pattern characters and the two pattern characters differ.
   */
  lemma {:induction false} ReplaceAllRemoves(s: string, a: char, b: char, rep: char)
    requires a != b && rep != a && rep != b
    ensures forall i :: !PairAt(ReplaceAll(s, a, b, rep), i, a, b)
  {
    if |s| >= 2 {
      var r := ReplaceAll(s, a, b, rep);
      if s[0] == a && s[1] == b {
        var rest := ReplaceAll(s[2..], a, b, rep);
        ReplaceAllRemoves(s[2..], a, b, rep);
        forall i ensures !PairAt(r, i, a, b) {
          if i > 0 { assert !PairAt(rest, i - 1, a, b); }
        }
      } else {
        var rest := ReplaceAll(s[1..], a, b, rep);
        ReplaceAllRemoves(s[1..], a, b, rep);
        forall i ensures !PairAt(r, i, a, b) {
          if i > 0 {
            assert !PairAt(rest, i - 1, a, b);
          } else if PairAt(r, 0, a, b) {
            ReplaceAllHead(s[1..], a, b, rep);
          }
        }
      }
    }
  }

  /** The first character of a scan result is the replacement or the first input character. */
  lemma ReplaceAllHead(s: string, a: char, b: char, rep: char)
    requires s != []
    ensures ReplaceAll(s, a, b, rep) != []
    ensures ReplaceAll(s, a, b, rep)[0] == rep || ReplaceAll(s, a, b, rep)[0] == s[0]
    ensures s[0] == a && (|s| < 2 || s[1] != b) ==> ReplaceAll(s, a, b, rep)[0] == a
  {
  }

  /** The five digraph replacements of lib/utf8-fix.ts, in order. */
  function ReplaceDigraphs(s: string): string
  {
    var s1 := ReplaceAll(s, ATilde, '\U{00B1}', '\U{00F1}');
    var s2 := ReplaceAll(s1, ATilde, 'A', '\U{00D1}');
    var s3 := ReplaceAll(s2, ATilde, 'O', '\U{00D1}');
    var s4 := ReplaceAll(s3, ATilde, 'a', '\U{00F1}');
    ReplaceAll(s4, ATilde, 'o', '\U{00F1}')
  }

  /** /Ã[\x80-\xBF]/: an Ã followed by a UTF-8 continuation byte read as Latin-1. */
  predicate HasMojibake(s: string)
  {
    exists i :: 0 <= i < |s| - 1 && s[i] == ATilde && '\U{0080}' <= s[i + 1] <= '\U{00BF}'
  }

  /** fixUtf8Mojibake of lib/utf8-fix.ts. */
  function FixUtf8Mojibake(str: string, decode: Decoder): (r: string)
    ensures ReplaceDigraphs(str) != str ==> r == ReplaceDigraphs(str)
    ensures ReplaceDigraphs(str) == str && !HasMojibake(str) ==> r == str
    ensures ReplaceDigraphs(str) == str && HasMojibake(str) ==> r == decode(str).GetOr(str)
  {
    var s := ReplaceDigraphs(str);
    if s != str then s
    else if !HasMojibake(str) then str
    else match decode(str)
      case Some(d) => d
      case None => str
  }

  /** fixUtf8Mojibake of the ingestion scripts: only the general re-decoding. */
  function FixMojibakeLatin1(str: string, decode: Decoder): (r: string)
    ensures !HasMojibake(str) ==> r == str
    ensures HasMojibake(str) ==> r == decode(str).GetOr(str)
  {
    if !HasMojibake(str) then str
    else match decode(str)
      case Some(d) => d
      case None => str
  }

  /** A digraph Ã± / ÃA / ÃO / Ãa / Ão. */
  predicate DigraphAt(s: string, i: int)
  {
    0 <= i && i + 1 < |s| && s[i] == ATilde &&
    (s[i + 1] == '\U{00B1}' || s[i + 1] == 'A' || s[i + 1] == 'O' || s[i + 1] == 'a' || s[i + 1] == 'o')
  }

  /**
   * Text without any of the five digraphs and without an Ã before a
   * continuation character is returned unchanged, whatever the decoder does.
   */
  lemma CleanTextUnchanged(str: string, decode: Decoder)
    requires forall i :: !DigraphAt(str, i)
    requires !HasMojibake(str)
    ensures FixUtf8Mojibake(str, decode) == str
  {
    var s1 := ReplaceAll(str, ATilde, '\U{00B1}', '\U{00F1}');
    forall i ensures !PairAt(str, i, ATilde, '\U{00B1}') { assert !DigraphAt(str, i); }
    ReplaceAllUnchanged(str, ATilde, '\U{00B1}', '\U{00F1}');
    forall i ensures !PairAt(str, i, ATilde, 'A') { assert !DigraphAt(str, i); }
    ReplaceAllUnchanged(str, ATilde, 'A', '\U{00D1}');
    forall i ensures !PairAt(str, i, ATilde, 'O') { assert !DigraphAt(str, i); }
    ReplaceAllUnchanged(str, ATilde, 'O', '\U{00D1}');
    forall i ensures !PairAt(str, i, ATilde, 'a') { assert !DigraphAt(str, i); }
    ReplaceAllUnchanged(str, ATilde, 'a', '\U{00F1}');
    forall i ensures !PairAt(str, i, ATilde, 'o') { assert !DigraphAt(str, i); }
    ReplaceAllUnchanged(str, ATilde, 'o', '\U{00F1}');
  }

  /**
   * The replacements of ÃA and ÃO consume the letter after Ã: "PEÃA" becomes
   * "PEÑ" and "MUÃOZ" becomes "MUÑZ", not "PEÑA" and "MUÑOZ".
   */
  lemma DigraphConsumesLetter(p: string, q: string, decode: Decoder)
    requires forall k :: 0 <= k < |p| ==> 'A' <= p[k] <= 'Z'
    requires forall k :: 0 <= k < |q| ==> 'A' <= q[k] <= 'Z'
    ensures FixUtf8Mojibake(p + [ATilde, 'A'] + q, decode) == p + ['\U{00D1}'] + q
    ensures FixUtf8Mojibake(p + [ATilde, 'O'] + q, decode) == p + ['\U{00D1}'] + q
  {
    DigraphOnce(p, q, 'A');
    DigraphOnce(p, q, 'O');
  }

  lemma DigraphOnce(p: string, q: string, x: char)
    requires x == 'A' || x == 'O'
    requires forall k :: 0 <= k < |p| ==> 'A' <= p[k] <= 'Z'
    requires forall k :: 0 <= k < |q| ==> 'A' <= q[k] <= 'Z'
    ensures ReplaceDigraphs(p + [ATilde, x] + q) == p + ['\U{00D1}'] + q
  {
    var s := p + [ATilde, x] + q;
    var t := p + ['\U{00D1}'] + q;
    forall i ensures !PairAt(s, i, ATilde, '\U{00B1}') && !PairAt(t, i, ATilde, 'a') && !PairAt(t, i, ATilde, 'o') {
      if 0 <= i < |p| { assert s[i] == p[i] && t[i] == p[i]; }
      else if i == |p| { assert t[i] != ATilde; }
      else if i > |p| + 1 && i + 1 < |s| { assert s[i] == q[i - |p| - 2]; }
      if |p| < i < |t| { assert t[i] == q[i - |p| - 1]; }
    }
    ReplaceAllUnchanged(s, ATilde, '\U{00B1}', '\U{00F1}');
    ReplaceAllUnchanged(t, ATilde, 'a', '\U{00F1}');
    ReplaceAllUnchanged(t, ATilde, 'o', '\U{00F1}');
    ReplaceOnce(p, q, x);
    if x == 'A' {
      forall i ensures !PairAt(t, i, ATilde, 'O') {
        if 0 <= i < |t| { ConcatAt(p, ['\U{00D1}'], q, i); }
        if 0 <= i + 1 < |t| { ConcatAt(p, ['\U{00D1}'], q, i + 1); }
      }
      ReplaceAllUnchanged(t, ATilde, 'O', '\U{00D1}');
    } else {
      forall i ensures !PairAt(s, i, ATilde, 'A') {
        if 0 <= i < |s| { ConcatAt(p, [ATilde, x], q, i); }
        if 0 <= i + 1 < |s| { ConcatAt(p, [ATilde, x], q, i + 1); }
      }
      ReplaceAllUnchanged(s, ATilde, 'A', '\U{00D1}');
    }
  }

  /** Scanning p ++ "Ã" x ++ q, with only capitals in p and q, replaces exactly that one digraph. */
  lemma {:induction false} ReplaceOnce(p: string, q: string, x: char)
    requires x == 'A' || x == 'O'
    requires forall k :: 0 <= k < |p| ==> 'A' <= p[k] <= 'Z'
    requires forall k :: 0 <= k < |q| ==> 'A' <= q[k] <= 'Z'
    ensures ReplaceAll(p + [ATilde, x] + q, ATilde, x, '\U{00D1}') == p + ['\U{00D1}'] + q
  {
    var s := p + [ATilde, x] + q;
    if p == [] {
      assert s[2..] == q;
      forall i ensures !PairAt(q, i, ATilde, x) {
        if 0 <= i < |q| { assert 'A' <= q[i] <= 'Z'; }
      }
      ReplaceAllUnchanged(q, ATilde, x, '\U{00D1}');
    } else {
      ReplaceOnce(p[1..], q, x);
      assert s[1..] == p[1..] + [ATilde, x] + q;
      assert s[0] == p[0] && s[0] != ATilde;
      assert p + ['\U{00D1}'] + q == [p[0]] + (p[1..] + ['\U{00D1}'] + q);
    }
  }

  /**
   * fixObjectStrings as a value: strings are repaired, arrays mapped element
   * by element, object values repaired under their keys, other values kept.
   */
  function FixJson(j: Json, decode: Decoder): (r: Json)
    decreases j
  {
    match j
    case JStr(s) => JStr(FixUtf8Mojibake(s, decode))
    case JArr(items) => JArr(seq(|items|, i requires 0 <= i < |items| => FixJson(items[i], decode)))
    case JObj(entries) =>
      JObj(seq(|entries|, i requires 0 <= i < |entries| => (entries[i].0, FixJson(entries[i].1, decode))))
    case _ => j
  }

  /** fixObjectStrings: recursive, copying object entries into a fresh object one key at a time. */
  method FixObjectStrings(j: Json, decode: Decoder) returns (r: Json)
    ensures r == FixJson(j, decode)
    decreases j
  {
    match j {
      case JStr(s) =>
        r := JStr(FixUtf8Mojibake(s, decode));
      case JArr(items) =>
        var out: seq<Json> := [];
        for i := 0 to |items|
          invariant |out| == i
          invariant forall k :: 0 <= k < i ==> out[k] == FixJson(items[k], decode)
        {
          var v := FixObjectStrings(items[i], decode);
          out := out + [v];
        }
        r := JArr(out);
      case JObj(entries) =>
        var out: seq<(string, Json)> := [];
        for i := 0 to |entries|
          invariant |out| == i
          invariant forall k :: 0 <= k < i ==> out[k] == (entries[k].0, FixJson(entries[k].1, decode))
        {
          var v := FixObjectStrings(entries[i].1, decode);
          out := out + [(entries[i].0, v)];
        }
        r := JObj(out);
      case _ =>
        r := j;
    }
  }

  /**
   * The repair keeps the shape of a value: the same kind, arrays of the same
   * length, objects with the same keys in the same order, and null, booleans
   * and numbers untouched.
   */
  lemma FixJsonShape(j: Json, decode: Decoder)
    ensures j.JStr? <==> FixJson(j, decode).JStr?
    ensures j.JArr? ==> FixJson(j, decode).JArr? && |FixJson(j, decode).items| == |j.items|
    ensures j.JObj? ==> FixJson(j, decode).JObj? && |FixJson(j, decode).entries| == |j.entries|
    ensures j.JObj? ==> forall i :: 0 <= i < |j.entries| ==> FixJson(j, decode).entries[i].0 == j.entries[i].0
    ensures j.JNull? || j.JBool? || j.JNum? ==> FixJson(j, decode) == j
  {
  }

  /** With a decoder that never changes anything, repairing a value with no digraphs is the identity. */
  lemma {:induction false} FixJsonIdentity(j: Json, decode: Decoder)
    requires forall s :: decode(s) == Some(s) || decode(s) == None
    requires NoDigraphs(j)
    ensures FixJson(j, decode) == j
    decreases j
  {
    match j
    case JStr(s) =>
      CleanOrDecoded(s, decode);
    case JArr(items) =>
      forall i | 0 <= i < |items| ensures FixJson(items[i], decode) == items[i] {
        FixJsonIdentity(items[i], decode);
      }
      assert FixJson(j, decode).items == items;
    case JObj(entries) =>
      forall i | 0 <= i < |entries| ensures FixJson(entries[i].1, decode) == entries[i].1 {
        FixJsonIdentity(entries[i].1, decode);
      }
      assert FixJson(j, decode).entries == entries;
    case _ =>
  }

  /** Every string inside the value is free of the five digraphs. */
  ghost predicate NoDigraphs(j: Json)
    decreases j
  {
    match j
    case JStr(s) => forall i :: !DigraphAt(s, i)
    case JArr(items) => forall i :: 0 <= i < |items| ==> NoDigraphs(items[i])
    case JObj(entries) => forall i :: 0 <= i < |entries| ==> NoDigraphs(entries[i].1)
    case _ => true
  }

  lemma CleanOrDecoded(s: string, decode: Decoder)
    requires forall x :: decode(x) == Some(x) || decode(x) == None
    requires forall i :: !DigraphAt(s, i)
    ensures FixUtf8Mojibake(s, decode) == s
  {
    if HasMojibake(s) {
      DigraphsUnchanged(s);
    } else {
      CleanTextUnchanged(s, decode);
    }
  }

  lemma DigraphsUnchanged(s: string)
    requires forall i :: !DigraphAt(s, i)
    ensures ReplaceDigraphs(s) == s
  {
    forall i ensures !PairAt(s, i, ATilde, '\U{00B1}') && !PairAt(s, i, ATilde, 'A') && !PairAt(s, i, ATilde, 'O')
      && !PairAt(s, i, ATilde, 'a') && !PairAt(s, i, ATilde, 'o') {
      assert !DigraphAt(s, i);
    }
    ReplaceAllUnchanged(s, ATilde, '\U{00B1}', '\U{00F1}');
    ReplaceAllUnchanged(s, ATilde, 'A', '\U{00D1}');
    ReplaceAllUnchanged(s, ATilde, 'O', '\U{00D1}');
    ReplaceAllUnchanged(s, ATilde, 'a', '\U{00F1}');
    ReplaceAllUnchanged(s, ATilde, 'o', '\U{00F1}');
  }
}
