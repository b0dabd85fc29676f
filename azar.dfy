// The random password generators of the credential scripts
// (randomPassword in scripts/sync-auth-escuelas.mjs, randomSimple in
// scripts/generate-auth-simple.mjs). Math.random is an oracle: the run's
// successive draws are a stream `azar`, draw number p being the value
// azar(p) / 2^53 in [0, 1).

module Azar {
  import opened JsString

  const Dos53: nat := 0x20_0000_0000_0000

  /** One Math.random() value, as its numerator over 2^53. */
  type Sorteo = u: nat | u < Dos53

  /** The run's draws, in the order they are made. */
  type Flujo = nat -> Sorteo

  /** `Math.floor(Math.random() * n)` for the draw u. */
  function Indice(u: Sorteo, n: nat): (i: nat)
    requires n > 0
    ensures i < n
  {
    u * n / Dos53
  }

  /** The string `length` draws from position `pos` build over `chars`. */
  function Aleatoria(chars: string, length: nat, azar: Flujo, pos: nat): (s: string)
    requires |chars| > 0
    ensures |s| == length
    ensures Over(s, chars)
  {
    if length == 0 then []
    else
      var s := Aleatoria(chars, length - 1, azar, pos) + [chars[Indice(azar(pos + length - 1), |chars|)]];
      assert s[length - 1] in chars;
      s
  }

  /**
   * The generator loop: `s += chars[Math.floor(Math.random() * chars.length)]`
   * `length` times, drawing from position `pos` on.
   */
  method Generar(chars: string, length: nat, azar: Flujo, pos: nat) returns (s: string)
    requires |chars| > 0
    ensures s == Aleatoria(chars, length, azar, pos)
  {
    s := "";
    var i := 0;
    while i < length
      invariant 0 <= i <= length
      invariant s == Aleatoria(chars, i, azar, pos)
    {
      s := s + [chars[Indice(azar(pos + i), |chars|)]];
      i := i + 1;
    }
  }

  /** Character k of the string is the one draw pos + k picks. */
  lemma {:induction false} CadenaDeterminada(chars: string, length: nat, azar: Flujo, pos: nat, k: nat)
    requires |chars| > 0
    requires k < length
    ensures Aleatoria(chars, length, azar, pos)[k] == chars[Indice(azar(pos + k), |chars|)]
  {
    if k < length - 1 {
      CadenaDeterminada(chars, length - 1, azar, pos, k);
    }
  }
}
