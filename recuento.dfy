// The tallies shared by the two roster-merge scripts: each roster student is
// looked up in a result map; a matched student is counted in one of three
// tiers and in every item's denominator, and in an item's numerator when its
// answer is exactly "C"; an unmatched student is counted nowhere.

module Recuento {
  import opened Base
  import opened RafTypes
  import opened Score
  import opened ParseExcel

  /**
   * The exam outcome stored per student key: the percentage in tenths (null
   * when the source record has none), the tier and the shown answers.
   */
  datatype Resultado = Resultado(porcentaje: Option<int>, nivel: Nivel, respuestas: seq<string>)

  /** A student-key function: cct, group, first name and last name to the key of the result map. */
  type ClaveFn = (string, Option<string>, Option<string>, Option<string>) -> string

  /** Matched students. */
  function Emparejados(ms: seq<Option<Resultado>>): nat
  {
    if ms == [] then 0
    else Emparejados(ms[..|ms| - 1]) + (if ms[|ms| - 1].Some? then 1 else 0)
  }

  /** Unmatched students. */
  function SinEmparejar(ms: seq<Option<Resultado>>): nat
  {
    if ms == [] then 0
    else SinEmparejar(ms[..|ms| - 1]) + (if ms[|ms| - 1].None? then 1 else 0)
  }

  /** Matched students whose tier is tallied as n. */
  function EnTramo(ms: seq<Option<Resultado>>, n: Nivel): nat
  {
    if ms == [] then 0
    else
      var m := ms[|ms| - 1];
      EnTramo(ms[..|ms| - 1], n) + (if m.Some? && Tramo(m.value.nivel) == n then 1 else 0)
  }

  /** Answer i (0-based) is exactly "C". */
  predicate EsC(respuestas: seq<string>, i: nat)
  {
    i < |respuestas| && respuestas[i] == "C"
  }

  /** Matched students whose answer i is "C". */
  function AciertosItem(ms: seq<Option<Resultado>>, i: nat): nat
  {
    if ms == [] then 0
    else
      var m := ms[|ms| - 1];
      AciertosItem(ms[..|ms| - 1], i) + (if m.Some? && EsC(m.value.respuestas, i) then 1 else 0)
  }

  function AciertosPorItem(ms: seq<Option<Resultado>>): (r: seq<nat>)
    ensures |r| == NumReactivos
  {
    seq(NumReactivos, i requires 0 <= i < NumReactivos => AciertosItem(ms, i))
  }

  function Repetir(n: nat): (r: seq<nat>)
    ensures |r| == NumReactivos && forall i :: 0 <= i < NumReactivos ==> r[i] == n
  {
    seq(NumReactivos, _ => n)
  }

  /**
   * The item loop for one matched student: every item counts in the group's and
   * the school's denominators, and an exact "C" in their numerators.
   */
  method SumarRespuestas(respuestas: seq<string>, acG: array<nat>, totG: array<nat>, acEsc: array<nat>, totEsc: array<nat>)
    requires acG.Length == NumReactivos && totG.Length == NumReactivos
    requires acEsc.Length == NumReactivos && totEsc.Length == NumReactivos
    requires acG != totG && acG != acEsc && acG != totEsc && totG != acEsc && totG != totEsc && acEsc != totEsc
    modifies acG, totG, acEsc, totEsc
    ensures forall i :: 0 <= i < NumReactivos ==>
              acG[i] == old(acG[i]) + (if EsC(respuestas, i) then 1 else 0) && totG[i] == old(totG[i]) + 1 &&
              acEsc[i] == old(acEsc[i]) + (if EsC(respuestas, i) then 1 else 0) && totEsc[i] == old(totEsc[i]) + 1
  {
    for i := 0 to NumReactivos
      invariant forall j :: 0 <= j < i ==>
                  acG[j] == old(acG[j]) + (if EsC(respuestas, j) then 1 else 0) && totG[j] == old(totG[j]) + 1 &&
                  acEsc[j] == old(acEsc[j]) + (if EsC(respuestas, j) then 1 else 0) && totEsc[j] == old(totEsc[j]) + 1
      invariant forall j :: i <= j < NumReactivos ==>
                  acG[j] == old(acG[j]) && totG[j] == old(totG[j]) && acEsc[j] == old(acEsc[j]) && totEsc[j] == old(totEsc[j])
    {
      if i < |respuestas| && respuestas[i] == "C" {
        acG[i] := acG[i] + 1;
        acEsc[i] := acEsc[i] + 1;
      }
      totG[i] := totG[i] + 1;
      totEsc[i] := totEsc[i] + 1;
    }
  }

  /** `if (mat)`: a matched student's tier tally and item counts; nothing for an unmatched one. */
  method ContarResultado(m: Option<Resultado>, req0: nat, des0: nat, esp0: nat,
                         acG: array<nat>, totG: array<nat>, acEsc: array<nat>, totEsc: array<nat>)
    returns (req: nat, des: nat, esp: nat)
    requires acG.Length == NumReactivos && totG.Length == NumReactivos
    requires acEsc.Length == NumReactivos && totEsc.Length == NumReactivos
    requires acG != totG && acG != acEsc && acG != totEsc && totG != acEsc && totG != totEsc && acEsc != totEsc
    modifies acG, totG, acEsc, totEsc
    ensures req == req0 + (if m.Some? && Tramo(m.value.nivel) == RequiereApoyo then 1 else 0)
    ensures des == des0 + (if m.Some? && Tramo(m.value.nivel) == EnDesarrollo then 1 else 0)
    ensures esp == esp0 + (if m.Some? && Tramo(m.value.nivel) == Esperado then 1 else 0)
    ensures forall i :: 0 <= i < NumReactivos ==>
              acG[i] == old(acG[i]) + (if m.Some? && EsC(m.value.respuestas, i) then 1 else 0) &&
              totG[i] == old(totG[i]) + (if m.Some? then 1 else 0) &&
              acEsc[i] == old(acEsc[i]) + (if m.Some? && EsC(m.value.respuestas, i) then 1 else 0) &&
              totEsc[i] == old(totEsc[i]) + (if m.Some? then 1 else 0)
  {
    req, des, esp := req0, des0, esp0;
    if m.Some? {
      var nivel := m.value.nivel;
      if nivel == RequiereApoyo {
        req := req + 1;
      } else if nivel == EnDesarrollo {
        des := des + 1;
      } else {
        esp := esp + 1;
      }
      SumarRespuestas(m.value.respuestas, acG, totG, acEsc, totEsc);
    }
  }

  lemma {:induction false} TramosSuman(ms: seq<Option<Resultado>>)
    ensures EnTramo(ms, RequiereApoyo) + EnTramo(ms, EnDesarrollo) + EnTramo(ms, Esperado) == Emparejados(ms) <= |ms|
  {
    if ms != [] {
      TramosSuman(ms[..|ms| - 1]);
    }
  }

  lemma {:induction false} AciertosBelowEmparejados(ms: seq<Option<Resultado>>, i: nat)
    ensures AciertosItem(ms, i) <= Emparejados(ms)
  {
    if ms != [] {
      AciertosBelowEmparejados(ms[..|ms| - 1], i);
    }
  }

  /** One more student in the group loop: the figures of the first k + 1 lookups. */
  lemma PasoEmparejado(ms: seq<Option<Resultado>>, k: nat)
    requires k < |ms|
    ensures Emparejados(ms[..k + 1]) == Emparejados(ms[..k]) + (if ms[k].Some? then 1 else 0)
    ensures forall n :: EnTramo(ms[..k + 1], n) ==
              EnTramo(ms[..k], n) + (if ms[k].Some? && Tramo(ms[k].value.nivel) == n then 1 else 0)
    ensures forall i :: AciertosItem(ms[..k + 1], i) ==
              AciertosItem(ms[..k], i) + (if ms[k].Some? && EsC(ms[k].value.respuestas, i) then 1 else 0)
    ensures SinEmparejar(ms[..k + 1]) == SinEmparejar(ms[..k]) + (if ms[k].None? then 1 else 0)
  {
    TakeTake(ms, k);
  }

  /** Every looked-up student is either matched or unmatched. */
  lemma {:induction false} EmparejadosMasSin(ms: seq<Option<Resultado>>)
    ensures Emparejados(ms) + SinEmparejar(ms) == |ms|
  {
    if ms != [] {
      EmparejadosMasSin(ms[..|ms| - 1]);
    }
  }

  /** Lookups that all found a record leave nobody unmatched. */
  lemma {:induction false} TodosEmparejados(ms: seq<Option<Resultado>>)
    requires forall j :: 0 <= j < |ms| ==> ms[j].Some?
    ensures SinEmparejar(ms) == 0 && Emparejados(ms) == |ms|
  {
    if ms != [] {
      TodosEmparejados(ms[..|ms| - 1]);
    }
  }

  /**
   * Lookups that all found a record stored as SIN EXAMEN: every student is
   * matched and tallied as esperado, and no answer counts as correct.
   */
  lemma {:induction false} TodosSinExamen(ms: seq<Option<Resultado>>)
    requires forall j :: 0 <= j < |ms| ==> ms[j].Some? && ms[j].value.nivel == SinExamen && ms[j].value.respuestas == []
    ensures Emparejados(ms) == EnTramo(ms, Esperado) == |ms| && SinEmparejar(ms) == 0
    ensures EnTramo(ms, RequiereApoyo) == 0 && EnTramo(ms, EnDesarrollo) == 0
    ensures forall i :: AciertosItem(ms, i) == 0
  {
    if ms != [] {
      TodosSinExamen(ms[..|ms| - 1]);
    }
  }

  /**
   * Item rates over matched students lie in [0, 100.0], and are all 0 when
   * nobody matched.
   */
  lemma TasasEmparejados(ms: seq<Option<Resultado>>)
    ensures var t := TasasDe(AciertosPorItem(ms), Repetir(Emparejados(ms)));
      |t| == NumReactivos &&
      (forall i :: 0 <= i < NumReactivos ==> 0 <= t[i] <= 1000) &&
      (Emparejados(ms) == 0 ==> forall i :: 0 <= i < NumReactivos ==> t[i] == 0)
  {
    var t := TasasDe(AciertosPorItem(ms), Repetir(Emparejados(ms)));
    forall i | 0 <= i < NumReactivos ensures t[i] <= 1000 {
      AciertosBelowEmparejados(ms, i);
      TenthsRange(AciertosItem(ms, i), Emparejados(ms));
    }
  }
}
