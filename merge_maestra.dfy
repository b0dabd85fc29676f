// scripts/merge-maestra-lenguaje.mjs: the roster of the language project (the
// "maestra") is merged with the mathematics result tree. Every mathematics
// student is stored under its key; every roster student is looked up, and one
// without a record is listed as SIN EXAMEN. Files and JSON are left out: both
// trees are inputs.

module MergeMaestra {
  import opened Base
  import opened JsString
  import opened RafTypes
  import opened ParseExcel
  import opened Recuento

  /**
   * keyAlumno: cct, the trimmed group label (not normalised), and the
   * upper-cased trimmed names, joined by "|".
   */
  function ClaveMaestra(cct: string, grupo: Option<string>, nombre: Option<string>, apellido: Option<string>): string
  {
    cct + "|" + Trim(grupo.GetOr("")) + "|" + Trim(Upper(nombre.GetOr(""))) + "|" + Trim(Upper(apellido.GetOr("")))
  }

  /**
   * The group part of the key is the trimmed label verbatim: two labels give
   * the same key exactly when they trim to the same text, so "1am" and "1AM"
   * are different students here.
   */
  lemma ClaveMaestraGrupo(cct: string, g1: string, g2: string, nombre: Option<string>, apellido: Option<string>)
    ensures ClaveMaestra(cct, Some(g1), nombre, apellido) == ClaveMaestra(cct, Some(g2), nombre, apellido)
            <==> Trim(g1) == Trim(g2)
  {
    var t1, t2 := Trim(g1), Trim(g2);
    var n, a := Trim(Upper(nombre.GetOr(""))), Trim(Upper(apellido.GetOr("")));
    assert ClaveMaestra(cct, Some(g1), nombre, apellido) == cct + "|" + t1 + "|" + n + "|" + a;
    assert ClaveMaestra(cct, Some(g2), nombre, apellido) == cct + "|" + t2 + "|" + n + "|" + a;
    JoinMiddle(cct, t1, t2, n, a);
  }

  /** Four fields joined by "|" that differ only in the second: equal joins, equal fields. */
  lemma JoinMiddle(c: string, x: string, y: string, n: string, a: string)
    ensures c + "|" + x + "|" + n + "|" + a == c + "|" + y + "|" + n + "|" + a <==> x == y
  {
    var p := c + "|";
    var q := "|" + n + "|" + a;
    assert c + "|" + x + "|" + n + "|" + a == p + x + q;
    assert c + "|" + y + "|" + n + "|" + a == p + y + q;
    if |x| == |y| {
      MiddleDiffers(p, x, y, q);
    } else {
      assert |p + x + q| != |p + y + q|;
    }
  }

  /** The name parts upper-case then trim; trimming first would give the same text. */
  lemma ClaveMaestraNombres(cct: string, grupo: Option<string>, nombre: string, apellido: string)
    ensures ClaveMaestra(cct, grupo, Some(nombre), Some(apellido)) ==
            cct + "|" + Trim(grupo.GetOr("")) + "|" + Upper(Trim(nombre)) + "|" + Upper(Trim(apellido))
  {
    TrimUpper(nombre);
    TrimUpper(apellido);
  }

  // ---- mapMat ----

  /** The key of a student of school `cct`, built from the student's own group field. */
  function ClaveDe(clave: ClaveFn, cct: string, al: Alumno): string
  {
    clave(cct, Some(al.grupo), Some(al.nombre), Some(al.apellido))
  }

  /** The mapMat.set performed for one mathematics student. */
  function EntradaAlumno(clave: ClaveFn, cct: string, al: Alumno): (string, Resultado)
  {
    (ClaveDe(clave, cct, al), Resultado(al.porcentaje, al.nivel, al.respuestas))
  }

  function EntradasAlumnos(clave: ClaveFn, cct: string, alus: seq<Alumno>): (es: seq<(string, Resultado)>)
    ensures |es| == |alus|
    ensures forall j :: 0 <= j < |alus| ==> es[j] == EntradaAlumno(clave, cct, alus[j])
  {
    seq(|alus|, j requires 0 <= j < |alus| => EntradaAlumno(clave, cct, alus[j]))
  }

  function EntradasGrupos(clave: ClaveFn, cct: string, grupos: seq<Grupo>): seq<(string, Resultado)>
  {
    if grupos == [] then []
    else EntradasGrupos(clave, cct, grupos[..|grupos| - 1]) + EntradasAlumnos(clave, cct, grupos[|grupos| - 1].alumnos)
  }

  /** Every mapMat.set, in school, group and student order. */
  function EntradasEscuelas(clave: ClaveFn, escuelas: seq<Escuela>): seq<(string, Resultado)>
  {
    if escuelas == [] then []
    else
      var e := escuelas[|escuelas| - 1];
      EntradasEscuelas(clave, escuelas[..|escuelas| - 1]) + EntradasGrupos(clave, e.cct, e.grupos)
  }

  /** The student loop of one mathematics group. */
  method AgregarAlumnos(m0: map<string, Resultado>, ghost antes: seq<(string, Resultado)>, clave: ClaveFn, cct: string, alus: seq<Alumno>)
    returns (m: map<string, Resultado>)
    requires m0 == SetAll(antes)
    ensures m == SetAll(antes + EntradasAlumnos(clave, cct, alus))
  {
    m := m0;
    ghost var nuevas := EntradasAlumnos(clave, cct, alus);
    ghost var hechas := antes;
    assert nuevas[..0] == [];
    for j := 0 to |alus|
      invariant hechas == antes + nuevas[..j]
      invariant m == SetAll(hechas)
    {
      var al := alus[j];
      var k := clave(cct, Some(al.grupo), Some(al.nombre), Some(al.apellido));
      var r := Resultado(al.porcentaje, al.nivel, al.respuestas);
      assert nuevas[j] == (k, r);
      SetAllSnoc(hechas, (k, r));
      AppendTake(antes, nuevas, j);
      hechas := hechas + [(k, r)];
      m := m[k := r];
    }
    assert nuevas[..|alus|] == nuevas;
  }

  /** The group loop of one mathematics school. */
  method AgregarGrupos(m0: map<string, Resultado>, ghost antes: seq<(string, Resultado)>, clave: ClaveFn, cct: string, grupos: seq<Grupo>)
    returns (m: map<string, Resultado>)
    requires m0 == SetAll(antes)
    ensures m == SetAll(antes + EntradasGrupos(clave, cct, grupos))
  {
    m := m0;
    assert grupos[..0] == [];
    assert antes + EntradasGrupos(clave, cct, grupos[..0]) == antes;
    for g := 0 to |grupos|
      invariant m == SetAll(antes + EntradasGrupos(clave, cct, grupos[..g]))
    {
      TakeTake(grupos, g);
      ghost var previas := EntradasGrupos(clave, cct, grupos[..g]);
      ghost var nuevas := EntradasAlumnos(clave, cct, grupos[g].alumnos);
      assert EntradasGrupos(clave, cct, grupos[..g + 1]) == previas + nuevas;
      Asociar(antes, previas, nuevas);
      m := AgregarAlumnos(m, antes + previas, clave, cct, grupos[g].alumnos);
    }
    assert grupos[..|grupos|] == grupos;
  }

  /** mapMat: every mathematics student set in order, so a repeated key keeps its later student. */
  method ConstruirMapa(clave: ClaveFn, escuelas: seq<Escuela>) returns (m: map<string, Resultado>)
    ensures m == SetAll(EntradasEscuelas(clave, escuelas))
  {
    m := map[];
    assert escuelas[..0] == [];
    for s := 0 to |escuelas|
      invariant m == SetAll(EntradasEscuelas(clave, escuelas[..s]))
    {
      TakeTake(escuelas, s);
      ghost var previas := EntradasEscuelas(clave, escuelas[..s]);
      assert EntradasEscuelas(clave, escuelas[..s + 1]) == previas + EntradasGrupos(clave, escuelas[s].cct, escuelas[s].grupos);
      m := AgregarGrupos(m, previas, clave, escuelas[s].cct, escuelas[s].grupos);
    }
    assert escuelas[..|escuelas|] == escuelas;
  }

  // ---- The merge into the roster ----

  /** mapMat.get for a roster student of school `cct`. */
  function Emparejar(mat: map<string, Resultado>, clave: ClaveFn, cct: string, al: Alumno): Option<Resultado>
  {
    var k := ClaveDe(clave, cct, al);
    if k in mat then Some(mat[k]) else None
  }

  function Busquedas(mat: map<string, Resultado>, clave: ClaveFn, cct: string, alus: seq<Alumno>): (ms: seq<Option<Resultado>>)
    ensures |ms| == |alus|
    ensures forall j :: 0 <= j < |alus| ==> ms[j] == Emparejar(mat, clave, cct, alus[j])
  {
    seq(|alus|, j requires 0 <= j < |alus| => Emparejar(mat, clave, cct, alus[j]))
  }

  /** respuestas.slice(0, 12). */
  function Primeras(rs: seq<string>): (r: seq<string>)
    ensures |r| <= NumReactivos && |r| <= |rs| && r == rs[..|r|]
    ensures |rs| <= NumReactivos ==> r == rs
    ensures |rs| >= NumReactivos ==> |r| == NumReactivos
  {
    if |rs| <= NumReactivos then rs else rs[..NumReactivos]
  }

  /** The merged student: roster names and group field, with the exam outcome or SIN EXAMEN. */
  function AlumnoMaestro(al: Alumno, m: Option<Resultado>): Alumno
  {
    Alumno(
      al.nombre,
      al.apellido,
      al.grupo,
      if m.Some? then m.value.porcentaje else None,
      if m.Some? then m.value.nivel else SinExamen,
      if m.Some? then Primeras(m.value.respuestas) else [])
  }

  /**
   * A merged student keeps the roster's names and group field; a matched one
   * copies the percentage and the tier and keeps at most the first twelve
   * answers, an unmatched one has no percentage, SIN EXAMEN and no answers.
   */
  lemma AlumnoMaestroCorrecto(al: Alumno, m: Option<Resultado>)
    ensures var a := AlumnoMaestro(al, m);
      a.nombre == al.nombre && a.apellido == al.apellido && a.grupo == al.grupo &&
      (m.None? ==> a.porcentaje.None? && a.nivel == SinExamen && a.respuestas == []) &&
      (m.Some? ==> a.porcentaje == m.value.porcentaje && a.nivel == m.value.nivel &&
                   |a.respuestas| == (if |m.value.respuestas| <= NumReactivos then |m.value.respuestas| else NumReactivos) &&
                   a.respuestas == m.value.respuestas[..|a.respuestas|])
  {
  }

  function AlumnosMaestros(alus: seq<Alumno>, ms: seq<Option<Resultado>>): (r: seq<Alumno>)
    requires |ms| == |alus|
    ensures |r| == |alus|
    ensures forall j :: 0 <= j < |alus| ==> r[j] == AlumnoMaestro(alus[j], ms[j])
  {
    seq(|alus|, j requires 0 <= j < |alus| => AlumnoMaestro(alus[j], ms[j]))
  }

  /** A roster group merged against the lookups of its students. */
  function GrupoDe(grp: Grupo, ms: seq<Option<Resultado>>): Grupo
    requires |ms| == |grp.alumnos|
  {
    Grupo(
      grp.nombre,
      AlumnosMaestros(grp.alumnos, ms),
      TasasDe(AciertosPorItem(ms), Repetir(Emparejados(ms))),
      EnTramo(ms, RequiereApoyo),
      EnTramo(ms, EnDesarrollo),
      EnTramo(ms, Esperado),
      |grp.alumnos|)
  }

  function GrupoMaestro(mat: map<string, Resultado>, clave: ClaveFn, cct: string, grp: Grupo): Grupo
  {
    GrupoDe(grp, Busquedas(mat, clave, cct, grp.alumnos))
  }

  function GruposMaestros(mat: map<string, Resultado>, clave: ClaveFn, cct: string, grupos: seq<Grupo>): (gs: seq<Grupo>)
    ensures |gs| == |grupos|
    ensures forall k :: 0 <= k < |grupos| ==> gs[k] == GrupoMaestro(mat, clave, cct, grupos[k])
  {
    MapearEn(grupos, MaestroCon(mat, clave, cct));
    Mapear(grupos, MaestroCon(mat, clave, cct))
  }

  /** The merge of one group of school `cct`. */
  function MaestroCon(mat: map<string, Resultado>, clave: ClaveFn, cct: string): Grupo -> Grupo
  {
    grp => GrupoMaestro(mat, clave, cct, grp)
  }

  /** Matched students over a school's groups. */
  function SumEmparejados(mat: map<string, Resultado>, clave: ClaveFn, cct: string, grupos: seq<Grupo>): nat
  {
    if grupos == [] then 0
    else SumEmparejados(mat, clave, cct, grupos[..|grupos| - 1]) + Emparejados(Busquedas(mat, clave, cct, grupos[|grupos| - 1].alumnos))
  }

  /** Unmatched students over a school's groups. */
  function SumSin(mat: map<string, Resultado>, clave: ClaveFn, cct: string, grupos: seq<Grupo>): nat
  {
    if grupos == [] then 0
    else SumSin(mat, clave, cct, grupos[..|grupos| - 1]) + SinEmparejar(Busquedas(mat, clave, cct, grupos[|grupos| - 1].alumnos))
  }

  function SumTramo(mat: map<string, Resultado>, clave: ClaveFn, cct: string, grupos: seq<Grupo>, n: Nivel): nat
  {
    if grupos == [] then 0
    else SumTramo(mat, clave, cct, grupos[..|grupos| - 1], n) + EnTramo(Busquedas(mat, clave, cct, grupos[|grupos| - 1].alumnos), n)
  }

  function SumAciertos(mat: map<string, Resultado>, clave: ClaveFn, cct: string, grupos: seq<Grupo>, i: nat): nat
  {
    if grupos == [] then 0
    else SumAciertos(mat, clave, cct, grupos[..|grupos| - 1], i) + AciertosItem(Busquedas(mat, clave, cct, grupos[|grupos| - 1].alumnos), i)
  }

  /**
   * The merged school: the roster's cct, totalEstudiantes and buscador, its
   * groups in roster order, and tallies and item rates over its matched students.
   */
  function EscuelaMaestra(mat: map<string, Resultado>, clave: ClaveFn, esc: Escuela): Escuela
  {
    var cct := esc.cct;
    Escuela(
      cct,
      esc.totalEstudiantes,
      TasasDe(seq(NumReactivos, i requires 0 <= i < NumReactivos => SumAciertos(mat, clave, cct, esc.grupos, i)),
              Repetir(SumEmparejados(mat, clave, cct, esc.grupos))),
      SumTramo(mat, clave, cct, esc.grupos, RequiereApoyo),
      SumTramo(mat, clave, cct, esc.grupos, EnDesarrollo),
      SumTramo(mat, clave, cct, esc.grupos, Esperado),
      GruposMaestros(mat, clave, cct, esc.grupos),
      esc.buscador)
  }

  /** The merged roster. */
  function Maestra(mat: map<string, Resultado>, clave: ClaveFn, escuelas: seq<Escuela>): (out: seq<Escuela>)
    ensures |out| == |escuelas|
    ensures forall s :: 0 <= s < |escuelas| ==> out[s] == EscuelaMaestra(mat, clave, escuelas[s])
  {
    MapearEn(escuelas, EscuelaCon(mat, clave));
    Mapear(escuelas, EscuelaCon(mat, clave))
  }

  /** The merge of one roster school. */
  function EscuelaCon(mat: map<string, Resultado>, clave: ClaveFn): Escuela -> Escuela
  {
    esc => EscuelaMaestra(mat, clave, esc)
  }

  /** totalConExamen over a roster. */
  function TotalCon(mat: map<string, Resultado>, clave: ClaveFn, escuelas: seq<Escuela>): nat
  {
    if escuelas == [] then 0
    else
      var e := escuelas[|escuelas| - 1];
      TotalCon(mat, clave, escuelas[..|escuelas| - 1]) + SumEmparejados(mat, clave, e.cct, e.grupos)
  }

  /** totalSinExamen over a roster. */
  function TotalSin(mat: map<string, Resultado>, clave: ClaveFn, escuelas: seq<Escuela>): nat
  {
    if escuelas == [] then 0
    else
      var e := escuelas[|escuelas| - 1];
      TotalSin(mat, clave, escuelas[..|escuelas| - 1]) + SumSin(mat, clave, e.cct, e.grupos)
  }

  /** Students listed over all schools of a roster. */
  function AlumnosEnEscuelas(escuelas: seq<Escuela>): nat
  {
    if escuelas == [] then 0
    else AlumnosEnEscuelas(escuelas[..|escuelas| - 1]) + AlumnosEn(escuelas[|escuelas| - 1].grupos)
  }

  // ---- The merge loops ----

  /** The student loop of one roster group, adding to the group's and the school's item counters. */
  method RecorrerAlumnos(mat: map<string, Resultado>, clave: ClaveFn, cct: string, grp: Grupo,
                         acG: array<nat>, totG: array<nat>, acEsc: array<nat>, totEsc: array<nat>)
    returns (alumnosGrupo: seq<Alumno>, reqG: nat, desG: nat, espG: nat, con: nat, sin: nat)
    requires acG.Length == NumReactivos && totG.Length == NumReactivos
    requires acEsc.Length == NumReactivos && totEsc.Length == NumReactivos
    requires acG != totG && acG != acEsc && acG != totEsc && totG != acEsc && totG != totEsc && acEsc != totEsc
    modifies acG, totG, acEsc, totEsc
    ensures var ms := Busquedas(mat, clave, cct, grp.alumnos);
      alumnosGrupo == AlumnosMaestros(grp.alumnos, ms) &&
      reqG == EnTramo(ms, RequiereApoyo) && desG == EnTramo(ms, EnDesarrollo) && espG == EnTramo(ms, Esperado) &&
      con == Emparejados(ms) && sin == SinEmparejar(ms)
    ensures var ms := Busquedas(mat, clave, cct, grp.alumnos);
      forall i :: 0 <= i < NumReactivos ==>
        acG[i] == old(acG[i]) + AciertosItem(ms, i) && totG[i] == old(totG[i]) + Emparejados(ms) &&
        acEsc[i] == old(acEsc[i]) + AciertosItem(ms, i) && totEsc[i] == old(totEsc[i]) + Emparejados(ms)
  {
    var alus := grp.alumnos;
    ghost var ms := Busquedas(mat, clave, cct, alus);
    ghost var ac0, tot0, acE0, totE0 := acG[..], totG[..], acEsc[..], totEsc[..];
    alumnosGrupo := [];
    reqG, desG, espG, con, sin := 0, 0, 0, 0, 0;
    ghost var out := AlumnosMaestros(alus, ms);
    assert ms[..0] == [] && out[..0] == [];
    assert Emparejados(ms[..0]) == 0 && SinEmparejar(ms[..0]) == 0 && forall i :: AciertosItem(ms[..0], i) == 0;
    for k := 0 to |alus|
      invariant alumnosGrupo == out[..k]
      invariant forall i :: 0 <= i < NumReactivos ==>
                  acG[i] == ac0[i] + AciertosItem(ms[..k], i) && totG[i] == tot0[i] + Emparejados(ms[..k]) &&
                  acEsc[i] == acE0[i] + AciertosItem(ms[..k], i) && totEsc[i] == totE0[i] + Emparejados(ms[..k])
      invariant reqG == EnTramo(ms[..k], RequiereApoyo)
      invariant desG == EnTramo(ms[..k], EnDesarrollo)
      invariant espG == EnTramo(ms[..k], Esperado)
      invariant con == Emparejados(ms[..k]) && sin == SinEmparejar(ms[..k])
    {
      var al := alus[k];
      var key := clave(cct, Some(al.grupo), Some(al.nombre), Some(al.apellido));
      var m := if key in mat then Some(mat[key]) else None;
      assert m == ms[k];
      TakeSnoc(out, k);
      alumnosGrupo := alumnosGrupo + [AlumnoMaestro(al, m)];
      reqG, desG, espG, con, sin := ContarAlumno(m, ms, k, reqG, desG, espG, con, sin, acG, totG, acEsc, totEsc, ac0, tot0, acE0, totE0);
    }
    assert ms[..|alus|] == ms && out[..|alus|] == out;
  }

  /**
   * One student of the group loop: if matched, the matched count and its tier
   * and item counters grow, otherwise the unmatched count; the counters over
   * ms[..k] become the counters over ms[..k + 1].
   */
  method ContarAlumno(m: Option<Resultado>, ghost ms: seq<Option<Resultado>>, k: nat, req0: nat, des0: nat, esp0: nat, con0: nat, sin0: nat,
                      acG: array<nat>, totG: array<nat>, acEsc: array<nat>, totEsc: array<nat>,
                      ghost ac0: seq<nat>, ghost tot0: seq<nat>, ghost acE0: seq<nat>, ghost totE0: seq<nat>)
    returns (req: nat, des: nat, esp: nat, con: nat, sin: nat)
    requires k < |ms| && m == ms[k]
    requires acG.Length == NumReactivos && totG.Length == NumReactivos
    requires acEsc.Length == NumReactivos && totEsc.Length == NumReactivos
    requires acG != totG && acG != acEsc && acG != totEsc && totG != acEsc && totG != totEsc && acEsc != totEsc
    requires |ac0| == |tot0| == |acE0| == |totE0| == NumReactivos
    requires forall i :: 0 <= i < NumReactivos ==>
               acG[i] == ac0[i] + AciertosItem(ms[..k], i) && totG[i] == tot0[i] + Emparejados(ms[..k]) &&
               acEsc[i] == acE0[i] + AciertosItem(ms[..k], i) && totEsc[i] == totE0[i] + Emparejados(ms[..k])
    requires req0 == EnTramo(ms[..k], RequiereApoyo) && des0 == EnTramo(ms[..k], EnDesarrollo) && esp0 == EnTramo(ms[..k], Esperado)
    requires con0 == Emparejados(ms[..k]) && sin0 == SinEmparejar(ms[..k])
    modifies acG, totG, acEsc, totEsc
    ensures forall i :: 0 <= i < NumReactivos ==>
              acG[i] == ac0[i] + AciertosItem(ms[..k + 1], i) && totG[i] == tot0[i] + Emparejados(ms[..k + 1]) &&
              acEsc[i] == acE0[i] + AciertosItem(ms[..k + 1], i) && totEsc[i] == totE0[i] + Emparejados(ms[..k + 1])
    ensures req == EnTramo(ms[..k + 1], RequiereApoyo) && des == EnTramo(ms[..k + 1], EnDesarrollo) && esp == EnTramo(ms[..k + 1], Esperado)
    ensures con == Emparejados(ms[..k + 1]) && sin == SinEmparejar(ms[..k + 1])
  {
    PasoEmparejado(ms, k);
    con, sin := con0, sin0;
    if m.Some? {
      con := con + 1;
    } else {
      sin := sin + 1;
    }
    req, des, esp := ContarResultado(m, req0, des0, esp0, acG, totG, acEsc, totEsc);
  }

  /** One roster group of the merge: its student loop, then its item rates. */
  method MezclarGrupo(mat: map<string, Resultado>, clave: ClaveFn, cct: string, grp: Grupo, acEsc: array<nat>, totEsc: array<nat>)
    returns (g: Grupo, con: nat, sin: nat)
    requires acEsc.Length == NumReactivos && totEsc.Length == NumReactivos && acEsc != totEsc
    modifies acEsc, totEsc
    ensures g == GrupoMaestro(mat, clave, cct, grp)
    ensures con == Emparejados(Busquedas(mat, clave, cct, grp.alumnos))
    ensures sin == SinEmparejar(Busquedas(mat, clave, cct, grp.alumnos))
    ensures forall i :: 0 <= i < NumReactivos ==>
              acEsc[i] == old(acEsc[i]) + AciertosItem(Busquedas(mat, clave, cct, grp.alumnos), i) &&
              totEsc[i] == old(totEsc[i]) + Emparejados(Busquedas(mat, clave, cct, grp.alumnos))
  {
    var acG := new nat[NumReactivos](_ => 0);
    var totG := new nat[NumReactivos](_ => 0);
    var alumnosGrupo, reqG, desG, espG;
    alumnosGrupo, reqG, desG, espG, con, sin := RecorrerAlumnos(mat, clave, cct, grp, acG, totG, acEsc, totEsc);
    ghost var ms := Busquedas(mat, clave, cct, grp.alumnos);
    assert acG[..] == AciertosPorItem(ms);
    assert totG[..] == Repetir(Emparejados(ms));
    g := Grupo(grp.nombre, alumnosGrupo, TasasDe(acG[..], totG[..]), reqG, desG, espG, |alumnosGrupo|);
  }

  /** One more group in the school loop: the school sums over the first k + 1 groups. */
  lemma PasoEscuela(mat: map<string, Resultado>, clave: ClaveFn, cct: string, grupos: seq<Grupo>, k: nat)
    requires k < |grupos|
    ensures var g := GrupoMaestro(mat, clave, cct, grupos[k]);
      var ms := Busquedas(mat, clave, cct, grupos[k].alumnos);
      SumEmparejados(mat, clave, cct, grupos[..k + 1]) == SumEmparejados(mat, clave, cct, grupos[..k]) + Emparejados(ms) &&
      (forall i :: SumAciertos(mat, clave, cct, grupos[..k + 1], i) == SumAciertos(mat, clave, cct, grupos[..k], i) + AciertosItem(ms, i)) &&
      SumTramo(mat, clave, cct, grupos[..k + 1], RequiereApoyo) == SumTramo(mat, clave, cct, grupos[..k], RequiereApoyo) + g.requiereApoyo &&
      SumTramo(mat, clave, cct, grupos[..k + 1], EnDesarrollo) == SumTramo(mat, clave, cct, grupos[..k], EnDesarrollo) + g.enDesarrollo &&
      SumTramo(mat, clave, cct, grupos[..k + 1], Esperado) == SumTramo(mat, clave, cct, grupos[..k], Esperado) + g.esperado
  {
    TakeTake(grupos, k);
  }

  lemma PasoSin(mat: map<string, Resultado>, clave: ClaveFn, cct: string, grupos: seq<Grupo>, k: nat)
    requires k < |grupos|
    ensures SumSin(mat, clave, cct, grupos[..k + 1]) ==
            SumSin(mat, clave, cct, grupos[..k]) + SinEmparejar(Busquedas(mat, clave, cct, grupos[k].alumnos))
  {
    TakeTake(grupos, k);
  }

  /** The school counters req, des, esp and the school's share of totalConExamen and totalSinExamen. */
  datatype Cuentas = Cuentas(req: nat, des: nat, esp: nat, con: nat, sin: nat)

  /** The counters after the groups `grupos`. */
  function CuentasDe(mat: map<string, Resultado>, clave: ClaveFn, cct: string, grupos: seq<Grupo>): Cuentas
  {
    Cuentas(SumTramo(mat, clave, cct, grupos, RequiereApoyo), SumTramo(mat, clave, cct, grupos, EnDesarrollo),
            SumTramo(mat, clave, cct, grupos, Esperado), SumEmparejados(mat, clave, cct, grupos), SumSin(mat, clave, cct, grupos))
  }

  /** One iteration of the group loop: merge group k and add its figures to the school's. */
  method SumarGrupo(mat: map<string, Resultado>, clave: ClaveFn, cct: string, grupos: seq<Grupo>, k: nat,
                    acEsc: array<nat>, totEsc: array<nat>, c0: Cuentas)
    returns (g: Grupo, c: Cuentas)
    requires k < |grupos|
    requires acEsc.Length == NumReactivos && totEsc.Length == NumReactivos && acEsc != totEsc
    requires forall i :: 0 <= i < NumReactivos ==>
               acEsc[i] == SumAciertos(mat, clave, cct, grupos[..k], i) && totEsc[i] == SumEmparejados(mat, clave, cct, grupos[..k])
    requires c0 == CuentasDe(mat, clave, cct, grupos[..k])
    modifies acEsc, totEsc
    ensures g == GrupoMaestro(mat, clave, cct, grupos[k])
    ensures forall i :: 0 <= i < NumReactivos ==>
              acEsc[i] == SumAciertos(mat, clave, cct, grupos[..k + 1], i) && totEsc[i] == SumEmparejados(mat, clave, cct, grupos[..k + 1])
    ensures c == CuentasDe(mat, clave, cct, grupos[..k + 1])
  {
    PasoEscuela(mat, clave, cct, grupos, k);
    PasoSin(mat, clave, cct, grupos, k);
    var con, sin;
    g, con, sin := MezclarGrupo(mat, clave, cct, grupos[k], acEsc, totEsc);
    c := Cuentas(c0.req + g.requiereApoyo, c0.des + g.enDesarrollo, c0.esp + g.esperado, c0.con + con, c0.sin + sin);
  }

  /** The group loop of one roster school. */
  method MezclarEscuela(mat: map<string, Resultado>, clave: ClaveFn, esc: Escuela) returns (e: Escuela, con: nat, sin: nat)
    ensures e == EscuelaMaestra(mat, clave, esc)
    ensures con == SumEmparejados(mat, clave, esc.cct, esc.grupos)
    ensures sin == SumSin(mat, clave, esc.cct, esc.grupos)
  {
    var cct := esc.cct;
    ghost var f := MaestroCon(mat, clave, cct);
    var gruposResumen: seq<Grupo> := [];
    var cuentas := Cuentas(0, 0, 0, 0, 0);
    var acEsc := new nat[NumReactivos](_ => 0);
    var totEsc := new nat[NumReactivos](_ => 0);
    assert esc.grupos[..0] == [];
    for k := 0 to |esc.grupos|
      invariant gruposResumen == Mapear(esc.grupos[..k], f)
      invariant forall i :: 0 <= i < NumReactivos ==>
                  acEsc[i] == SumAciertos(mat, clave, cct, esc.grupos[..k], i) &&
                  totEsc[i] == SumEmparejados(mat, clave, cct, esc.grupos[..k])
      invariant cuentas == CuentasDe(mat, clave, cct, esc.grupos[..k])
    {
      MapearSnoc(esc.grupos, k, f);
      var g;
      g, cuentas := SumarGrupo(mat, clave, cct, esc.grupos, k, acEsc, totEsc, cuentas);
      assert g == f(esc.grupos[k]);
      gruposResumen := gruposResumen + [g];
    }
    assert esc.grupos[..|esc.grupos|] == esc.grupos;
    ArmarEscuela(mat, clave, esc, acEsc[..], totEsc[..]);
    e := Escuela(cct, esc.totalEstudiantes, TasasDe(acEsc[..], totEsc[..]), cuentas.req, cuentas.des, cuentas.esp,
                 gruposResumen, esc.buscador);
    con, sin := cuentas.con, cuentas.sin;
  }

  /** The school's item rates from counters that hold its per-item sums. */
  lemma ArmarEscuela(mat: map<string, Resultado>, clave: ClaveFn, esc: Escuela, ac: seq<nat>, tot: seq<nat>)
    requires |ac| == NumReactivos && |tot| == NumReactivos
    requires forall i :: 0 <= i < NumReactivos ==>
               ac[i] == SumAciertos(mat, clave, esc.cct, esc.grupos, i) && tot[i] == SumEmparejados(mat, clave, esc.cct, esc.grupos)
    ensures TasasDe(ac, tot) == EscuelaMaestra(mat, clave, esc).porcentajesReactivos
  {
    assert ac == seq(NumReactivos, i requires 0 <= i < NumReactivos => SumAciertos(mat, clave, esc.cct, esc.grupos, i));
    assert tot == Repetir(SumEmparejados(mat, clave, esc.cct, esc.grupos));
  }

  /**
   * main: mapMat from the mathematics tree, then every roster school merged
   * in roster order, with the running totalConExamen and totalSinExamen.
   */
  method MergeMaestraLenguaje(maestra: seq<Escuela>, matActual: seq<Escuela>)
    returns (escuelas: seq<Escuela>, totalConExamen: nat, totalSinExamen: nat)
    ensures var mat := SetAll(EntradasEscuelas(ClaveMaestra, matActual));
      escuelas == Maestra(mat, ClaveMaestra, maestra) &&
      totalConExamen == TotalCon(mat, ClaveMaestra, maestra) &&
      totalSinExamen == TotalSin(mat, ClaveMaestra, maestra)
  {
    escuelas, totalConExamen, totalSinExamen := MezclarTodas(ClaveMaestra, maestra, matActual);
  }

  /** The main loop, for any student key. */
  method MezclarTodas(clave: ClaveFn, maestra: seq<Escuela>, matActual: seq<Escuela>)
    returns (escuelas: seq<Escuela>, totalConExamen: nat, totalSinExamen: nat)
    ensures var mat := SetAll(EntradasEscuelas(clave, matActual));
      escuelas == Maestra(mat, clave, maestra) &&
      totalConExamen == TotalCon(mat, clave, maestra) &&
      totalSinExamen == TotalSin(mat, clave, maestra)
  {
    var mapMat := ConstruirMapa(clave, matActual);
    escuelas := [];
    totalConExamen, totalSinExamen := 0, 0;
    ghost var f := EscuelaCon(mapMat, clave);
    assert maestra[..0] == [];
    for s := 0 to |maestra|
      invariant escuelas == Mapear(maestra[..s], f)
      invariant totalConExamen == TotalCon(mapMat, clave, maestra[..s])
      invariant totalSinExamen == TotalSin(mapMat, clave, maestra[..s])
    {
      PasoTotales(mapMat, clave, maestra, s);
      MapearSnoc(maestra, s, f);
      var e, c, n := MezclarEscuela(mapMat, clave, maestra[s]);
      assert e == f(maestra[s]);
      escuelas := escuelas + [e];
      totalConExamen, totalSinExamen := totalConExamen + c, totalSinExamen + n;
    }
    assert maestra[..|maestra|] == maestra;
  }

  /** One more school in the main loop: the running totals over the first s + 1 schools. */
  lemma PasoTotales(mat: map<string, Resultado>, clave: ClaveFn, escuelas: seq<Escuela>, s: nat)
    requires s < |escuelas|
    ensures TotalCon(mat, clave, escuelas[..s + 1]) ==
            TotalCon(mat, clave, escuelas[..s]) + SumEmparejados(mat, clave, escuelas[s].cct, escuelas[s].grupos)
    ensures TotalSin(mat, clave, escuelas[..s + 1]) ==
            TotalSin(mat, clave, escuelas[..s]) + SumSin(mat, clave, escuelas[s].cct, escuelas[s].grupos)
  {
    TakeTake(escuelas, s);
  }

  // ---- Properties ----

  /**
   * In a merged group the tiers add up to the matched students, and `total`
   * is matched plus unmatched; every item rate lies in [0, 100.0], and all are
   * 0 when nobody matched.
   */
  lemma GrupoMaestroTotales(grp: Grupo, ms: seq<Option<Resultado>>)
    requires |ms| == |grp.alumnos|
    ensures var g := GrupoDe(grp, ms);
      g.requiereApoyo + g.enDesarrollo + g.esperado == Emparejados(ms) &&
      g.total == Emparejados(ms) + SinEmparejar(ms) == |g.alumnos| == |grp.alumnos| &&
      (forall i :: 0 <= i < NumReactivos ==> 0 <= g.porcentajesReactivos[i] <= 1000) &&
      (Emparejados(ms) == 0 ==> forall i :: 0 <= i < NumReactivos ==> g.porcentajesReactivos[i] == 0)
  {
    TramosSuman(ms);
    EmparejadosMasSin(ms);
    TasasEmparejados(ms);
  }

  /** The school's tier tallies are the sums of its merged groups' tallies. */
  lemma {:induction false} EscuelaSumaGrupos(mat: map<string, Resultado>, clave: ClaveFn, cct: string, grupos: seq<Grupo>)
    ensures var gs := GruposMaestros(mat, clave, cct, grupos);
      SumGrupos(gs, (g: Grupo) => g.requiereApoyo) == SumTramo(mat, clave, cct, grupos, RequiereApoyo) &&
      SumGrupos(gs, (g: Grupo) => g.enDesarrollo) == SumTramo(mat, clave, cct, grupos, EnDesarrollo) &&
      SumGrupos(gs, (g: Grupo) => g.esperado) == SumTramo(mat, clave, cct, grupos, Esperado)
  {
    var gs := GruposMaestros(mat, clave, cct, grupos);
    TramoPrefijo(mat, clave, cct, grupos, gs, (g: Grupo) => g.requiereApoyo, RequiereApoyo, |grupos|);
    TramoPrefijo(mat, clave, cct, grupos, gs, (g: Grupo) => g.enDesarrollo, EnDesarrollo, |grupos|);
    TramoPrefijo(mat, clave, cct, grupos, gs, (g: Grupo) => g.esperado, Esperado, |grupos|);
    assert gs[..|grupos|] == gs && grupos[..|grupos|] == grupos;
  }

  /** One tier: the sum of the group field `campo` over the first k groups, when each group's field is its tier tally. */
  lemma {:induction false} TramoPrefijo(mat: map<string, Resultado>, clave: ClaveFn, cct: string, grupos: seq<Grupo>,
                                        gs: seq<Grupo>, campo: Grupo -> nat, n: Nivel, k: nat)
    requires |gs| == |grupos| && k <= |grupos|
    requires forall j :: 0 <= j < |grupos| ==> campo(gs[j]) == EnTramo(Busquedas(mat, clave, cct, grupos[j].alumnos), n)
    ensures SumGrupos(gs[..k], campo) == SumTramo(mat, clave, cct, grupos[..k], n)
  {
    if k > 0 {
      TramoPrefijo(mat, clave, cct, grupos, gs, campo, n, k - 1);
      TakeTake(gs, k - 1);
      TakeTake(grupos, k - 1);
    }
  }

  /** Over a school's groups, matched plus unmatched is the number of roster students. */
  lemma {:induction false} EscuelaConMasSin(mat: map<string, Resultado>, clave: ClaveFn, cct: string, grupos: seq<Grupo>)
    ensures SumEmparejados(mat, clave, cct, grupos) + SumSin(mat, clave, cct, grupos) == AlumnosEn(grupos)
  {
    if grupos != [] {
      var g := grupos[|grupos| - 1];
      EscuelaConMasSin(mat, clave, cct, grupos[..|grupos| - 1]);
      EmparejadosMasSin(Busquedas(mat, clave, cct, g.alumnos));
    }
  }

  /** totalConExamen + totalSinExamen is the number of roster students processed. */
  lemma {:induction false} TotalesCuadran(mat: map<string, Resultado>, clave: ClaveFn, escuelas: seq<Escuela>)
    ensures TotalCon(mat, clave, escuelas) + TotalSin(mat, clave, escuelas) == AlumnosEnEscuelas(escuelas)
  {
    if escuelas != [] {
      var e := escuelas[|escuelas| - 1];
      TotalesCuadran(mat, clave, escuelas[..|escuelas| - 1]);
      EscuelaConMasSin(mat, clave, e.cct, e.grupos);
    }
  }

  /**
   * The merged school keeps the roster's totalEstudiantes whatever the groups
   * hold, and its tier tallies add up to its matched students.
   */
  lemma EscuelaMaestraTotales(mat: map<string, Resultado>, clave: ClaveFn, esc: Escuela)
    ensures var e := EscuelaMaestra(mat, clave, esc);
      e.cct == esc.cct && e.totalEstudiantes == esc.totalEstudiantes && e.buscador == esc.buscador &&
      |e.grupos| == |esc.grupos| &&
      e.requiereApoyo + e.enDesarrollo + e.esperado == SumEmparejados(mat, clave, esc.cct, esc.grupos) <= AlumnosEn(esc.grupos)
  {
    EscuelaTramosSuman(mat, clave, esc.cct, esc.grupos);
    EscuelaConMasSin(mat, clave, esc.cct, esc.grupos);
  }

  lemma {:induction false} EscuelaTramosSuman(mat: map<string, Resultado>, clave: ClaveFn, cct: string, grupos: seq<Grupo>)
    ensures SumTramo(mat, clave, cct, grupos, RequiereApoyo) + SumTramo(mat, clave, cct, grupos, EnDesarrollo) +
            SumTramo(mat, clave, cct, grupos, Esperado) == SumEmparejados(mat, clave, cct, grupos)
  {
    if grupos != [] {
      var g := grupos[|grupos| - 1];
      EscuelaTramosSuman(mat, clave, cct, grupos[..|grupos| - 1]);
      TramosSuman(Busquedas(mat, clave, cct, g.alumnos));
    }
  }

  // ---- Running the merge on its own output ----

  /** Every student of every school of a tree has its mapMat.set among the entries. */
  lemma {:induction false} EntradaEnEscuelas(clave: ClaveFn, escuelas: seq<Escuela>, s: nat, k: nat, j: nat)
    requires s < |escuelas| && k < |escuelas[s].grupos| && j < |escuelas[s].grupos[k].alumnos|
    ensures EntradaAlumno(clave, escuelas[s].cct, escuelas[s].grupos[k].alumnos[j]) in EntradasEscuelas(clave, escuelas)
  {
    var n := |escuelas| - 1;
    if s < n {
      EntradaEnEscuelas(clave, escuelas[..n], s, k, j);
    } else {
      EntradaEnGrupos(clave, escuelas[s].cct, escuelas[s].grupos, k, j);
    }
  }

  lemma {:induction false} EntradaEnGrupos(clave: ClaveFn, cct: string, grupos: seq<Grupo>, k: nat, j: nat)
    requires k < |grupos| && j < |grupos[k].alumnos|
    ensures EntradaAlumno(clave, cct, grupos[k].alumnos[j]) in EntradasGrupos(clave, cct, grupos)
  {
    var n := |grupos| - 1;
    if k < n {
      EntradaEnGrupos(clave, cct, grupos[..n], k, j);
    } else {
      assert EntradasAlumnos(clave, cct, grupos[k].alumnos)[j] == EntradaAlumno(clave, cct, grupos[k].alumnos[j]);
    }
  }

  /**
   * A second run whose mathematics tree is the first run's output finds a
   * record for every roster student, since a merged student keeps the names
   * and group field its key is built from; a record left as SIN EXAMEN by the
   * first run is then tallied as esperado.
   */
  lemma SegundaPasada(mat: map<string, Resultado>, clave: ClaveFn, escuelas: seq<Escuela>, s: nat, k: nat, j: nat)
    requires s < |escuelas| && k < |escuelas[s].grupos| && j < |escuelas[s].grupos[k].alumnos|
    ensures var out := Maestra(mat, clave, escuelas);
      var al := escuelas[s].grupos[k].alumnos[j];
      var mat2 := SetAll(EntradasEscuelas(clave, out));
      Emparejar(mat2, clave, escuelas[s].cct, al).Some? &&
      (Emparejar(mat, clave, escuelas[s].cct, al).None? ==> out[s].grupos[k].alumnos[j].nivel == SinExamen) &&
      Tramo(SinExamen) == Esperado
  {
    var out := Maestra(mat, clave, escuelas);
    var al := escuelas[s].grupos[k].alumnos[j];
    var esc := escuelas[s];
    var ms := Busquedas(mat, clave, esc.cct, esc.grupos[k].alumnos);
    assert out[s].grupos[k] == GrupoDe(esc.grupos[k], ms);
    assert out[s].grupos[k].alumnos[j] == AlumnoMaestro(al, ms[j]);
    var e := EntradaAlumno(clave, out[s].cct, out[s].grupos[k].alumnos[j]);
    EntradaEnEscuelas(clave, out, s, k, j);
    var es := EntradasEscuelas(clave, out);
    var p :| 0 <= p < |es| && es[p] == e;
    SetAllKeys(es);
    assert e.0 in SetAll(es);
  }
}
