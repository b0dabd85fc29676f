// scripts/fusionar-base-lenguaje-matematicas.mjs: the mathematics exam rows
// are looked up by student key and merged into the roster of a previous
// result tree (the language project's schools, groups and students). Files,
// JSON and the workbook reading are left out: the sheets and the roster are
// inputs.

module Fusionar {
  import opened Base
  import opened JsString
  import opened RafTypes
  import opened Score
  import opened Utf8Fix
  import opened GrupoNorm
  import opened ParseExcel
  import opened Recuento

  /** One `<cct>_actualizado.xlsx` file that could be read: its cct and the rows of its first sheet. */
  datatype Archivo = Archivo(cct: string, filas: seq<Fila>)

  /** claveAlumno: cct, normalised group, and the trimmed upper-case first and last names, joined by "|". */
  function ClaveAlumno(cct: string, grupo: Option<string>, nombre: Option<string>, apellido: Option<string>): string
  {
    cct + "|" + NormalizarGrupo(grupo) + "|" + Upper(Trim(nombre.GetOr(""))) + "|" + Upper(Trim(apellido.GetOr("")))
  }

  /**
   * The key normalises the group again; for a label that already normalised
   * to a group code this changes nothing, so both sides of the merge agree.
   */
  lemma ClaveReNormalizada(cct: string, raw: string, nombre: Option<string>, apellido: Option<string>)
    requires IsCode(NormalizarGrupo(Some(raw)))
    ensures ClaveAlumno(cct, Some(NormalizarGrupo(Some(raw))), nombre, apellido) == ClaveAlumno(cct, Some(raw), nombre, apellido)
  {
    OutputsAreFixpoints(NormalizarGrupo(Some(raw)));
  }

  /** A student's name in the exam sheet: repaired, trimmed and cut to 50 characters. */
  function NombreFila(name: Option<string>, decode: Decoder): (r: string)
    ensures |r| <= 50
  {
    Prefix(Trim(FixMojibakeLatin1(name.GetOr(""), decode)), 50)
  }

  function TieneQuizClass(filas: seq<Fila>): bool
  {
    filas != [] && filas[0].quizClass.Some?
  }

  /** The map.set performed for one exam row. */
  function EntradaFila(clave: ClaveFn, cct: string, row: Fila, hasQuizClass: bool, decode: Decoder): (string, Resultado)
  {
    var p := Porcentaje(row);
    (clave(cct, Some(GrupoDeFila(row, hasQuizClass, decode)),
                 Some(NombreFila(row.firstName, decode)), Some(NombreFila(row.lastName, decode))),
     Resultado(Some(p), ObtenerNivel(Some(p)), Respuestas(row)))
  }

  /** The map.set of a row of a file of school `cct`. */
  function DeFila(clave: ClaveFn, cct: string, hasQuizClass: bool, decode: Decoder): Fila -> (string, Resultado)
  {
    row => EntradaFila(clave, cct, row, hasQuizClass, decode)
  }

  /** The map.set of each row of one file; the first row decides whether the file has QuizClass. */
  function EntradasArchivo(clave: ClaveFn, a: Archivo, decode: Decoder): (es: seq<(string, Resultado)>)
    ensures |es| == |a.filas|
    ensures forall k :: 0 <= k < |a.filas| ==> es[k] == EntradaFila(clave, a.cct, a.filas[k], TieneQuizClass(a.filas), decode)
  {
    var f := DeFila(clave, a.cct, TieneQuizClass(a.filas), decode);
    MapearEn(a.filas, f);
    Mapear(a.filas, f)
  }

  /** Every map.set of the extraction, in file and row order. */
  function Entradas(clave: ClaveFn, archivos: seq<Archivo>, decode: Decoder): seq<(string, Resultado)>
  {
    if archivos == [] then []
    else Entradas(clave, archivos[..|archivos| - 1], decode) + EntradasArchivo(clave, archivos[|archivos| - 1], decode)
  }

  /** The key and outcome of one exam row, computed piece by piece as the script does. */
  method EntradaDeFila(clave: ClaveFn, cct: string, row: Fila, hasQuizClass: bool, decode: Decoder) returns (key: string, res: Resultado)
    ensures (key, res) == EntradaFila(clave, cct, row, hasQuizClass, decode)
  {
    var grupo := GrupoDeFila(row, hasQuizClass, decode);
    var nombre := NombreFila(row.firstName, decode);
    var apellido := NombreFila(row.lastName, decode);
    var porcentaje := CalcularPorcentaje(row);
    var nivel := ObtenerNivel(Some(porcentaje));
    key := clave(cct, Some(grupo), Some(nombre), Some(apellido));
    res := Resultado(Some(porcentaje), nivel, Respuestas(row));
  }

  /** The row loop of one file: one map.set per row. */
  method AgregarArchivo(m0: map<string, Resultado>, ghost antes: seq<(string, Resultado)>, clave: ClaveFn, a: Archivo, decode: Decoder)
    returns (m: map<string, Resultado>)
    requires m0 == SetAll(antes)
    ensures m == SetAll(antes + EntradasArchivo(clave, a, decode))
  {
    m := m0;
    var hasQuizClass := TieneQuizClass(a.filas);
    ghost var f := DeFila(clave, a.cct, hasQuizClass, decode);
    assert antes + Mapear(a.filas[..0], f) == antes;
    for k := 0 to |a.filas|
      invariant m == SetAll(antes + Mapear(a.filas[..k], f))
    {
      m := AgregarFila(m, antes, clave, a.cct, a.filas, k, hasQuizClass, decode);
    }
    assert a.filas[..|a.filas|] == a.filas;
  }

  /** `map.set(key, …)` for row k. */
  method AgregarFila(m0: map<string, Resultado>, ghost antes: seq<(string, Resultado)>, clave: ClaveFn, cct: string, filas: seq<Fila>, k: nat, hasQuizClass: bool, decode: Decoder)
    returns (m: map<string, Resultado>)
    requires k < |filas|
    requires m0 == SetAll(antes + Mapear(filas[..k], DeFila(clave, cct, hasQuizClass, decode)))
    ensures m == SetAll(antes + Mapear(filas[..k + 1], DeFila(clave, cct, hasQuizClass, decode)))
  {
    var key, res := EntradaDeFila(clave, cct, filas[k], hasQuizClass, decode);
    ghost var f := DeFila(clave, cct, hasQuizClass, decode);
    ghost var hechas := antes + Mapear(filas[..k], f);
    SetAllSnoc(hechas, (key, res));
    MapearSnoc(filas, k, f);
    assert f(filas[k]) == (key, res);
    Asociar(antes, Mapear(filas[..k], f), [(key, res)]);
    m := m0[key := res];
  }

  /**
   * extraerResultadosMatematicas: the result map after setting every row's
   * key in order, so a key seen twice keeps its later row (Base.SetAllLaterWins).
   */
  method ExtraerResultadosMatematicas(archivos: seq<Archivo>, decode: Decoder) returns (m: map<string, Resultado>)
    ensures m == SetAll(Entradas(ClaveAlumno, archivos, decode))
  {
    m := map[];
    for f := 0 to |archivos|
      invariant m == SetAll(Entradas(ClaveAlumno, archivos[..f], decode))
    {
      assert archivos[..f + 1][..f] == archivos[..f];
      assert Entradas(ClaveAlumno, archivos[..f + 1], decode) ==
             Entradas(ClaveAlumno, archivos[..f], decode) + EntradasArchivo(ClaveAlumno, archivos[f], decode);
      m := AgregarArchivo(m, Entradas(ClaveAlumno, archivos[..f], decode), ClaveAlumno, archivos[f], decode);
    }
    assert archivos[..|archivos|] == archivos;
  }

  // ---- The merge into the roster ----

  /** The exam result found for a roster student of group `grupo` in school `cct`. */
  function Emparejar(mat: map<string, Resultado>, clave: ClaveFn, cct: string, grupo: string, alu: Alumno): Option<Resultado>
  {
    var k := clave(cct, Some(grupo), Some(alu.nombre), Some(alu.apellido));
    if k in mat then Some(mat[k]) else None
  }

  /** The lookups of a group's roster students, in roster order. */
  function Busquedas(mat: map<string, Resultado>, clave: ClaveFn, cct: string, grupo: string, alus: seq<Alumno>): (ms: seq<Option<Resultado>>)
    ensures |ms| == |alus|
    ensures forall j :: 0 <= j < |alus| ==> ms[j] == Emparejar(mat, clave, cct, grupo, alus[j])
  {
    seq(|alus|, j requires 0 <= j < |alus| => Emparejar(mat, clave, cct, grupo, alus[j]))
  }

  /** Array(12).fill("-"). */
  function Guiones(): (r: seq<string>)
    ensures |r| == NumReactivos && forall i :: 0 <= i < NumReactivos ==> r[i] == "-"
  {
    seq(NumReactivos, _ => "-")
  }

  /**
   * The merged student: names cut to 50 characters, the group name of the
   * roster, and the exam outcome, or 0 / REQUIERE APOYO / twelve "-" without one.
   */
  function AlumnoFusionado(grupo: string, alu: Alumno, m: Option<Resultado>): Alumno
  {
    Alumno(
      Prefix(alu.nombre, 50),
      Prefix(alu.apellido, 50),
      grupo,
      if m.Some? then m.value.porcentaje else Some(0),
      if m.Some? then m.value.nivel else RequiereApoyo,
      if m.Some? then m.value.respuestas else Guiones())
  }

  /**
   * A merged student keeps the roster's names (cut to 50 characters) and takes
   * the group's name; an unmatched one reads as 0 %, REQUIERE APOYO and twelve
   * "-", a matched one carries the exam outcome unchanged.
   */
  lemma AlumnoFusionadoCorrecto(grupo: string, alu: Alumno, m: Option<Resultado>)
    ensures var a := AlumnoFusionado(grupo, alu, m);
      a.grupo == grupo && |a.nombre| <= 50 && |a.apellido| <= 50 &&
      (|alu.nombre| <= 50 ==> a.nombre == alu.nombre) && a.nombre == alu.nombre[..|a.nombre|] &&
      (|alu.apellido| <= 50 ==> a.apellido == alu.apellido) && a.apellido == alu.apellido[..|a.apellido|] &&
      (m.None? ==> a.porcentaje == Some(0) && a.nivel == RequiereApoyo && a.respuestas == Guiones()) &&
      (m.Some? ==> a.porcentaje == m.value.porcentaje && a.nivel == m.value.nivel && a.respuestas == m.value.respuestas)
  {
  }

  /** The merged students of a group, in roster order. */
  function AlumnosFusionados(grupo: string, alus: seq<Alumno>, ms: seq<Option<Resultado>>): (r: seq<Alumno>)
    requires |ms| == |alus|
    ensures |r| == |alus|
    ensures forall j :: 0 <= j < |alus| ==> r[j] == AlumnoFusionado(grupo, alus[j], ms[j])
  {
    seq(|alus|, j requires 0 <= j < |alus| => AlumnoFusionado(grupo, alus[j], ms[j]))
  }

  /** A group merged against the lookups of its students. */
  function GrupoDe(grp: Grupo, ms: seq<Option<Resultado>>): Grupo
    requires |ms| == |grp.alumnos|
  {
    var alus := grp.alumnos;
    Grupo(
      grp.nombre,
      AlumnosFusionados(grp.nombre, alus, ms),
      TasasDe(AciertosPorItem(ms), Repetir(Emparejados(ms))),
      EnTramo(ms, RequiereApoyo),
      EnTramo(ms, EnDesarrollo),
      EnTramo(ms, Esperado),
      |alus|)
  }

  /** The merged group: students in roster order; tallies and item rates over its matched students. */
  function GrupoFusionado(mat: map<string, Resultado>, clave: ClaveFn, cct: string, grp: Grupo): Grupo
  {
    GrupoDe(grp, Busquedas(mat, clave, cct, grp.nombre, grp.alumnos))
  }

  /** Matched students over a school's groups. */
  function SumEmparejados(mat: map<string, Resultado>, clave: ClaveFn, cct: string, grupos: seq<Grupo>): nat
  {
    if grupos == [] then 0
    else
      var g := grupos[|grupos| - 1];
      SumEmparejados(mat, clave, cct, grupos[..|grupos| - 1]) + Emparejados(Busquedas(mat, clave, cct, g.nombre, g.alumnos))
  }

  function SumTramo(mat: map<string, Resultado>, clave: ClaveFn, cct: string, grupos: seq<Grupo>, n: Nivel): nat
  {
    if grupos == [] then 0
    else
      var g := grupos[|grupos| - 1];
      SumTramo(mat, clave, cct, grupos[..|grupos| - 1], n) + EnTramo(Busquedas(mat, clave, cct, g.nombre, g.alumnos), n)
  }

  function SumAciertos(mat: map<string, Resultado>, clave: ClaveFn, cct: string, grupos: seq<Grupo>, i: nat): nat
  {
    if grupos == [] then 0
    else
      var g := grupos[|grupos| - 1];
      SumAciertos(mat, clave, cct, grupos[..|grupos| - 1], i) + AciertosItem(Busquedas(mat, clave, cct, g.nombre, g.alumnos), i)
  }

  function GruposFusionados(mat: map<string, Resultado>, clave: ClaveFn, cct: string, grupos: seq<Grupo>): (gs: seq<Grupo>)
    ensures |gs| == |grupos|
    ensures forall k :: 0 <= k < |grupos| ==> gs[k] == GrupoFusionado(mat, clave, cct, grupos[k])
  {
    MapearEn(grupos, FusionadoCon(mat, clave, cct));
    Mapear(grupos, FusionadoCon(mat, clave, cct))
  }

  /** The merge of one group of school `cct`. */
  function FusionadoCon(mat: map<string, Resultado>, clave: ClaveFn, cct: string): Grupo -> Grupo
  {
    grp => GrupoFusionado(mat, clave, cct, grp)
  }

  /** The merged school: groups in roster order, school figures over all matched students. */
  function EscuelaFusionada(mat: map<string, Resultado>, clave: ClaveFn, esc: Escuela): Escuela
  {
    var cct := esc.cct;
    Escuela(
      cct,
      AlumnosEn(esc.grupos),
      TasasDe(seq(NumReactivos, i requires 0 <= i < NumReactivos => SumAciertos(mat, clave, cct, esc.grupos, i)),
              Repetir(SumEmparejados(mat, clave, cct, esc.grupos))),
      SumTramo(mat, clave, cct, esc.grupos, RequiereApoyo),
      SumTramo(mat, clave, cct, esc.grupos, EnDesarrollo),
      SumTramo(mat, clave, cct, esc.grupos, Esperado),
      GruposFusionados(mat, clave, cct, esc.grupos),
      esc.buscador)
  }

  /** The student loop of one group, adding to the group's and the school's item counters. */
  method RecorrerAlumnos(mat: map<string, Resultado>, clave: ClaveFn, cct: string, grp: Grupo,
                         acG: array<nat>, totG: array<nat>, acEsc: array<nat>, totEsc: array<nat>)
    returns (alumnosOut: seq<Alumno>, reqG: nat, desG: nat, espG: nat)
    requires acG.Length == NumReactivos && totG.Length == NumReactivos
    requires acEsc.Length == NumReactivos && totEsc.Length == NumReactivos
    requires acG != totG && acG != acEsc && acG != totEsc && totG != acEsc && totG != totEsc && acEsc != totEsc
    modifies acG, totG, acEsc, totEsc
    ensures var ms := Busquedas(mat, clave, cct, grp.nombre, grp.alumnos);
      alumnosOut == AlumnosFusionados(grp.nombre, grp.alumnos, ms) &&
      reqG == EnTramo(ms, RequiereApoyo) && desG == EnTramo(ms, EnDesarrollo) && espG == EnTramo(ms, Esperado)
    ensures var ms := Busquedas(mat, clave, cct, grp.nombre, grp.alumnos);
      forall i :: 0 <= i < NumReactivos ==>
        acG[i] == old(acG[i]) + AciertosItem(ms, i) && totG[i] == old(totG[i]) + Emparejados(ms) &&
        acEsc[i] == old(acEsc[i]) + AciertosItem(ms, i) && totEsc[i] == old(totEsc[i]) + Emparejados(ms)
  {
    var alus := grp.alumnos;
    var nombreGrupo := grp.nombre;
    ghost var ms := Busquedas(mat, clave, cct, nombreGrupo, alus);
    alumnosOut := [];
    reqG, desG, espG := 0, 0, 0;
    ghost var out := AlumnosFusionados(nombreGrupo, alus, ms);
    assert ms[..0] == [] && out[..0] == [];
    assert Emparejados(ms[..0]) == 0 && forall i :: AciertosItem(ms[..0], i) == 0;
    for k := 0 to |alus|
      invariant alumnosOut == out[..k]
      invariant forall i :: 0 <= i < NumReactivos ==>
                  acG[i] == old(acG[i]) + AciertosItem(ms[..k], i) && totG[i] == old(totG[i]) + Emparejados(ms[..k]) &&
                  acEsc[i] == old(acEsc[i]) + AciertosItem(ms[..k], i) && totEsc[i] == old(totEsc[i]) + Emparejados(ms[..k])
      invariant reqG == EnTramo(ms[..k], RequiereApoyo)
      invariant desG == EnTramo(ms[..k], EnDesarrollo)
      invariant espG == EnTramo(ms[..k], Esperado)
    {
      PasoEmparejado(ms, k);
      var alu := alus[k];
      var key := clave(cct, Some(nombreGrupo), Some(alu.nombre), Some(alu.apellido));
      var m := if key in mat then Some(mat[key]) else None;
      assert m == ms[k];
      TakeSnoc(out, k);
      alumnosOut := alumnosOut + [AlumnoFusionado(nombreGrupo, alu, m)];
      reqG, desG, espG := ContarResultado(m, reqG, desG, espG, acG, totG, acEsc, totEsc);
    }
    assert ms[..|alus|] == ms && out[..|alus|] == out;
  }

  /** One group of the merge: its student loop, then its item rates. */
  method FusionarGrupo(mat: map<string, Resultado>, clave: ClaveFn, cct: string, grp: Grupo, acEsc: array<nat>, totEsc: array<nat>)
    returns (g: Grupo)
    requires acEsc.Length == NumReactivos && totEsc.Length == NumReactivos && acEsc != totEsc
    modifies acEsc, totEsc
    ensures g == GrupoFusionado(mat, clave, cct, grp)
    ensures forall i :: 0 <= i < NumReactivos ==>
              acEsc[i] == old(acEsc[i]) + AciertosItem(Busquedas(mat, clave, cct, grp.nombre, grp.alumnos), i) &&
              totEsc[i] == old(totEsc[i]) + Emparejados(Busquedas(mat, clave, cct, grp.nombre, grp.alumnos))
  {
    var acG := new nat[NumReactivos](_ => 0);
    var totG := new nat[NumReactivos](_ => 0);
    var alumnosOut, reqG, desG, espG := RecorrerAlumnos(mat, clave, cct, grp, acG, totG, acEsc, totEsc);
    ghost var ms := Busquedas(mat, clave, cct, grp.nombre, grp.alumnos);
    assert acG[..] == AciertosPorItem(ms);
    assert totG[..] == Repetir(Emparejados(ms));
    assert alumnosOut == GrupoDe(grp, ms).alumnos;
    g := Grupo(grp.nombre, alumnosOut, TasasDe(acG[..], totG[..]), reqG, desG, espG, |alumnosOut|);
  }

  /** The group loop of one school. */
  method FusionarEscuela(mat: map<string, Resultado>, clave: ClaveFn, esc: Escuela) returns (e: Escuela)
    ensures e == EscuelaFusionada(mat, clave, esc)
  {
    var cct := esc.cct;
    ghost var f := FusionadoCon(mat, clave, cct);
    var gruposOut: seq<Grupo> := [];
    var totalReq, totalDes, totalEsp := 0, 0, 0;
    var acEsc := new nat[NumReactivos](_ => 0);
    var totEsc := new nat[NumReactivos](_ => 0);
    assert esc.grupos[..0] == [];
    for k := 0 to |esc.grupos|
      invariant gruposOut == Mapear(esc.grupos[..k], f)
      invariant forall i :: 0 <= i < NumReactivos ==>
                  acEsc[i] == SumAciertos(mat, clave, cct, esc.grupos[..k], i) &&
                  totEsc[i] == SumEmparejados(mat, clave, cct, esc.grupos[..k])
      invariant totalReq == SumTramo(mat, clave, cct, esc.grupos[..k], RequiereApoyo)
      invariant totalDes == SumTramo(mat, clave, cct, esc.grupos[..k], EnDesarrollo)
      invariant totalEsp == SumTramo(mat, clave, cct, esc.grupos[..k], Esperado)
    {
      MapearSnoc(esc.grupos, k, f);
      var g;
      g, totalReq, totalDes, totalEsp := SumarGrupo(mat, clave, cct, esc.grupos, k, acEsc, totEsc, totalReq, totalDes, totalEsp);
      gruposOut := gruposOut + [g];
    }
    assert esc.grupos[..|esc.grupos|] == esc.grupos;
    ArmarEscuela(mat, clave, esc, acEsc[..], totEsc[..], totalReq, totalDes, totalEsp, gruposOut);
    e := Escuela(cct, AlumnosEn(esc.grupos), TasasDe(acEsc[..], totEsc[..]), totalReq, totalDes, totalEsp,
                 gruposOut, esc.buscador);
  }

  /** The merged school from counters and groups that hold the school's sums and merged groups. */
  lemma ArmarEscuela(mat: map<string, Resultado>, clave: ClaveFn, esc: Escuela, ac: seq<nat>, tot: seq<nat>,
                     req: nat, des: nat, esp: nat, gs: seq<Grupo>)
    requires |ac| == NumReactivos && |tot| == NumReactivos
    requires forall i :: 0 <= i < NumReactivos ==>
               ac[i] == SumAciertos(mat, clave, esc.cct, esc.grupos, i) && tot[i] == SumEmparejados(mat, clave, esc.cct, esc.grupos)
    requires req == SumTramo(mat, clave, esc.cct, esc.grupos, RequiereApoyo)
    requires des == SumTramo(mat, clave, esc.cct, esc.grupos, EnDesarrollo)
    requires esp == SumTramo(mat, clave, esc.cct, esc.grupos, Esperado)
    requires gs == Mapear(esc.grupos, FusionadoCon(mat, clave, esc.cct))
    ensures Escuela(esc.cct, AlumnosEn(esc.grupos), TasasDe(ac, tot), req, des, esp, gs, esc.buscador) ==
            EscuelaFusionada(mat, clave, esc)
  {
    assert ac == seq(NumReactivos, i requires 0 <= i < NumReactivos => SumAciertos(mat, clave, esc.cct, esc.grupos, i));
    assert tot == Repetir(SumEmparejados(mat, clave, esc.cct, esc.grupos));
  }

  /** One pass of the group loop: group k merged, the school's sums extended from k to k + 1 groups. */
  method SumarGrupo(mat: map<string, Resultado>, clave: ClaveFn, cct: string, grupos: seq<Grupo>, k: nat,
                    acEsc: array<nat>, totEsc: array<nat>, req0: nat, des0: nat, esp0: nat)
    returns (g: Grupo, req: nat, des: nat, esp: nat)
    requires k < |grupos|
    requires acEsc.Length == NumReactivos && totEsc.Length == NumReactivos && acEsc != totEsc
    requires forall i :: 0 <= i < NumReactivos ==>
               acEsc[i] == SumAciertos(mat, clave, cct, grupos[..k], i) &&
               totEsc[i] == SumEmparejados(mat, clave, cct, grupos[..k])
    requires req0 == SumTramo(mat, clave, cct, grupos[..k], RequiereApoyo)
    requires des0 == SumTramo(mat, clave, cct, grupos[..k], EnDesarrollo)
    requires esp0 == SumTramo(mat, clave, cct, grupos[..k], Esperado)
    modifies acEsc, totEsc
    ensures g == FusionadoCon(mat, clave, cct)(grupos[k])
    ensures forall i :: 0 <= i < NumReactivos ==>
              acEsc[i] == SumAciertos(mat, clave, cct, grupos[..k + 1], i) &&
              totEsc[i] == SumEmparejados(mat, clave, cct, grupos[..k + 1])
    ensures req == SumTramo(mat, clave, cct, grupos[..k + 1], RequiereApoyo)
    ensures des == SumTramo(mat, clave, cct, grupos[..k + 1], EnDesarrollo)
    ensures esp == SumTramo(mat, clave, cct, grupos[..k + 1], Esperado)
  {
    PasoEscuela(mat, clave, cct, grupos, k);
    g := FusionarGrupo(mat, clave, cct, grupos[k], acEsc, totEsc);
    req, des, esp := req0 + g.requiereApoyo, des0 + g.enDesarrollo, esp0 + g.esperado;
  }

  /** One more group in the school loop: the school sums over the first k + 1 groups. */
  lemma PasoEscuela(mat: map<string, Resultado>, clave: ClaveFn, cct: string, grupos: seq<Grupo>, k: nat)
    requires k < |grupos|
    ensures var g := GrupoFusionado(mat, clave, cct, grupos[k]);
      var ms := Busquedas(mat, clave, cct, grupos[k].nombre, grupos[k].alumnos);
      SumEmparejados(mat, clave, cct, grupos[..k + 1]) == SumEmparejados(mat, clave, cct, grupos[..k]) + Emparejados(ms) &&
      (forall i :: SumAciertos(mat, clave, cct, grupos[..k + 1], i) == SumAciertos(mat, clave, cct, grupos[..k], i) + AciertosItem(ms, i)) &&
      SumTramo(mat, clave, cct, grupos[..k + 1], RequiereApoyo) == SumTramo(mat, clave, cct, grupos[..k], RequiereApoyo) + g.requiereApoyo &&
      SumTramo(mat, clave, cct, grupos[..k + 1], EnDesarrollo) == SumTramo(mat, clave, cct, grupos[..k], EnDesarrollo) + g.enDesarrollo &&
      SumTramo(mat, clave, cct, grupos[..k + 1], Esperado) == SumTramo(mat, clave, cct, grupos[..k], Esperado) + g.esperado
  {
    TakeTake(grupos, k);
  }

  /** main: every roster school merged, in roster order. */
  method FusionarBase(mat: map<string, Resultado>, escuelas: seq<Escuela>) returns (out: seq<Escuela>)
    ensures |out| == |escuelas|
    ensures forall k :: 0 <= k < |escuelas| ==> out[k] == EscuelaFusionada(mat, ClaveAlumno, escuelas[k])
  {
    out := [];
    for k := 0 to |escuelas|
      invariant |out| == k
      invariant forall j :: 0 <= j < k ==> out[j] == EscuelaFusionada(mat, ClaveAlumno, escuelas[j])
    {
      var e := FusionarEscuela(mat, ClaveAlumno, escuelas[k]);
      out := out + [e];
    }
  }

  // ---- Properties ----

  /**
   * In a merged group the tiers add up to the matched students, while `total`
   * counts every roster student; every item rate lies in [0, 100.0], and all
   * are 0 when nobody matched; every student carries the group's name.
   */
  lemma GrupoDeTotales(grp: Grupo, ms: seq<Option<Resultado>>)
    requires |ms| == |grp.alumnos|
    ensures var g := GrupoDe(grp, ms);
      g.requiereApoyo + g.enDesarrollo + g.esperado == Emparejados(ms) <= g.total &&
      g.total == |g.alumnos| == |grp.alumnos| &&
      (forall j :: 0 <= j < |g.alumnos| ==> g.alumnos[j].grupo == grp.nombre) &&
      (forall i :: 0 <= i < NumReactivos ==> 0 <= g.porcentajesReactivos[i] <= 1000) &&
      (Emparejados(ms) == 0 ==> forall i :: 0 <= i < NumReactivos ==> g.porcentajesReactivos[i] == 0)
  {
    TramosSuman(ms);
    TasasEmparejados(ms);
  }

  /** The school's tier tallies are the sums of its merged groups' tallies. */
  lemma {:induction false} EscuelaSumaGrupos(mat: map<string, Resultado>, clave: ClaveFn, cct: string, grupos: seq<Grupo>)
    ensures var gs := GruposFusionados(mat, clave, cct, grupos);
      SumGrupos(gs, (g: Grupo) => g.requiereApoyo) == SumTramo(mat, clave, cct, grupos, RequiereApoyo) &&
      SumGrupos(gs, (g: Grupo) => g.enDesarrollo) == SumTramo(mat, clave, cct, grupos, EnDesarrollo) &&
      SumGrupos(gs, (g: Grupo) => g.esperado) == SumTramo(mat, clave, cct, grupos, Esperado)
  {
    var gs := GruposFusionados(mat, clave, cct, grupos);
    TramoPrefijo(mat, clave, cct, grupos, gs, (g: Grupo) => g.requiereApoyo, RequiereApoyo, |grupos|);
    TramoPrefijo(mat, clave, cct, grupos, gs, (g: Grupo) => g.enDesarrollo, EnDesarrollo, |grupos|);
    TramoPrefijo(mat, clave, cct, grupos, gs, (g: Grupo) => g.esperado, Esperado, |grupos|);
    assert gs[..|grupos|] == gs && grupos[..|grupos|] == grupos;
  }

  /** One tier: the sum of the group field `campo` over the first k groups, when each group's field is its tier tally. */
  lemma {:induction false} TramoPrefijo(mat: map<string, Resultado>, clave: ClaveFn, cct: string, grupos: seq<Grupo>,
                                        gs: seq<Grupo>, campo: Grupo -> nat, n: Nivel, k: nat)
    requires |gs| == |grupos| && k <= |grupos|
    requires forall j :: 0 <= j < |grupos| ==>
               campo(gs[j]) == EnTramo(Busquedas(mat, clave, cct, grupos[j].nombre, grupos[j].alumnos), n)
    ensures SumGrupos(gs[..k], campo) == SumTramo(mat, clave, cct, grupos[..k], n)
  {
    if k > 0 {
      TramoPrefijo(mat, clave, cct, grupos, gs, campo, n, k - 1);
      TakeTake(gs, k - 1);
      TakeTake(grupos, k - 1);
    }
  }

  /** The school's totalEstudiantes, the roster size, is the sum of its merged groups' totals. */
  lemma {:induction false} EscuelaSumaTotales(mat: map<string, Resultado>, clave: ClaveFn, cct: string, grupos: seq<Grupo>)
    ensures SumGrupos(GruposFusionados(mat, clave, cct, grupos), (g: Grupo) => g.total) == AlumnosEn(grupos)
  {
    var gs := GruposFusionados(mat, clave, cct, grupos);
    TotalesPrefijo(mat, clave, cct, grupos, |grupos|);
    assert gs[..|grupos|] == gs && grupos[..|grupos|] == grupos;
  }

  /** The roster size over the first k merged groups. */
  lemma {:induction false} TotalesPrefijo(mat: map<string, Resultado>, clave: ClaveFn, cct: string, grupos: seq<Grupo>, k: nat)
    requires k <= |grupos|
    ensures SumGrupos(GruposFusionados(mat, clave, cct, grupos)[..k], (g: Grupo) => g.total) == AlumnosEn(grupos[..k])
  {
    if k > 0 {
      TotalesPrefijo(mat, clave, cct, grupos, k - 1);
      TakeTake(GruposFusionados(mat, clave, cct, grupos), k - 1);
      TakeTake(grupos, k - 1);
    }
  }

  /** The school's tier tallies add up to its matched students, never more than totalEstudiantes. */
  lemma {:induction false} EscuelaTramosSuman(mat: map<string, Resultado>, clave: ClaveFn, cct: string, grupos: seq<Grupo>)
    ensures SumTramo(mat, clave, cct, grupos, RequiereApoyo) + SumTramo(mat, clave, cct, grupos, EnDesarrollo) +
            SumTramo(mat, clave, cct, grupos, Esperado) == SumEmparejados(mat, clave, cct, grupos) <= AlumnosEn(grupos)
  {
    if grupos != [] {
      var g := grupos[|grupos| - 1];
      EscuelaTramosSuman(mat, clave, cct, grupos[..|grupos| - 1]);
      TramosSuman(Busquedas(mat, clave, cct, g.nombre, g.alumnos));
    }
  }
}
