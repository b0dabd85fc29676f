// procesarEscuela of scripts/parse-excel-to-json.mjs: one school's sheet of
// exam rows becomes the school summary with its per-group summaries. The
// workbook reading is left out; the rows of the first sheet are the input.

module ParseExcel {
  import opened Base
  import opened JsString
  import opened RafTypes
  import opened Score
  import opened Sorting
  import opened Utf8Fix
  import opened GrupoNorm

  /** A row after the first pass: its own cells and the derived group, percentage, tier and answers. */
  datatype FilaProcesada = FilaProcesada(
    fila: Fila,
    grupo: string,
    porcentaje: nat,
    nivel: Nivel,
    respuestas: seq<string>)

  /**
   * The group of a row: the mojibake-repaired QuizClass cell normalised, or
   * "UNICO" when the sheet has no QuizClass column or the repaired cell is empty.
   */
  function GrupoDeFila(row: Fila, hasQuizClass: bool, decode: Decoder): (g: string)
    ensures !hasQuizClass || row.quizClass.None? ==> g == "UNICO"
    ensures hasQuizClass && row.quizClass.Some? && FixMojibakeLatin1(row.quizClass.value, decode) == "" ==>
              g == "UNICO"
    ensures hasQuizClass && row.quizClass.Some? && FixMojibakeLatin1(row.quizClass.value, decode) != "" ==>
              g == NormalizarGrupo(Some(FixMojibakeLatin1(row.quizClass.value, decode)))
    ensures |g| <= 10
  {
    var raw := if hasQuizClass then FixMojibakeLatin1(row.quizClass.GetOr(""), decode) else "";
    if raw == "" then "UNICO" else NormalizarGrupo(Some(raw))
  }

  /**
   * A QuizClass cell that is still non-empty after the repair but holds only
   * blanks gives the group "", which the group list later drops.
   */
  lemma GrupoEnBlanco(row: Fila, decode: Decoder)
    requires row.quizClass.Some?
    requires FixMojibakeLatin1(row.quizClass.value, decode) != ""
    requires AllWhite(FixMojibakeLatin1(row.quizClass.value, decode))
    ensures GrupoDeFila(row, true, decode) == ""
  {
    BlankLabel(FixMojibakeLatin1(row.quizClass.value, decode));
  }

  /** The first pass over one row. */
  function Procesar(row: Fila, hasQuizClass: bool, decode: Decoder): FilaProcesada
  {
    var p := Porcentaje(row);
    FilaProcesada(row, GrupoDeFila(row, hasQuizClass, decode), p, ObtenerNivel(Some(p)), Respuestas(row))
  }

  /** The first pass over the sheet; whether the QuizClass column exists is read from the first row. */
  function ProcesarTodas(data: seq<Fila>, decode: Decoder): (rows: seq<FilaProcesada>)
    requires data != []
    ensures |rows| == |data|
    ensures forall k :: 0 <= k < |data| ==> rows[k].fila == data[k] && ConExamen(rows[k].nivel)
  {
    var f := ProcesarCon(data[0].quizClass.Some?, decode);
    MapearEn(data, f);
    Mapear(data, f)
  }

  /** The row object for a row of a sheet with or without QuizClass. */
  function ProcesarCon(hasQuizClass: bool, decode: Decoder): Fila -> FilaProcesada
  {
    row => Procesar(row, hasQuizClass, decode)
  }

  function Grupos(rows: seq<FilaProcesada>): (gs: seq<string>)
    ensures |gs| == |rows| && forall k :: 0 <= k < |rows| ==> gs[k] == rows[k].grupo
  {
    seq(|rows|, k requires 0 <= k < |rows| => rows[k].grupo)
  }

  predicate SinRepetidos(xs: seq<string>)
  {
    forall i, j :: 0 <= i < j < |xs| ==> xs[i] != xs[j]
  }

  /** The distinct labels in order of first occurrence, as a JS Set iterates them. */
  function Distintos(xs: seq<string>): (r: seq<string>)
    ensures forall x :: x in r <==> x in xs
    ensures SinRepetidos(r)
  {
    if xs == [] then []
    else
      assert xs == xs[..|xs| - 1] + [xs[|xs| - 1]];
      var d := Distintos(xs[..|xs| - 1]);
      if xs[|xs| - 1] in d then d else d + [xs[|xs| - 1]]
  }

  /** filter(Boolean) on strings: the empty label is dropped. */
  function SinVacios(xs: seq<string>): (r: seq<string>)
    ensures forall x :: x in r <==> x in xs && x != ""
  {
    if xs == [] then []
    else
      assert xs == xs[..|xs| - 1] + [xs[|xs| - 1]];
      SinVacios(xs[..|xs| - 1]) + (if xs[|xs| - 1] != "" then [xs[|xs| - 1]] else [])
  }

  lemma {:induction false} SinVaciosSinRepetidos(xs: seq<string>)
    requires SinRepetidos(xs)
    ensures SinRepetidos(SinVacios(xs))
  {
    if xs != [] {
      var init := xs[..|xs| - 1];
      SinVaciosSinRepetidos(init);
      assert xs[|xs| - 1] !in init;
    }
  }

  /** The default comparison of Array.prototype.sort on strings compares the strings themselves. */
  function Id(s: string): string
  {
    s
  }

  /** The group names: the distinct non-empty labels sorted, or ["UNICO"] when there is none. */
  function NombresGrupos(rows: seq<FilaProcesada>): seq<string>
  {
    var ordenados := SortBy(SinVacios(Distintos(Grupos(rows))), Id);
    if ordenados == [] then ["UNICO"] else ordenados
  }

  /** Rows whose item i is correct. */
  function AciertosEn(rows: seq<FilaProcesada>, i: nat): nat
  {
    if rows == [] then 0
    else AciertosEn(rows[..|rows| - 1], i) + (if Acierto(CeldaAt(rows[|rows| - 1].fila, i)) then 1 else 0)
  }

  /** Rows whose item i has a mark and numeric points. */
  function IntentosEn(rows: seq<FilaProcesada>, i: nat): nat
  {
    if rows == [] then 0
    else IntentosEn(rows[..|rows| - 1], i) + (if Intentado(CeldaAt(rows[|rows| - 1].fila, i)) then 1 else 0)
  }

  function AciertosReactivos(rows: seq<FilaProcesada>): (r: seq<nat>)
    ensures |r| == NumReactivos
  {
    seq(NumReactivos, j requires 0 <= j < NumReactivos => AciertosEn(rows, j + 1))
  }

  function IntentosReactivos(rows: seq<FilaProcesada>): (r: seq<nat>)
    ensures |r| == NumReactivos
  {
    seq(NumReactivos, j requires 0 <= j < NumReactivos => IntentosEn(rows, j + 1))
  }

  /** The item rates: rounded tenths of correct over attempted, 0 when nothing was attempted. */
  function TasasDe(aciertos: seq<nat>, totales: seq<nat>): (r: seq<int>)
    requires |aciertos| == |totales|
    ensures |r| == |aciertos|
  {
    seq(|aciertos|, j requires 0 <= j < |aciertos| => Tenths(aciertos[j], totales[j]))
  }

  /** Rows with tier n. */
  function CuentaNivel(rows: seq<FilaProcesada>, n: Nivel): nat
  {
    if rows == [] then 0
    else CuentaNivel(rows[..|rows| - 1], n) + (if rows[|rows| - 1].nivel == n then 1 else 0)
  }

  /** Rows whose group is one of s. */
  function CuentaEn(rows: seq<FilaProcesada>, s: set<string>): nat
  {
    if rows == [] then 0
    else CuentaEn(rows[..|rows| - 1], s) + (if rows[|rows| - 1].grupo in s then 1 else 0)
  }

  /** rows.filter(r => r._grupo === nombre), in sheet order. */
  function FilasDeGrupo(rows: seq<FilaProcesada>, nombre: string): (r: seq<FilaProcesada>)
    ensures |r| == CuentaEn(rows, {nombre})
    ensures forall k :: 0 <= k < |r| ==> r[k].grupo == nombre && r[k] in rows
  {
    if rows == [] then []
    else
      var init := FilasDeGrupo(rows[..|rows| - 1], nombre);
      assert forall x :: x in rows[..|rows| - 1] ==> x in rows;
      if rows[|rows| - 1].grupo == nombre then init + [rows[|rows| - 1]] else init
  }

  /** The stored student: names repaired and cut to 50 characters, the derived fields copied. */
  function AlumnoDe(r: FilaProcesada, decode: Decoder): (a: Alumno)
    ensures |a.nombre| <= 50 && |a.apellido| <= 50
    ensures a.grupo == r.grupo && a.porcentaje == Some(r.porcentaje) && a.nivel == r.nivel
  {
    Alumno(
      Prefix(FixMojibakeLatin1(r.fila.firstName.GetOr(""), decode), 50),
      Prefix(FixMojibakeLatin1(r.fila.lastName.GetOr(""), decode), 50),
      r.grupo,
      Some(r.porcentaje),
      r.nivel,
      r.respuestas)
  }

  /** The summary of one group, recomputed from that group's own rows. */
  function ResumenGrupo(rows: seq<FilaProcesada>, nombre: string, decode: Decoder): Grupo
  {
    var fs := FilasDeGrupo(rows, nombre);
    Grupo(
      nombre,
      seq(|fs|, k requires 0 <= k < |fs| => AlumnoDe(fs[k], decode)),
      TasasDe(AciertosReactivos(fs), IntentosReactivos(fs)),
      CuentaNivel(fs, RequiereApoyo),
      CuentaNivel(fs, EnDesarrollo),
      CuentaNivel(fs, Esperado),
      |fs|)
  }

  function Resumenes(rows: seq<FilaProcesada>, nombres: seq<string>, decode: Decoder): (gs: seq<Grupo>)
    ensures |gs| == |nombres|
    ensures forall k :: 0 <= k < |nombres| ==> gs[k] == ResumenGrupo(rows, nombres[k], decode)
  {
    if nombres == [] then []
    else Resumenes(rows, nombres[..|nombres| - 1], decode) + [ResumenGrupo(rows, nombres[|nombres| - 1], decode)]
  }

  /** The school summary procesarEscuela returns for a non-empty sheet. */
  function EscuelaDe(cct: string, data: seq<Fila>, decode: Decoder): Escuela
    requires data != []
  {
    var rows := ProcesarTodas(data, decode);
    Escuela(
      cct,
      |data|,
      TasasDe(AciertosReactivos(rows), IntentosReactivos(rows)),
      CuentaNivel(rows, RequiereApoyo),
      CuentaNivel(rows, EnDesarrollo),
      CuentaNivel(rows, Esperado),
      Resumenes(rows, NombresGrupos(rows), decode),
      None)
  }

  /** Adds one row's items to the running per-item counters. */
  method SumarFila(ac: array<nat>, tot: array<nat>, row: Fila)
    requires ac.Length == NumReactivos && tot.Length == NumReactivos && ac != tot
    modifies ac, tot
    ensures forall j :: 0 <= j < NumReactivos ==>
              ac[j] == old(ac[j]) + (if Acierto(CeldaAt(row, j + 1)) then 1 else 0) &&
              tot[j] == old(tot[j]) + (if Intentado(CeldaAt(row, j + 1)) then 1 else 0)
  {
    for i := 1 to NumReactivos + 1
      invariant forall j :: 0 <= j < i - 1 ==>
                  ac[j] == old(ac[j]) + (if Acierto(CeldaAt(row, j + 1)) then 1 else 0) &&
                  tot[j] == old(tot[j]) + (if Intentado(CeldaAt(row, j + 1)) then 1 else 0)
      invariant forall j :: i - 1 <= j < NumReactivos ==> ac[j] == old(ac[j]) && tot[j] == old(tot[j])
    {
      SumarCelda(ac, tot, CeldaAt(row, i), i - 1);
    }
  }

  /**
   * One item of a row: with both cells present and the points numeric, the
   * item is attempted, and it is correct when the points are positive and the
   * trimmed mark is "C".
   */
  method SumarCelda(ac: array<nat>, tot: array<nat>, c: Celda, j: nat)
    requires j < ac.Length && j < tot.Length && ac != tot
    modifies ac, tot
    ensures ac[j] == old(ac[j]) + (if Acierto(c) then 1 else 0)
    ensures tot[j] == old(tot[j]) + (if Intentado(c) then 1 else 0)
    ensures forall q :: 0 <= q < ac.Length && q != j ==> ac[q] == old(ac[q])
    ensures forall q :: 0 <= q < tot.Length && q != j ==> tot[q] == old(tot[q])
  {
    if c.mark.Some? && c.points.Num? {
      if c.points.value > 0 && Trim(c.mark.value) == "C" {
        ac[j] := ac[j] + 1;
      }
      tot[j] := tot[j] + 1;
    }
  }

  /** The per-item counting loop over a set of rows, run for the school and for each group. */
  method ContarReactivos(rows: seq<FilaProcesada>) returns (aciertos: seq<nat>, totales: seq<nat>)
    ensures aciertos == AciertosReactivos(rows)
    ensures totales == IntentosReactivos(rows)
  {
    var ac := new nat[NumReactivos](_ => 0);
    var tot := new nat[NumReactivos](_ => 0);
    for k := 0 to |rows|
      invariant forall j :: 0 <= j < NumReactivos ==>
                  ac[j] == AciertosEn(rows[..k], j + 1) && tot[j] == IntentosEn(rows[..k], j + 1)
    {
      assert rows[..k + 1][..k] == rows[..k];
      SumarFila(ac, tot, rows[k].fila);
    }
    assert rows[..|rows|] == rows;
    aciertos := ac[..];
    totales := tot[..];
  }

  /** The row object of the first pass, built field by field. */
  method ProcesarFila(row: Fila, hasQuizClass: bool, decode: Decoder) returns (p: FilaProcesada)
    ensures p == Procesar(row, hasQuizClass, decode)
  {
    var grupo := GrupoDeFila(row, hasQuizClass, decode);
    var porcentaje := CalcularPorcentaje(row);
    var nivel := ObtenerNivel(Some(porcentaje));
    p := FilaProcesada(row, grupo, porcentaje, nivel, Respuestas(row));
  }

  /** The first pass: rows.map(...) while adding each label to gruposSet. */
  method PrimeraPasada(data: seq<Fila>, decode: Decoder) returns (rows: seq<FilaProcesada>, vistos: seq<string>)
    requires data != []
    ensures rows == ProcesarTodas(data, decode)
    ensures vistos == Distintos(Grupos(rows))
  {
    var hasQuizClass := data[0].quizClass.Some?;
    ghost var f := ProcesarCon(hasQuizClass, decode);
    rows := [];
    vistos := [];
    assert Mapear(data[..0], f) == [];
    for k := 0 to |data|
      invariant rows == Mapear(data[..k], f)
      invariant vistos == Distintos(Grupos(rows))
    {
      var p := ProcesarFila(data[k], hasQuizClass, decode);
      assert p == f(data[k]);
      if p.grupo !in vistos {
        vistos := vistos + [p.grupo];
      }
      GruposAppend(rows, p);
      MapearSnoc(data, k, f);
      rows := rows + [p];
    }
    assert data[..|data|] == data;
  }

  lemma GruposAppend(rows: seq<FilaProcesada>, p: FilaProcesada)
    ensures Distintos(Grupos(rows + [p])) ==
            if p.grupo in Distintos(Grupos(rows)) then Distintos(Grupos(rows)) else Distintos(Grupos(rows)) + [p.grupo]
  {
    assert Grupos(rows + [p]) == Grupos(rows) + [p.grupo];
    assert (Grupos(rows) + [p.grupo])[..|rows|] == Grupos(rows);
  }

  /** The tier tallies of the school loop; any tier other than the first two counts as esperado. */
  method ContarNiveles(rows: seq<FilaProcesada>) returns (req: nat, des: nat, esp: nat)
    requires forall k :: 0 <= k < |rows| ==> ConExamen(rows[k].nivel)
    ensures req == CuentaNivel(rows, RequiereApoyo)
    ensures des == CuentaNivel(rows, EnDesarrollo)
    ensures esp == CuentaNivel(rows, Esperado)
  {
    req, des, esp := 0, 0, 0;
    for k := 0 to |rows|
      invariant req == CuentaNivel(rows[..k], RequiereApoyo)
      invariant des == CuentaNivel(rows[..k], EnDesarrollo)
      invariant esp == CuentaNivel(rows[..k], Esperado)
    {
      assert rows[..k + 1][..k] == rows[..k];
      if rows[k].nivel == RequiereApoyo {
        req := req + 1;
      } else if rows[k].nivel == EnDesarrollo {
        des := des + 1;
      } else {
        esp := esp + 1;
      }
    }
    assert rows[..|rows|] == rows;
  }

  /** grupos.map(...): one summary per group name. */
  method ResumirGrupos(rows: seq<FilaProcesada>, grupos: seq<string>, decode: Decoder) returns (resumenes: seq<Grupo>)
    ensures resumenes == Resumenes(rows, grupos, decode)
  {
    resumenes := [];
    for k := 0 to |grupos|
      invariant resumenes == Resumenes(rows, grupos[..k], decode)
    {
      assert grupos[..k + 1][..k] == grupos[..k];
      var nombre := grupos[k];
      var alumnosGrupo := FilasDeGrupo(rows, nombre);
      var aciertosG, totalesG := ContarReactivos(alumnosGrupo);
      var alumnos := seq(|alumnosGrupo|, j requires 0 <= j < |alumnosGrupo| => AlumnoDe(alumnosGrupo[j], decode));
      resumenes := resumenes + [Grupo(
        nombre,
        alumnos,
        TasasDe(aciertosG, totalesG),
        CuentaNivel(alumnosGrupo, RequiereApoyo),
        CuentaNivel(alumnosGrupo, EnDesarrollo),
        CuentaNivel(alumnosGrupo, Esperado),
        |alumnosGrupo|)];
    }
    assert grupos[..|grupos|] == grupos;
  }

  /** procesarEscuela over the rows of the first sheet: None for an empty sheet. */
  method ProcesarEscuela(cct: string, data: seq<Fila>, decode: Decoder) returns (r: Option<Escuela>)
    ensures data == [] ==> r == None
    ensures data != [] ==> r == Some(EscuelaDe(cct, data, decode))
  {
    if |data| == 0 {
      return None;
    }
    var rows, vistos := PrimeraPasada(data, decode);
    var ordenados := SortBy(SinVacios(vistos), Id);
    var grupos := if ordenados == [] then ["UNICO"] else ordenados;
    var aciertosEsc, totalesEsc := ContarReactivos(rows);
    var req, des, esp := ContarNiveles(rows);
    var resumenes := ResumirGrupos(rows, grupos, decode);
    r := Some(Escuela(cct, |rows|, TasasDe(aciertosEsc, totalesEsc), req, des, esp, resumenes, None));
  }

  // ---- Properties of the summary ----

  /** Every row has one of the three exam tiers, so the tiers add up to the row count. */
  lemma {:induction false} NivelesSuman(rows: seq<FilaProcesada>)
    requires forall k :: 0 <= k < |rows| ==> ConExamen(rows[k].nivel)
    ensures CuentaNivel(rows, RequiereApoyo) + CuentaNivel(rows, EnDesarrollo) + CuentaNivel(rows, Esperado) == |rows|
  {
    if rows != [] {
      NivelesSuman(rows[..|rows| - 1]);
    }
  }

  /** School tallies: requiereApoyo + enDesarrollo + esperado == totalEstudiantes == number of rows. */
  lemma EscuelaTotales(cct: string, data: seq<Fila>, decode: Decoder)
    requires data != []
    ensures var e := EscuelaDe(cct, data, decode);
      e.requiereApoyo + e.enDesarrollo + e.esperado == e.totalEstudiantes == |data|
  {
    NivelesSuman(ProcesarTodas(data, decode));
  }

  lemma {:induction false} AciertosBelowIntentos(rows: seq<FilaProcesada>, i: nat)
    ensures AciertosEn(rows, i) <= IntentosEn(rows, i) <= |rows|
  {
    if rows != [] {
      AciertosBelowIntentos(rows[..|rows| - 1], i);
    }
  }

  /** Item rates are twelve values in [0, 100.0]; an item nobody attempted has rate 0. */
  lemma TasasRango(rows: seq<FilaProcesada>)
    ensures var t := TasasDe(AciertosReactivos(rows), IntentosReactivos(rows));
      |t| == NumReactivos &&
      (forall j :: 0 <= j < NumReactivos ==> 0 <= t[j] <= 1000) &&
      (forall j :: 0 <= j < NumReactivos && IntentosEn(rows, j + 1) == 0 ==> t[j] == 0)
  {
    var t := TasasDe(AciertosReactivos(rows), IntentosReactivos(rows));
    forall j | 0 <= j < NumReactivos ensures t[j] <= 1000 {
      AciertosBelowIntentos(rows, j + 1);
      TenthsRange(AciertosEn(rows, j + 1), IntentosEn(rows, j + 1));
    }
  }

  /**
   * An item with a mark and numeric points enters the item rate; the student
   * percentage counts it only when it is correct or scored zero, so a positive
   * non-"C" item or a negative one is in the rate's denominator but not in the
   * student's.
   */
  lemma DenominadoresReactivo(c: Celda)
    ensures CuentaParaAlumno(c) ==> Intentado(c)
    ensures Intentado(c) && !CuentaParaAlumno(c) <==>
              c.mark.Some? && c.points.Num? &&
              (c.points.value < 0 || (c.points.value > 0 && Trim(c.mark.value) != "C"))
  {
  }

  /**
   * Group names are never empty as a list, never contain "", are strictly
   * ascending, and are exactly the non-empty labels of the rows, or just
   * "UNICO" when every row has the empty label.
   */
  lemma NombresGruposOrdenados(rows: seq<FilaProcesada>)
    ensures NombresGrupos(rows) != []
    ensures "" !in NombresGrupos(rows)
    ensures StrictlySortedBy(NombresGrupos(rows), Id)
    ensures (exists k :: 0 <= k < |rows| && rows[k].grupo != "") ==>
              forall g :: g in NombresGrupos(rows) <==> g != "" && g in Grupos(rows)
    ensures (forall k :: 0 <= k < |rows| ==> rows[k].grupo == "") ==> NombresGrupos(rows) == ["UNICO"]
  {
    var xs := SinVacios(Distintos(Grupos(rows)));
    SinVaciosSinRepetidos(Distintos(Grupos(rows)));
    OrdenarNombres(xs);
    assert xs != [] ==> xs[0] in Distintos(Grupos(rows));
    if exists k :: 0 <= k < |rows| && rows[k].grupo != "" {
      var k :| 0 <= k < |rows| && rows[k].grupo != "";
      assert Grupos(rows)[k] in xs;
    }
  }

  lemma OrdenarNombres(xs: seq<string>)
    requires SinRepetidos(xs)
    ensures StrictlySortedBy(SortBy(xs, Id), Id)
    ensures forall g :: g in SortBy(xs, Id) <==> g in xs
  {
    assert DistinctKeys(xs, Id);
    SortByCorrect(xs, Id);
    var sorted := SortBy(xs, Id);
    forall g ensures g in sorted <==> g in xs {
      assert g in sorted <==> g in multiset(sorted);
    }
  }

  /** Every student of a group carries that group's name; the tiers add up to the group total. */
  lemma ResumenGrupoCorrecto(rows: seq<FilaProcesada>, nombre: string, decode: Decoder)
    requires forall k :: 0 <= k < |rows| ==> ConExamen(rows[k].nivel)
    ensures var g := ResumenGrupo(rows, nombre, decode);
      g.total == |g.alumnos| == CuentaEn(rows, {nombre}) &&
      (forall k :: 0 <= k < |g.alumnos| ==> g.alumnos[k].grupo == nombre) &&
      g.requiereApoyo + g.enDesarrollo + g.esperado == g.total
  {
    var fs := FilasDeGrupo(rows, nombre);
    forall k | 0 <= k < |fs| ensures ConExamen(fs[k].nivel) {
      assert fs[k] in rows;
    }
    NivelesSuman(fs);
  }

  lemma {:induction false} CuentaEnUnion(rows: seq<FilaProcesada>, s: set<string>, g: string)
    requires g !in s
    ensures CuentaEn(rows, s + {g}) == CuentaEn(rows, s) + CuentaEn(rows, {g})
  {
    if rows != [] {
      CuentaEnUnion(rows[..|rows| - 1], s, g);
    }
  }

  /** When every row's label is in s or empty, and "" is not in s, the rows split into those two parts. */
  lemma {:induction false} CuentaEnTodas(rows: seq<FilaProcesada>, s: set<string>)
    requires "" !in s
    requires forall k :: 0 <= k < |rows| ==> rows[k].grupo in s || rows[k].grupo == ""
    ensures CuentaEn(rows, s) + CuentaEn(rows, {""}) == |rows|
  {
    if rows != [] {
      CuentaEnTodas(rows[..|rows| - 1], s);
    }
  }

  /** The group summaries list as many students as there are rows with one of their names. */
  lemma {:induction false} AlumnosEnResumenes(rows: seq<FilaProcesada>, nombres: seq<string>, decode: Decoder)
    requires SinRepetidos(nombres)
    ensures AlumnosEn(Resumenes(rows, nombres, decode)) == CuentaEn(rows, set g | g in nombres)
  {
    if nombres != [] {
      var n := |nombres| - 1;
      var init := nombres[..n];
      AlumnosEnResumenes(rows, init, decode);
      AlumnosEnSnoc(Resumenes(rows, init, decode), ResumenGrupo(rows, nombres[n], decode));
      FrenteUltimo(nombres);
      ElementosSnoc(init, nombres[n]);
      assert nombres[n] !in (set g | g in init);
      CuentaEnUnion(rows, (set g | g in init), nombres[n]);
    } else {
      assert (set g: string | g in nombres) == {};
      CuentaVacia(rows);
    }
  }

  lemma {:induction false} CuentaVacia(rows: seq<FilaProcesada>)
    ensures CuentaEn(rows, {}) == 0
  {
    if rows != [] {
      CuentaVacia(rows[..|rows| - 1]);
    }
  }

  /**
   * A row whose label normalises to "" counts in the school total but in no
   * group: the groups hold exactly the other rows.
   */
  lemma AlumnosEnGrupos(cct: string, data: seq<Fila>, decode: Decoder)
    requires data != []
    ensures var e := EscuelaDe(cct, data, decode);
      AlumnosEn(e.grupos) + CuentaEn(ProcesarTodas(data, decode), {""}) == e.totalEstudiantes
  {
    AlumnosEnFilas(ProcesarTodas(data, decode), decode);
  }

  /** The same count for any processed rows: grouped students plus ungrouped rows make all rows. */
  lemma AlumnosEnFilas(rows: seq<FilaProcesada>, decode: Decoder)
    ensures AlumnosEn(Resumenes(rows, NombresGrupos(rows), decode)) + CuentaEn(rows, {""}) == |rows|
  {
    var ns := NombresGrupos(rows);
    NombresSinRepetidos(rows);
    AlumnosEnResumenes(rows, ns, decode);
    GruposCubiertos(rows);
    CuentaEnTodas(rows, set g | g in ns);
  }

  /** The group names are pairwise distinct. */
  lemma NombresSinRepetidos(rows: seq<FilaProcesada>)
    ensures SinRepetidos(NombresGrupos(rows))
  {
    var ns := NombresGrupos(rows);
    NombresGruposOrdenados(rows);
    forall i, j | 0 <= i < j < |ns| ensures ns[i] != ns[j] {
      EstrictoDistintos(ns, Id, i, j);
    }
  }

  /** Every row with a group label has it among the group names. */
  lemma GruposCubiertos(rows: seq<FilaProcesada>)
    ensures "" !in (set g | g in NombresGrupos(rows))
    ensures forall k :: 0 <= k < |rows| ==> rows[k].grupo in (set g | g in NombresGrupos(rows)) || rows[k].grupo == ""
  {
    var ns := NombresGrupos(rows);
    NombresGruposOrdenados(rows);
    forall k | 0 <= k < |rows| ensures rows[k].grupo in ns || rows[k].grupo == "" {
      if rows[k].grupo != "" {
        assert Grupos(rows)[k] == rows[k].grupo;
      }
    }
  }
}
