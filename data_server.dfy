// lib/data-server.ts: the server-side reads of the result tree. Reading and
// parsing resultados.json is left out: the parsed file (or the failure to read
// it) is an input, and the typing of the parsed value as a result tree is a
// parameter.

module DataServer {
  import opened Base
  import opened RafTypes
  import opened Utf8Fix

  /** The typing of the parsed and repaired JSON value as the list of schools (`as ResultadosRAF`). */
  type Interpretar = Json -> seq<Escuela>

  /**
   * loadSync: the schools of the parsed file after fixObjectStrings; no school
   * at all when the file could not be read or parsed (`archivo` is None).
   */
  function LoadSync(archivo: Option<Json>, decode: Decoder, como: Interpretar): (escuelas: seq<Escuela>)
    ensures archivo.None? ==> escuelas == []
  {
    if archivo.None? then [] else como(FixJson(archivo.value, decode))
  }

  /**
   * Every string of the file goes through the repair: a file whose strings
   * hold none of the five digraphs, under a decoder that never changes text,
   * is read exactly as written.
   */
  lemma LoadSyncLimpio(j: Json, decode: Decoder, como: Interpretar)
    requires forall s :: decode(s) == Some(s) || decode(s) == None
    requires NoDigraphs(j)
    ensures LoadSync(Some(j), decode, como) == como(j)
  {
    FixJsonIdentity(j, decode);
  }

  // ---- getEscuelaSync ----

  /** getEscuelaSync: `escuelas.find(e => e.cct === cct) ?? null`. */
  function GetEscuelaSync(escuelas: seq<Escuela>, cct: string): (r: Option<Escuela>)
    ensures r.None? <==> forall k :: 0 <= k < |escuelas| ==> escuelas[k].cct != cct
    ensures r.Some? ==> exists k :: 0 <= k < |escuelas| && escuelas[k] == r.value && r.value.cct == cct &&
                                    forall k' :: 0 <= k' < k ==> escuelas[k'].cct != cct
  {
    if escuelas == [] then None
    else if escuelas[0].cct == cct then
      assert escuelas[0] == escuelas[0];
      Some(escuelas[0])
    else
      var r := GetEscuelaSync(escuelas[1..], cct);
      assert forall k :: 1 <= k < |escuelas| ==> escuelas[k] == escuelas[1..][k - 1];
      r
  }

  // ---- getAlumnosPorNivelSync ----

  /** The student fields a row of getAlumnosPorNivelSync carries: the answers are dropped. */
  datatype AlumnoBreve = AlumnoBreve(nombre: string, apellido: string, grupo: string, porcentaje: Option<int>, nivel: Nivel)

  /** One row: the student and the cct of the school that lists it. */
  datatype Fila = Fila(alumno: AlumnoBreve, cct: string)

  function FilaDe(a: Alumno, cct: string): Fila
  {
    Fila(AlumnoBreve(a.nombre, a.apellido, a.grupo, a.porcentaje, a.nivel), cct)
  }

  /** The rows of one group's students with tier n, in order. */
  function FilasAlumnos(cct: string, alus: seq<Alumno>, n: Nivel): seq<Fila>
  {
    if alus == [] then []
    else
      var a := alus[|alus| - 1];
      FilasAlumnos(cct, alus[..|alus| - 1], n) + (if a.nivel == n then [FilaDe(a, cct)] else [])
  }

  function FilasGrupos(cct: string, grupos: seq<Grupo>, n: Nivel): seq<Fila>
  {
    if grupos == [] then []
    else FilasGrupos(cct, grupos[..|grupos| - 1], n) + FilasAlumnos(cct, grupos[|grupos| - 1].alumnos, n)
  }

  /** The rows of getAlumnosPorNivelSync(n), in school, group and student order. */
  function FilasEscuelas(escuelas: seq<Escuela>, n: Nivel): seq<Fila>
  {
    if escuelas == [] then []
    else
      var e := escuelas[|escuelas| - 1];
      FilasEscuelas(escuelas[..|escuelas| - 1], n) + FilasGrupos(e.cct, e.grupos, n)
  }

  /** The innermost loop of getAlumnosPorNivelSync: one group's students with tier `nivel`, appended to `out`. */
  method AgregarAlumnos(out0: seq<Fila>, cct: string, alus: seq<Alumno>, nivel: Nivel) returns (out: seq<Fila>)
    ensures out == out0 + FilasAlumnos(cct, alus, nivel)
  {
    out := out0;
    assert alus[..0] == [];
    for j := 0 to |alus|
      invariant out == out0 + FilasAlumnos(cct, alus[..j], nivel)
    {
      var a := alus[j];
      assert alus[..j + 1][..j] == alus[..j];
      if a.nivel == nivel {
        out := out + [Fila(AlumnoBreve(a.nombre, a.apellido, a.grupo, a.porcentaje, a.nivel), cct)];
      }
    }
    assert alus[..|alus|] == alus;
  }

  /** The middle loop of getAlumnosPorNivelSync: one school's groups. */
  method AgregarGrupos(out0: seq<Fila>, cct: string, grupos: seq<Grupo>, nivel: Nivel) returns (out: seq<Fila>)
    ensures out == out0 + FilasGrupos(cct, grupos, nivel)
  {
    out := out0;
    assert grupos[..0] == [];
    for k := 0 to |grupos|
      invariant out == out0 + FilasGrupos(cct, grupos[..k], nivel)
    {
      assert grupos[..k + 1][..k] == grupos[..k];
      out := AgregarAlumnos(out, cct, grupos[k].alumnos, nivel);
    }
    assert grupos[..|grupos|] == grupos;
  }

  /** getAlumnosPorNivelSync over the loaded schools: the outer loop of the three. */
  method GetAlumnosPorNivelSync(escuelas: seq<Escuela>, nivel: Nivel) returns (out: seq<Fila>)
    ensures out == FilasEscuelas(escuelas, nivel)
  {
    out := [];
    assert escuelas[..0] == [];
    for s := 0 to |escuelas|
      invariant out == FilasEscuelas(escuelas[..s], nivel)
    {
      assert escuelas[..s + 1][..s] == escuelas[..s];
      out := AgregarGrupos(out, escuelas[s].cct, escuelas[s].grupos, nivel);
    }
    assert escuelas[..|escuelas|] == escuelas;
  }

  // ---- Properties ----

  /** Students of a list with tier n. */
  function ConNivel(alus: seq<Alumno>, n: Nivel): nat
  {
    if alus == [] then 0
    else ConNivel(alus[..|alus| - 1], n) + (if alus[|alus| - 1].nivel == n then 1 else 0)
  }

  /** A row of a group's list is one of its students with tier n, with the given cct, and nothing else. */
  lemma {:induction false} FilasAlumnosCorrectas(cct: string, alus: seq<Alumno>, n: Nivel)
    ensures |FilasAlumnos(cct, alus, n)| == ConNivel(alus, n)
    ensures forall f :: f in FilasAlumnos(cct, alus, n) <==> exists j :: 0 <= j < |alus| && alus[j].nivel == n && f == FilaDe(alus[j], cct)
  {
    if alus != [] {
      var m := |alus| - 1;
      FilasAlumnosCorrectas(cct, alus[..m], n);
      forall f ensures f in FilasAlumnos(cct, alus, n) <==> exists j :: 0 <= j < |alus| && alus[j].nivel == n && f == FilaDe(alus[j], cct) {
        if exists j :: 0 <= j < |alus| && alus[j].nivel == n && f == FilaDe(alus[j], cct) {
          var j :| 0 <= j < |alus| && alus[j].nivel == n && f == FilaDe(alus[j], cct);
          if j < m {
            assert alus[..m][j] == alus[j];
          }
        }
        if f in FilasAlumnos(cct, alus[..m], n) {
          var j :| 0 <= j < m && alus[..m][j].nivel == n && f == FilaDe(alus[..m][j], cct);
          assert alus[j] == alus[..m][j];
        }
      }
    }
  }

  /**
   * Every row of a school's groups is a student of one of them with tier n and
   * the school's cct, and every such student has its row.
   */
  lemma FilasGruposCorrectas(cct: string, grupos: seq<Grupo>, n: Nivel)
    ensures forall f :: f in FilasGrupos(cct, grupos, n) <==>
              exists k, j :: 0 <= k < |grupos| && 0 <= j < |grupos[k].alumnos| &&
                             grupos[k].alumnos[j].nivel == n && f == FilaDe(grupos[k].alumnos[j], cct)
  {
    forall k | 0 <= k < |grupos| {
      FilasAlumnosCorrectas(cct, grupos[k].alumnos, n);
    }
    forall f ensures f in FilasGrupos(cct, grupos, n) <==> exists k :: 0 <= k < |grupos| && f in FilasAlumnos(cct, grupos[k].alumnos, n) {
      FilaEnGrupos(cct, grupos, n, f);
    }
  }

  /** A row is listed for the groups exactly when one group lists it. */
  lemma {:induction false} FilaEnGrupos(cct: string, grupos: seq<Grupo>, n: Nivel, f: Fila)
    ensures f in FilasGrupos(cct, grupos, n) <==> exists k :: 0 <= k < |grupos| && f in FilasAlumnos(cct, grupos[k].alumnos, n)
  {
    if grupos != [] {
      var m := |grupos| - 1;
      FilaEnGrupos(cct, grupos[..m], n, f);
      FrenteUltimo(grupos);
      AlgunoSnoc(grupos[..m], grupos[m], (g: Grupo) => f in FilasAlumnos(cct, g.alumnos, n));
    }
  }

  /**
   * getAlumnosPorNivelSync(n) lists exactly the students whose tier is n: a
   * row is listed if and only if it is the row of such a student of some
   * school, carrying that school's cct, and the list holds one row per such
   * student.
   */
  lemma FilasEscuelasCorrectas(escuelas: seq<Escuela>, n: Nivel)
    ensures forall f :: f in FilasEscuelas(escuelas, n) <==>
              exists s, k, j :: 0 <= s < |escuelas| && 0 <= k < |escuelas[s].grupos| && 0 <= j < |escuelas[s].grupos[k].alumnos| &&
                                escuelas[s].grupos[k].alumnos[j].nivel == n && f == FilaDe(escuelas[s].grupos[k].alumnos[j], escuelas[s].cct)
    ensures |FilasEscuelas(escuelas, n)| == ConNivelEscuelas(escuelas, n)
  {
    FilasEscuelasDelNivel(escuelas, n);
    FilasEscuelasCompletas(escuelas, n);
    FilasEscuelasTamano(escuelas, n);
  }

  /** Students of tier n over a list of groups. */
  function ConNivelGrupos(grupos: seq<Grupo>, n: Nivel): nat
  {
    if grupos == [] then 0
    else ConNivelGrupos(grupos[..|grupos| - 1], n) + ConNivel(grupos[|grupos| - 1].alumnos, n)
  }

  /** Students of tier n over every group of every school. */
  function ConNivelEscuelas(escuelas: seq<Escuela>, n: Nivel): nat
  {
    if escuelas == [] then 0
    else ConNivelEscuelas(escuelas[..|escuelas| - 1], n) + ConNivelGrupos(escuelas[|escuelas| - 1].grupos, n)
  }

  /** A school contributes one row per student of tier n in its groups. */
  lemma {:induction false} FilasGruposTamano(cct: string, grupos: seq<Grupo>, n: Nivel)
    ensures |FilasGrupos(cct, grupos, n)| == ConNivelGrupos(grupos, n)
  {
    if grupos != [] {
      FilasGruposTamano(cct, grupos[..|grupos| - 1], n);
      FilasAlumnosCorrectas(cct, grupos[|grupos| - 1].alumnos, n);
    }
  }

  /** The whole listing holds one row per student of tier n of every school. */
  lemma {:induction false} FilasEscuelasTamano(escuelas: seq<Escuela>, n: Nivel)
    ensures |FilasEscuelas(escuelas, n)| == ConNivelEscuelas(escuelas, n)
  {
    if escuelas != [] {
      var e := escuelas[|escuelas| - 1];
      FilasEscuelasTamano(escuelas[..|escuelas| - 1], n);
      FilasGruposTamano(e.cct, e.grupos, n);
    }
  }

  /** Every listed row is the row of a student of tier n of some school, with that school's cct. */
  lemma {:induction false} FilasEscuelasDelNivel(escuelas: seq<Escuela>, n: Nivel)
    ensures forall f :: f in FilasEscuelas(escuelas, n) ==>
              exists s, k, j :: 0 <= s < |escuelas| && 0 <= k < |escuelas[s].grupos| && 0 <= j < |escuelas[s].grupos[k].alumnos| &&
                                escuelas[s].grupos[k].alumnos[j].nivel == n && f == FilaDe(escuelas[s].grupos[k].alumnos[j], escuelas[s].cct)
  {
    if escuelas != [] {
      var m := |escuelas| - 1;
      var e := escuelas[m];
      FilasEscuelasDelNivel(escuelas[..m], n);
      FilasGruposCorrectas(e.cct, e.grupos, n);
      forall f | f in FilasEscuelas(escuelas, n)
        ensures exists s, k, j :: 0 <= s < |escuelas| && 0 <= k < |escuelas[s].grupos| && 0 <= j < |escuelas[s].grupos[k].alumnos| &&
                                  escuelas[s].grupos[k].alumnos[j].nivel == n && f == FilaDe(escuelas[s].grupos[k].alumnos[j], escuelas[s].cct)
      {
        if f in FilasEscuelas(escuelas[..m], n) {
          var s, k, j :| 0 <= s < m && 0 <= k < |escuelas[..m][s].grupos| && 0 <= j < |escuelas[..m][s].grupos[k].alumnos| &&
                         escuelas[..m][s].grupos[k].alumnos[j].nivel == n && f == FilaDe(escuelas[..m][s].grupos[k].alumnos[j], escuelas[..m][s].cct);
          assert escuelas[s] == escuelas[..m][s];
        } else {
          assert f in FilasGrupos(e.cct, e.grupos, n);
          var k, j :| 0 <= k < |e.grupos| && 0 <= j < |e.grupos[k].alumnos| &&
                      e.grupos[k].alumnos[j].nivel == n && f == FilaDe(e.grupos[k].alumnos[j], e.cct);
          assert escuelas[m] == e;
        }
      }
    }
  }

  /** Every student of tier n of every school has its row. */
  lemma {:induction false} FilasEscuelasCompletas(escuelas: seq<Escuela>, n: Nivel)
    ensures forall s, k, j :: 0 <= s < |escuelas| && 0 <= k < |escuelas[s].grupos| && 0 <= j < |escuelas[s].grupos[k].alumnos| &&
              escuelas[s].grupos[k].alumnos[j].nivel == n
              ==> FilaDe(escuelas[s].grupos[k].alumnos[j], escuelas[s].cct) in FilasEscuelas(escuelas, n)
  {
    if escuelas != [] {
      var m := |escuelas| - 1;
      var e := escuelas[m];
      FilasEscuelasCompletas(escuelas[..m], n);
      FilasGruposCorrectas(e.cct, e.grupos, n);
      forall s, k, j | 0 <= s < |escuelas| && 0 <= k < |escuelas[s].grupos| && 0 <= j < |escuelas[s].grupos[k].alumnos| &&
                       escuelas[s].grupos[k].alumnos[j].nivel == n
        ensures FilaDe(escuelas[s].grupos[k].alumnos[j], escuelas[s].cct) in FilasEscuelas(escuelas, n)
      {
        if s < m {
          assert escuelas[..m][s] == escuelas[s];
        } else {
          assert FilaDe(e.grupos[k].alumnos[j], e.cct) in FilasGrupos(e.cct, e.grupos, n);
        }
      }
    }
  }

  /** The four tiers split a group's students: the lists for each tier add up to the group. */
  lemma {:induction false} NivelesParten(cct: string, alus: seq<Alumno>)
    ensures |FilasAlumnos(cct, alus, RequiereApoyo)| + |FilasAlumnos(cct, alus, EnDesarrollo)| +
            |FilasAlumnos(cct, alus, Esperado)| + |FilasAlumnos(cct, alus, SinExamen)| == |alus|
  {
    if alus != [] {
      NivelesParten(cct, alus[..|alus| - 1]);
    }
  }
}
