// The result tree of the dashboard (students, groups, schools) as stored in
// resultados.json. Percentages are kept as integer tenths: 87.5 % is 875.

module RafTypes {
  import opened Base

  /** Number of exam items ("reactivos") per student. */
  const NumReactivos: nat := 12

  datatype Nivel = RequiereApoyo | EnDesarrollo | Esperado | SinExamen

  /** The three tiers a graded exam can produce. */
  predicate ConExamen(n: Nivel)
  {
    n != SinExamen
  }

  /**
   * The tally a tier falls into where the scripts test only the first two
   * tiers and count everything else as esperado.
   */
  function Tramo(n: Nivel): (t: Nivel)
    ensures ConExamen(t)
    ensures ConExamen(n) ==> t == n
    ensures n == SinExamen ==> t == Esperado
  {
    if n == RequiereApoyo then RequiereApoyo
    else if n == EnDesarrollo then EnDesarrollo
    else Esperado
  }

  datatype Alumno = Alumno(
    nombre: string,
    apellido: string,
    grupo: string,
    porcentaje: Option<int>,
    nivel: Nivel,
    respuestas: seq<string>)

  datatype Grupo = Grupo(
    nombre: string,
    alumnos: seq<Alumno>,
    porcentajesReactivos: seq<int>,
    requiereApoyo: nat,
    enDesarrollo: nat,
    esperado: nat,
    total: nat)

  /** School directory data merged from the "Buscador de Escuelas" sheet; absent fields are None. */
  datatype Buscador = Buscador(
    nombre: Option<string>,
    turno: Option<string>,
    nivelEducativo: Option<string>,
    zona: Option<string>,
    domicilio: Option<string>,
    telefono: Option<string>,
    colonia: Option<string>,
    localidad: Option<string>,
    municipio: Option<string>)

  datatype Escuela = Escuela(
    cct: string,
    totalEstudiantes: int,
    porcentajesReactivos: seq<int>,
    requiereApoyo: nat,
    enDesarrollo: nat,
    esperado: nat,
    grupos: seq<Grupo>,
    buscador: Option<Buscador>)

  /** Total number of students listed in a sequence of groups. */
  function AlumnosEn(grupos: seq<Grupo>): nat
  {
    if grupos == [] then 0
    else AlumnosEn(grupos[..|grupos| - 1]) + |grupos[|grupos| - 1].alumnos|
  }

  /** One more group adds its students. */
  lemma AlumnosEnSnoc(grupos: seq<Grupo>, g: Grupo)
    ensures AlumnosEn(grupos + [g]) == AlumnosEn(grupos) + |g.alumnos|
  {
    assert (grupos + [g])[..|grupos|] == grupos;
  }

  /** Sum of the per-group field `f` over a sequence of groups. */
  function SumGrupos(grupos: seq<Grupo>, f: Grupo -> nat): nat
  {
    if grupos == [] then 0
    else SumGrupos(grupos[..|grupos| - 1], f) + f(grupos[|grupos| - 1])
  }
}
