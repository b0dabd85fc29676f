// scripts/fix-grupos-resultados.mjs: within every school of the result tree,
// the groups are renamed to their normalised code, groups that end up with the
// same code are merged, and each merged group is re-tallied from its students.
// The file reading and writing is left out; the schools are an array updated
// in place.

module FixGrupos {
  import opened Base
  import opened JsString
  import opened RafTypes
  import opened Score
  import opened Sorting
  import opened GrupoNorm
  import ParseExcel

  /** The renaming applied to a group name. */
  type Normalizador = string -> string

  /** normalizarGrupo applied to a group's `nombre` field. */
  function NormalizarNombre(nombre: string): (r: string)
    ensures |r| <= 10
  {
    NormalizarGrupo(Some(nombre))
  }

  // ---- alumnosByGrupo ----

  /**
   * The students of a group, each paired with the group's new name. (The
   * script also normalises each student's own `grupo` field here, but the
   * output overwrites that field with the group's name, so it is not kept.)
   */
  function ParesDe(g: Grupo, norm: Normalizador): (ps: seq<(string, Alumno)>)
    ensures |ps| == |g.alumnos|
    ensures forall j :: 0 <= j < |ps| ==> ps[j] == (norm(g.nombre), g.alumnos[j])
  {
    seq(|g.alumnos|, j requires 0 <= j < |g.alumnos| => (norm(g.nombre), g.alumnos[j]))
  }

  /** Every student of the school with its new group name, in group then student order. */
  function Pares(grupos: seq<Grupo>, norm: Normalizador): seq<(string, Alumno)>
  {
    if grupos == [] then []
    else Pares(grupos[..|grupos| - 1], norm) + ParesDe(grupos[|grupos| - 1], norm)
  }

  /**
   * The Map alumnosByGrupo: its keys in insertion order, and the list stored
   * under each key.
   */
  datatype Cubetas = Cubetas(orden: seq<string>, listas: map<string, seq<Alumno>>)

  /** `if (!has(n)) set(n, []); get(n).push(a)`. */
  function Anadir(c: Cubetas, n: string, a: Alumno): Cubetas
  {
    if n in c.listas then Cubetas(c.orden, c.listas[n := c.listas[n] + [a]])
    else Cubetas(c.orden + [n], c.listas[n := [a]])
  }

  /** The Map after pushing every pair in order. */
  function Agrupar(ps: seq<(string, Alumno)>): Cubetas
  {
    if ps == [] then Cubetas([], map[])
    else Anadir(Agrupar(ps[..|ps| - 1]), ps[|ps| - 1].0, ps[|ps| - 1].1)
  }

  /** The students paired with name n, in order. */
  function Filtrar(ps: seq<(string, Alumno)>, n: string): seq<Alumno>
  {
    if ps == [] then []
    else Filtrar(ps[..|ps| - 1], n) + (if ps[|ps| - 1].0 == n then [ps[|ps| - 1].1] else [])
  }

  /** The keys listed once each, exactly the keys of the map. */
  ghost predicate BienFormadas(c: Cubetas)
  {
    && (forall i, j :: 0 <= i < j < |c.orden| ==> c.orden[i] != c.orden[j])
    && (forall n :: n in c.listas <==> n in c.orden)
  }

  /** Sum of the list lengths, over the keys in insertion order. */
  function Tamano(orden: seq<string>, listas: map<string, seq<Alumno>>): nat
  {
    if orden == [] then 0
    else
      var n := orden[|orden| - 1];
      Tamano(orden[..|orden| - 1], listas) + (if n in listas then |listas[n]| else 0)
  }

  // ---- The regrouped summary ----

  /** Students whose answer list reaches item i (0-based): the item's denominator. */
  function IntentosItem(alus: seq<Alumno>, i: nat): nat
  {
    if alus == [] then 0
    else IntentosItem(alus[..|alus| - 1], i) + (if i < |alus[|alus| - 1].respuestas| then 1 else 0)
  }

  /** Whether answer i, trimmed, is "C". */
  predicate CorrectaEn(a: Alumno, i: nat)
  {
    i < |a.respuestas| && Trim(a.respuestas[i]) == "C"
  }

  /** Students whose trimmed answer i is "C": the item's numerator. */
  function AciertosItem(alus: seq<Alumno>, i: nat): nat
  {
    if alus == [] then 0
    else AciertosItem(alus[..|alus| - 1], i) + (if CorrectaEn(alus[|alus| - 1], i) then 1 else 0)
  }

  /** `alumnos.filter(r => r.nivel === n).length`. */
  function ConNivel(alus: seq<Alumno>, n: Nivel): nat
  {
    if alus == [] then 0
    else ConNivel(alus[..|alus| - 1], n) + (if alus[|alus| - 1].nivel == n then 1 else 0)
  }

  /** The students of a merged group, each carrying the group's name. */
  function Renombrados(nombre: string, alus: seq<Alumno>): (r: seq<Alumno>)
    ensures |r| == |alus|
    ensures forall j :: 0 <= j < |alus| ==> r[j] == alus[j].(grupo := nombre)
  {
    seq(|alus|, j requires 0 <= j < |alus| => alus[j].(grupo := nombre))
  }

  /** The group summary rebuilt from the students of one Map entry. */
  function Resumir(nombre: string, alus: seq<Alumno>): Grupo
  {
    Grupo(
      nombre,
      Renombrados(nombre, alus),
      ParseExcel.TasasDe(seq(NumReactivos, i requires 0 <= i < NumReactivos => AciertosItem(alus, i)),
                         seq(NumReactivos, i requires 0 <= i < NumReactivos => IntentosItem(alus, i))),
      ConNivel(alus, RequiereApoyo),
      ConNivel(alus, EnDesarrollo),
      ConNivel(alus, Esperado),
      |alus|)
  }

  /** nuevosGrupos: one summary per Map entry, in insertion order. */
  function Resumenes(c: Cubetas): (gs: seq<Grupo>)
    requires BienFormadas(c)
    ensures |gs| == |c.orden|
    ensures forall k :: 0 <= k < |gs| ==> gs[k] == Resumir(c.orden[k], c.listas[c.orden[k]])
  {
    seq(|c.orden|, k requires 0 <= k < |c.orden| => Resumir(c.orden[k], c.listas[c.orden[k]]))
  }

  function NombreDe(g: Grupo): string
  {
    g.nombre
  }

  /** The new `esc.grupos`: the summaries sorted by name. */
  function GruposCorregidos(grupos: seq<Grupo>, norm: Normalizador): seq<Grupo>
  {
    var c := Agrupar(Pares(grupos, norm));
    AgruparBienFormadas(Pares(grupos, norm));
    SortBy(Resumenes(c), NombreDe)
  }

  // ---- Properties of the Map ----

  /** Pushing keeps the keys distinct and in step with the map; the pushed key is present afterwards. */
  lemma AnadirBienFormadas(c: Cubetas, n: string, a: Alumno)
    requires BienFormadas(c)
    ensures BienFormadas(Anadir(c, n, a)) && n in Anadir(c, n, a).listas
  {
  }

  lemma {:induction false} AgruparBienFormadas(ps: seq<(string, Alumno)>)
    ensures BienFormadas(Agrupar(ps))
  {
    if ps != [] {
      AgruparBienFormadas(ps[..|ps| - 1]);
      AnadirBienFormadas(Agrupar(ps[..|ps| - 1]), ps[|ps| - 1].0, ps[|ps| - 1].1);
    }
  }

  /**
   * The Map holds, under each key, exactly the students paired with that key,
   * in their original order; its keys are exactly the names that occur; no
   * stored list is empty.
   */
  lemma {:induction false} AgruparCorrecto(ps: seq<(string, Alumno)>)
    ensures var c := Agrupar(ps);
      BienFormadas(c) &&
      (forall n :: n in c.listas <==> exists j :: 0 <= j < |ps| && ps[j].0 == n) &&
      (forall n :: n in c.listas ==> c.listas[n] == Filtrar(ps, n) && c.listas[n] != [])
  {
    AgruparBienFormadas(ps);
    if ps != [] {
      var init := ps[..|ps| - 1];
      var last := ps[|ps| - 1];
      AgruparCorrecto(init);
      var c := Agrupar(ps);
      forall n ensures n in c.listas <==> exists j :: 0 <= j < |ps| && ps[j].0 == n {
        if exists j :: 0 <= j < |init| && init[j].0 == n {
          var j :| 0 <= j < |init| && init[j].0 == n;
          assert ps[j].0 == n;
        }
        if n != last.0 && exists j :: 0 <= j < |ps| && ps[j].0 == n {
          var j :| 0 <= j < |ps| && ps[j].0 == n;
          assert j < |init| && init[j].0 == n;
        }
      }
      forall n | n in c.listas ensures c.listas[n] == Filtrar(ps, n) && c.listas[n] != [] {
        assert ps[..|ps| - 1] == init;
        if n == last.0 && n !in Agrupar(init).listas {
          FiltrarAusente(init, n);
        }
      }
    }
  }

  lemma AgruparSnoc(ps: seq<(string, Alumno)>, p: (string, Alumno))
    ensures Agrupar(ps + [p]) == Anadir(Agrupar(ps), p.0, p.1)
  {
    assert (ps + [p])[..|ps|] == ps;
  }

  /** Filtering by a name no pair carries gives nothing. */
  lemma {:induction false} FiltrarAusente(ps: seq<(string, Alumno)>, n: string)
    requires forall j :: 0 <= j < |ps| ==> ps[j].0 != n
    ensures Filtrar(ps, n) == []
  {
    if ps != [] {
      FiltrarAusente(ps[..|ps| - 1], n);
    }
  }

  /** Growing one list by one grows the total by one, when that key is listed once. */
  lemma {:induction false} TamanoCrece(orden: seq<string>, listas: map<string, seq<Alumno>>, n: string, a: Alumno)
    requires n in listas && n in orden
    requires forall i, j :: 0 <= i < j < |orden| ==> orden[i] != orden[j]
    ensures Tamano(orden, listas[n := listas[n] + [a]]) == Tamano(orden, listas) + 1
  {
    var k := |orden| - 1;
    var init := orden[..k];
    if orden[k] == n {
      assert n !in init;
      TamanoIgual(init, listas, listas[n := listas[n] + [a]]);
    } else {
      assert n in init;
      TamanoCrece(init, listas, n, a);
    }
  }

  /** The total only looks at the listed keys. */
  lemma {:induction false} TamanoIgual(orden: seq<string>, l1: map<string, seq<Alumno>>, l2: map<string, seq<Alumno>>)
    requires forall n :: n in orden ==> (n in l1 <==> n in l2) && (n in l1 ==> l1[n] == l2[n])
    ensures Tamano(orden, l1) == Tamano(orden, l2)
  {
    if orden != [] {
      TamanoIgual(orden[..|orden| - 1], l1, l2);
    }
  }

  /** The Map holds every pushed student once: its lists add up to the number of pairs. */
  lemma {:induction false} AgruparTamano(ps: seq<(string, Alumno)>)
    ensures Tamano(Agrupar(ps).orden, Agrupar(ps).listas) == |ps|
  {
    if ps != [] {
      var init := ps[..|ps| - 1];
      var last := ps[|ps| - 1];
      var c := Agrupar(init);
      AgruparTamano(init);
      AgruparBienFormadas(init);
      if last.0 in c.listas {
        TamanoCrece(c.orden, c.listas, last.0, last.1);
      } else {
        assert last.0 !in c.orden;
        TamanoIgual(c.orden, c.listas, c.listas[last.0 := [last.1]]);
      }
    }
  }

  /** There is one pair per student of the school. */
  lemma {:induction false} ParesTamano(grupos: seq<Grupo>, norm: Normalizador)
    ensures |Pares(grupos, norm)| == AlumnosEn(grupos)
  {
    if grupos != [] {
      ParesTamano(grupos[..|grupos| - 1], norm);
    }
  }

  // ---- Properties of the new groups ----

  lemma {:induction false} AciertosBelowIntentos(alus: seq<Alumno>, i: nat)
    ensures AciertosItem(alus, i) <= IntentosItem(alus, i) <= |alus|
  {
    if alus != [] {
      AciertosBelowIntentos(alus[..|alus| - 1], i);
    }
  }

  /** Students of the three exam tiers plus those without exam make up the whole list. */
  lemma {:induction false} NivelesSuman(alus: seq<Alumno>)
    ensures ConNivel(alus, RequiereApoyo) + ConNivel(alus, EnDesarrollo) + ConNivel(alus, Esperado) +
            ConNivel(alus, SinExamen) == |alus|
  {
    if alus != [] {
      NivelesSuman(alus[..|alus| - 1]);
    }
  }

  /**
   * A rebuilt group: every student carries the group's name and is otherwise
   * unchanged; `total` is the number of students and the three tallies leave
   * out exactly the SIN EXAMEN students; every item rate lies in [0, 100.0].
   */
  lemma ResumirCorrecto(nombre: string, alus: seq<Alumno>)
    ensures var g := Resumir(nombre, alus);
      g.nombre == nombre && g.total == |g.alumnos| == |alus| &&
      (forall j :: 0 <= j < |alus| ==> g.alumnos[j].grupo == nombre && g.alumnos[j].(grupo := alus[j].grupo) == alus[j]) &&
      g.requiereApoyo + g.enDesarrollo + g.esperado + ConNivel(alus, SinExamen) == g.total &&
      |g.porcentajesReactivos| == NumReactivos &&
      (forall i :: 0 <= i < NumReactivos ==> 0 <= g.porcentajesReactivos[i] <= 1000)
  {
    NivelesSuman(alus);
    forall i | 0 <= i < NumReactivos ensures Tenths(AciertosItem(alus, i), IntentosItem(alus, i)) <= 1000 {
      AciertosBelowIntentos(alus, i);
      TenthsRange(AciertosItem(alus, i), IntentosItem(alus, i));
    }
  }

  /** Students in a sequence of groups, counted from the front. */
  lemma {:induction false} AlumnosEnCons(g: Grupo, gs: seq<Grupo>)
    ensures AlumnosEn([g] + gs) == |g.alumnos| + AlumnosEn(gs)
  {
    if gs != [] {
      var n := |gs| - 1;
      assert ([g] + gs)[..n + 1] == [g] + gs[..n];
      AlumnosEnCons(g, gs[..n]);
    }
  }

  lemma {:induction false} AlumnosEnInsert(x: Grupo, xs: seq<Grupo>)
    ensures AlumnosEn(Insert(x, xs, NombreDe)) == |x.alumnos| + AlumnosEn(xs)
  {
    if xs == [] {
      AlumnosEnCons(x, []);
    } else if Less(x.nombre, xs[0].nombre) {
      AlumnosEnCons(x, xs);
    } else {
      AlumnosEnInsert(x, xs[1..]);
      AlumnosEnCons(xs[0], Insert(x, xs[1..], NombreDe));
      AlumnosEnCons(xs[0], xs[1..]);
      assert xs == [xs[0]] + xs[1..];
    }
  }

  /** Sorting the groups keeps the number of students. */
  lemma {:induction false} AlumnosEnSort(xs: seq<Grupo>)
    ensures AlumnosEn(SortBy(xs, NombreDe)) == AlumnosEn(xs)
  {
    if xs != [] {
      var n := |xs| - 1;
      AlumnosEnSort(xs[..n]);
      AlumnosEnInsert(xs[n], SortBy(xs[..n], NombreDe));
    }
  }

  /** The summaries hold one student per student stored in the Map. */
  lemma {:induction false} AlumnosEnResumenes(c: Cubetas, k: nat)
    requires BienFormadas(c) && k <= |c.orden|
    ensures AlumnosEn(Resumenes(c)[..k]) == Tamano(c.orden[..k], c.listas)
  {
    if k > 0 {
      AlumnosEnResumenes(c, k - 1);
      TakeTake(Resumenes(c), k - 1);
      TakeTake(c.orden, k - 1);
    }
  }

  /** The new names are pairwise distinct. */
  lemma NombresDistintos(c: Cubetas)
    requires BienFormadas(c)
    ensures DistinctKeys(Resumenes(c), NombreDe)
  {
  }

  /**
   * The regrouped school: the groups' names are distinct and strictly
   * increasing, and the school still lists every student exactly as many
   * times as before.
   */
  lemma GruposCorregidosCorrecto(grupos: seq<Grupo>, norm: Normalizador)
    ensures var gs := GruposCorregidos(grupos, norm);
      StrictlySortedBy(gs, NombreDe) && AlumnosEn(gs) == AlumnosEn(grupos)
  {
    var ps := Pares(grupos, norm);
    var c := Agrupar(ps);
    AgruparBienFormadas(ps);
    var rs := Resumenes(c);
    NombresDistintos(c);
    SortByCorrect(rs, NombreDe);
    SortByMultiset(rs, NombreDe);
    AlumnosEnSort(rs);
    AlumnosEnResumenes(c, |c.orden|);
    assert rs[..|c.orden|] == rs && c.orden[..|c.orden|] == c.orden;
    AgruparTamano(ps);
    ParesTamano(grupos, norm);
  }

  /**
   * Each new group is the Map entry of one new name: it holds exactly the
   * students of the old groups renamed to it, in the old groups' order, and
   * a name that no student's old group is renamed to has no group.
   */
  lemma GrupoCorregidoDe(grupos: seq<Grupo>, norm: Normalizador, g: Grupo)
    requires g in GruposCorregidos(grupos, norm)
    ensures var ps := Pares(grupos, norm);
      g == Resumir(g.nombre, Filtrar(ps, g.nombre)) && g.alumnos != [] &&
      exists j :: 0 <= j < |ps| && ps[j].0 == g.nombre
  {
    var ps := Pares(grupos, norm);
    var c := Agrupar(ps);
    AgruparCorrecto(ps);
    var rs := Resumenes(c);
    var k := SortByMiembro(rs, NombreDe, g);
    assert c.orden[k] in c.listas;
  }

  /** Every student of a regrouped school carries its group's new name. */
  lemma AlumnosConNombreNuevo(grupos: seq<Grupo>, norm: Normalizador, g: Grupo)
    requires g in GruposCorregidos(grupos, norm)
    ensures forall j :: 0 <= j < |g.alumnos| ==> g.alumnos[j].grupo == g.nombre
  {
    GrupoCorregidoDe(grupos, norm, g);
    ResumirCorrecto(g.nombre, Filtrar(Pares(grupos, norm), g.nombre));
  }

  // ---- The script ----

  /** The two nested loops that fill alumnosByGrupo. */
  method LlenarCubetas(grupos: seq<Grupo>, norm: Normalizador) returns (c: Cubetas)
    ensures c == Agrupar(Pares(grupos, norm))
  {
    var orden: seq<string> := [];
    var listas: map<string, seq<Alumno>> := map[];
    ghost var hechos: seq<(string, Alumno)> := [];
    assert grupos[..0] == [];
    for k := 0 to |grupos|
      invariant hechos == Pares(grupos[..k], norm)
      invariant Cubetas(orden, listas) == Agrupar(hechos)
    {
      var g := grupos[k];
      var nombreNuevo := norm(g.nombre);
      ghost var nuevos := ParesDe(g, norm);
      ghost var antes := hechos;
      assert nuevos[..0] == [];
      for j := 0 to |g.alumnos|
        invariant hechos == antes + nuevos[..j]
        invariant Cubetas(orden, listas) == Agrupar(hechos)
      {
        var alumno := g.alumnos[j];
        ghost var c0 := Cubetas(orden, listas);
        if nombreNuevo !in listas {
          listas := listas[nombreNuevo := []];
          orden := orden + [nombreNuevo];
        }
        var lista := listas[nombreNuevo];
        listas := listas[nombreNuevo := lista + [alumno]];
        AgruparSnoc(hechos, (nombreNuevo, alumno));
        assert Cubetas(orden, listas) == Anadir(c0, nombreNuevo, alumno) by {
          if nombreNuevo !in c0.listas {
            assert lista + [alumno] == [alumno];
          }
        }
        AppendTake(antes, nuevos, j);
        hechos := hechos + [(nombreNuevo, alumno)];
      }
      assert nuevos[..|g.alumnos|] == nuevos;
      assert grupos[..k + 1][..k] == grupos[..k];
    }
    assert grupos[..|grupos|] == grupos;
    c := Cubetas(orden, listas);
  }

  /**
   * The item loop for one student: answer i counts when present, and as
   * correct when `correcta(i)` holds (ContarItems passes the trimmed-"C" test).
   */
  method SumarAlumno(a: Alumno, correcta: nat -> bool, ac: array<nat>, tot: array<nat>)
    requires ac.Length == NumReactivos && tot.Length == NumReactivos && ac != tot
    modifies ac, tot
    ensures forall i :: 0 <= i < NumReactivos ==>
              ac[i] == old(ac[i]) + (if i < |a.respuestas| && correcta(i) then 1 else 0) &&
              tot[i] == old(tot[i]) + (if i < |a.respuestas| then 1 else 0)
  {
    for i := 0 to NumReactivos
      invariant forall i' :: 0 <= i' < i ==>
                  ac[i'] == old(ac[i']) + (if i' < |a.respuestas| && correcta(i') then 1 else 0) &&
                  tot[i'] == old(tot[i']) + (if i' < |a.respuestas| then 1 else 0)
      invariant forall i' :: i <= i' < NumReactivos ==> ac[i'] == old(ac[i']) && tot[i'] == old(tot[i'])
    {
      SumarItem(a, correcta, ac, tot, i);
    }
  }

  /** Item i of one student: `if (i < resp.length) { totalesG[i]++; if (… === "C") aciertosG[i]++ }`. */
  method SumarItem(a: Alumno, correcta: nat -> bool, ac: array<nat>, tot: array<nat>, i: nat)
    requires i < ac.Length && i < tot.Length && ac != tot
    modifies ac, tot
    ensures ac[i] == old(ac[i]) + (if i < |a.respuestas| && correcta(i) then 1 else 0)
    ensures tot[i] == old(tot[i]) + (if i < |a.respuestas| then 1 else 0)
    ensures forall j :: 0 <= j < ac.Length && j != i ==> ac[j] == old(ac[j])
    ensures forall j :: 0 <= j < tot.Length && j != i ==> tot[j] == old(tot[j])
  {
    if i < |a.respuestas| {
      tot[i] := tot[i] + 1;
      if correcta(i) {
        ac[i] := ac[i] + 1;
      }
    }
  }

  /** One more student in the forEach: the counts over the first k + 1 students. */
  lemma PasoItems(alumnos: seq<Alumno>, k: nat)
    requires k < |alumnos|
    ensures forall i: nat :: AciertosItem(alumnos[..k + 1], i) == AciertosItem(alumnos[..k], i) + (if CorrectaEn(alumnos[k], i) then 1 else 0)
    ensures forall i: nat :: IntentosItem(alumnos[..k + 1], i) == IntentosItem(alumnos[..k], i) + (if i < |alumnos[k].respuestas| then 1 else 0)
  {
    TakeTake(alumnos, k);
  }

  /** The forEach over a group's students that counts, per item, the answers present and the "C" answers. */
  method ContarItems(alumnos: seq<Alumno>) returns (aciertos: seq<nat>, totales: seq<nat>)
    ensures aciertos == seq(NumReactivos, i requires 0 <= i < NumReactivos => AciertosItem(alumnos, i))
    ensures totales == seq(NumReactivos, i requires 0 <= i < NumReactivos => IntentosItem(alumnos, i))
  {
    var ac := new nat[NumReactivos](_ => 0);
    var tot := new nat[NumReactivos](_ => 0);
    for k := 0 to |alumnos|
      invariant forall i :: 0 <= i < NumReactivos ==>
                  ac[i] == AciertosItem(alumnos[..k], i) && tot[i] == IntentosItem(alumnos[..k], i)
    {
      PasoItems(alumnos, k);
      SumarAlumno(alumnos[k], (i: nat) => CorrectaEn(alumnos[k], i), ac, tot);
    }
    assert alumnos[..|alumnos|] == alumnos;
    aciertos := ac[..];
    totales := tot[..];
  }

  /** The body of the loop over alumnosByGrupo.entries(): one rebuilt group. */
  method ResumirGrupo(nombreGrupo: string, alumnos: seq<Alumno>) returns (g: Grupo)
    ensures g == Resumir(nombreGrupo, alumnos)
  {
    var aciertosG, totalesG := ContarItems(alumnos);
    var alumnosOut: seq<Alumno> := [];
    for j := 0 to |alumnos|
      invariant alumnosOut == Renombrados(nombreGrupo, alumnos[..j])
    {
      alumnosOut := alumnosOut + [alumnos[j].(grupo := nombreGrupo)];
    }
    assert alumnos[..|alumnos|] == alumnos;
    g := Grupo(nombreGrupo, alumnosOut, ParseExcel.TasasDe(aciertosG, totalesG),
               ConNivel(alumnos, RequiereApoyo), ConNivel(alumnos, EnDesarrollo), ConNivel(alumnos, Esperado),
               |alumnos|);
  }

  /** The new groups of one school: fill the Map, rebuild one group per entry, sort by name. */
  method CorregirGrupos(grupos: seq<Grupo>, norm: Normalizador) returns (nuevos: seq<Grupo>)
    ensures nuevos == GruposCorregidos(grupos, norm)
  {
    var c := LlenarCubetas(grupos, norm);
    AgruparBienFormadas(Pares(grupos, norm));
    var nuevosGrupos: seq<Grupo> := [];
    for k := 0 to |c.orden|
      invariant nuevosGrupos == Resumenes(c)[..k]
    {
      var nombreGrupo := c.orden[k];
      var g := ResumirGrupo(nombreGrupo, c.listas[nombreGrupo]);
      TakeSnoc(Resumenes(c), k);
      nuevosGrupos := nuevosGrupos + [g];
    }
    assert Resumenes(c)[..|c.orden|] == Resumenes(c);
    nuevos := SortBy(nuevosGrupos, NombreDe);
  }

  /** A school with its `grupos` replaced by the regrouped list, and nothing else changed. */
  function Corregida(esc: Escuela, norm: Normalizador): Escuela
  {
    esc.(grupos := GruposCorregidos(esc.grupos, norm))
  }

  /** Every school of a list corrected. */
  function Corregidas(escs: seq<Escuela>, norm: Normalizador): (r: seq<Escuela>)
    ensures |r| == |escs|
    ensures forall k :: 0 <= k < |escs| ==> r[k] == Corregida(escs[k], norm)
  {
    MapearEn(escs, CorregidaCon(norm));
    Mapear(escs, CorregidaCon(norm))
  }

  /** The correction of one school under a renaming. */
  function CorregidaCon(norm: Normalizador): Escuela -> Escuela
  {
    esc => Corregida(esc, norm)
  }

  /** main: every school's `grupos` replaced by its regrouped list, in place. */
  method FixGruposResultados(escuelas: array<Escuela>, norm: Normalizador)
    modifies escuelas
    ensures escuelas[..] == Corregidas(old(escuelas[..]), norm)
  {
    ghost var antes := escuelas[..];
    ghost var f := CorregidaCon(norm);
    assert escuelas[..] == Mapear(antes[..0], f) + antes[0..];
    for k := 0 to escuelas.Length
      invariant escuelas[..] == Mapear(antes[..k], f) + antes[k..]
    {
      CorregirEn(escuelas, k, norm, antes);
    }
    assert antes[..escuelas.Length] == antes;
  }

  /** One turn of the loop: school k is corrected in place. */
  method CorregirEn(escuelas: array<Escuela>, k: nat, norm: Normalizador, ghost antes: seq<Escuela>)
    requires k < escuelas.Length == |antes|
    requires escuelas[..] == Mapear(antes[..k], CorregidaCon(norm)) + antes[k..]
    modifies escuelas
    ensures escuelas[..] == Mapear(antes[..k + 1], CorregidaCon(norm)) + antes[k + 1..]
  {
    assert escuelas[k] == antes[k];
    var e := CorregirEscuela(escuelas[k], norm);
    ghost var previo := escuelas[..];
    escuelas[k] := e;
    assert escuelas[..] == previo[k := e];
    MapearEnSitio(antes, k, CorregidaCon(norm), e);
  }

  /** The script as run: the renaming is normalizarGrupo. */
  method FixGruposNormalizados(escuelas: array<Escuela>)
    modifies escuelas
    ensures escuelas[..] == Corregidas(old(escuelas[..]), NormalizarNombre)
  {
    FixGruposResultados(escuelas, NormalizarNombre);
  }

  /** The loop body for one school: `esc.grupos = nuevosGrupos.sort(...)`. */
  method CorregirEscuela(esc: Escuela, norm: Normalizador) returns (e: Escuela)
    ensures e == Corregida(esc, norm)
  {
    var nuevos := CorregirGrupos(esc.grupos, norm);
    e := esc.(grupos := nuevos);
  }
}
