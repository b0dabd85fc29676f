// scripts/merge-buscador-escuelas.mjs: the school directory sheet ("Buscador
// de Escuelas en Línea") becomes a map from cct to directory data, and every
// school of the results whose cct is in the map gets that data in its
// `buscador` field. Reading the workbook is left out: the input is the first
// sheet as `sheet_to_json(…, { header: 1 })` returns it, one cell being None
// for null or undefined and Some(String(value)) otherwise. The schools are
// the array of resultados.json, updated in place.

module MergeBuscador {
  import opened Base
  import opened JsString
  import opened RafTypes

  /** A sheet cell: None for null or undefined, else the cell's value as String() renders it. */
  type Valor = Option<string>

  /** A sheet row; an index past its end reads as undefined. */
  type Renglon = seq<Valor>

  const Columnas: seq<string> := ["CCT", "NOMBRE", "TURNO", "NIVEL EDUCATIVO", "ZONA", "DOMICILIO",
                                  "TELÉFONO", "COLONIA", "LOCALIDAD", "MUNICIPIO", "ALUMNOS"]

  /** `row[j]`. */
  function Celda(row: Renglon, j: nat): Valor
  {
    if j < |row| then row[j] else None
  }

  /** The header row: each cell trimmed and uppercased, a null cell as "". */
  function Encabezado(row: Renglon, recortar: string -> string): (h: seq<string>)
    ensures |h| == |row|
    ensures forall j :: 0 <= j < |row| ==> h[j] == (if row[j].Some? then Upper(recortar(row[j].value)) else "")
  {
    seq(|row|, j requires 0 <= j < |row| => if row[j].Some? then Upper(recortar(row[j].value)) else "")
  }

  /** `xs.indexOf(x)`: the first position holding x, None for -1. */
  function IndexOf(xs: seq<string>, x: string): (r: Option<nat>)
    ensures r.Some? ==> r.value < |xs| && xs[r.value] == x && forall j :: 0 <= j < r.value ==> xs[j] != x
    ensures r.None? <==> x !in xs
  {
    if xs == [] then None
    else if xs[0] == x then Some(0)
    else
      var r := IndexOf(xs[1..], x);
      if r.None? then None else Some(r.value + 1)
  }

  /** The `idx` object once every column in `cols` has been looked up. */
  function IdxDe(header: seq<string>, cols: seq<string>): map<string, nat>
  {
    if cols == [] then map[]
    else
      var idx := IdxDe(header, cols[..|cols| - 1]);
      var i := IndexOf(header, cols[|cols| - 1]);
      if i.Some? then idx[cols[|cols| - 1] := i.value] else idx
  }

  /** A column is in `idx` exactly when the header has it, at its first occurrence. */
  lemma {:induction false} IdxCorrecto(header: seq<string>, cols: seq<string>, col: string)
    ensures col in IdxDe(header, cols) <==> col in cols && col in header
    ensures col in IdxDe(header, cols) ==> IndexOf(header, col) == Some(IdxDe(header, cols)[col])
  {
    if cols != [] {
      var init := cols[..|cols| - 1];
      assert cols == init + [cols[|cols| - 1]];
      IdxCorrecto(header, init, col);
    }
  }

  /** `COLUMNAS.forEach(col => { const i = headerRow.indexOf(col); if (i >= 0) idx[col] = i; })`. */
  method ConstruirIdx(header: seq<string>) returns (idx: map<string, nat>)
    ensures idx == IdxDe(header, Columnas)
  {
    idx := map[];
    for k := 0 to |Columnas|
      invariant idx == IdxDe(header, Columnas[..k])
    {
      assert Columnas[..k + 1][..k] == Columnas[..k];
      var i := IndexOf(header, Columnas[k]);
      if i.Some? {
        idx := idx[Columnas[k] := i.value];
      }
    }
    assert Columnas[..|Columnas|] == Columnas;
  }

  /** `get(col)`: the trimmed cell of the column, None when the column or the value is missing or the value is "". */
  function Get(row: Renglon, idx: map<string, nat>, col: string, recortar: string -> string): (r: Option<string>)
    ensures col !in idx ==> r.None?
    ensures col in idx ==> r == (if Celda(row, idx[col]).Some? && Celda(row, idx[col]).value != ""
                                then Some(recortar(Celda(row, idx[col]).value)) else None)
  {
    if col !in idx then None
    else
      var v := Celda(row, idx[col]);
      if v.Some? && v.value != "" then Some(recortar(v.value)) else None
  }

  /** The cct of a data row: the trimmed CCT cell, "" when the column or the value is missing. */
  function CctDe(row: Renglon, idx: map<string, nat>, recortar: string -> string): string
  {
    if "CCT" in idx && Celda(row, idx["CCT"]).Some? then recortar(Celda(row, idx["CCT"]).value) else ""
  }

  /** The object `map.set` stores for a data row. */
  function InfoDe(row: Renglon, idx: map<string, nat>, recortar: string -> string): Buscador
  {
    Buscador(Get(row, idx, "NOMBRE", recortar), Get(row, idx, "TURNO", recortar),
             Get(row, idx, "NIVEL EDUCATIVO", recortar), Get(row, idx, "ZONA", recortar),
             Get(row, idx, "DOMICILIO", recortar), Get(row, idx, "TELÉFONO", recortar),
             Get(row, idx, "COLONIA", recortar), Get(row, idx, "LOCALIDAD", recortar),
             Get(row, idx, "MUNICIPIO", recortar))
  }

  /** The `map.set` calls of the data rows, in order: rows with a blank cct are skipped. */
  function Entradas(datos: seq<Renglon>, idx: map<string, nat>, recortar: string -> string): (ps: seq<(string, Buscador)>)
    ensures forall j :: 0 <= j < |ps| ==> ps[j].0 != ""
  {
    if datos == [] then []
    else
      var ps := Entradas(datos[..|datos| - 1], idx, recortar);
      var row := datos[|datos| - 1];
      var cct := CctDe(row, idx, recortar);
      if cct == "" then ps else ps + [(cct, InfoDe(row, idx, recortar))]
  }

  /** buildMapFromExcel on the sheet's rows: header at index 1, data from index 2. */
  function Mapa(rows: seq<Renglon>, recortar: string -> string): map<string, Buscador>
  {
    if |rows| < 2 then map[]
    else SetAll(Entradas(rows[2..], IdxDe(Encabezado(rows[1], recortar), Columnas), recortar))
  }

  /** The loop `for (let i = 2; i < rows.length; i++) { … map.set(cct, {…}) }`. */
  method BuildMapFromExcel(rows: seq<Renglon>, recortar: string -> string) returns (m: map<string, Buscador>)
    ensures m == Mapa(rows, recortar)
  {
    if |rows| < 2 {
      return map[];
    }
    var idx := ConstruirIdx(Encabezado(rows[1], recortar));
    var datos := rows[2..];
    ghost var ps: seq<(string, Buscador)> := [];
    m := map[];
    for i := 0 to |datos|
      invariant ps == Entradas(datos[..i], idx, recortar)
      invariant m == SetAll(ps)
    {
      assert datos[..i + 1][..i] == datos[..i];
      var row := datos[i];
      var cct := CctDe(row, idx, recortar);
      if cct != "" {
        var info := InfoDe(row, idx, recortar);
        SetAllSnoc(ps, (cct, info));
        ps := ps + [(cct, info)];
        m := m[cct := info];
      }
    }
    assert datos[..|datos|] == datos;
  }

  /** A sheet with fewer than two rows gives an empty map. */
  lemma MapaCorto(rows: seq<Renglon>, recortar: string -> string)
    requires |rows| < 2
    ensures Mapa(rows, recortar) == map[]
  {
  }

  /** Every data row is skipped when the header has no CCT column, so the map is empty. */
  lemma {:induction false} SinColumnaCct(datos: seq<Renglon>, idx: map<string, nat>, recortar: string -> string)
    requires "CCT" !in idx
    ensures Entradas(datos, idx, recortar) == []
  {
    if datos != [] {
      SinColumnaCct(datos[..|datos| - 1], idx, recortar);
    }
  }

  lemma SinColumnaCctMapa(rows: seq<Renglon>, recortar: string -> string)
    requires |rows| >= 2
    requires "CCT" !in Encabezado(rows[1], recortar)
    ensures Mapa(rows, recortar) == map[]
  {
    var idx := IdxDe(Encabezado(rows[1], recortar), Columnas);
    IdxCorrecto(Encabezado(rows[1], recortar), Columnas, "CCT");
    SinColumnaCct(rows[2..], idx, recortar);
  }

  /** Later rows win: a cct holds the data of the last data row with that cct. */
  lemma {:induction false} UltimaGana(datos: seq<Renglon>, idx: map<string, nat>, recortar: string -> string, i: nat)
    requires i < |datos| && CctDe(datos[i], idx, recortar) != ""
    requires forall i' :: i < i' < |datos| ==> CctDe(datos[i'], idx, recortar) != CctDe(datos[i], idx, recortar)
    ensures var cct := CctDe(datos[i], idx, recortar);
            cct in SetAll(Entradas(datos, idx, recortar)) &&
            SetAll(Entradas(datos, idx, recortar))[cct] == InfoDe(datos[i], idx, recortar)
  {
    var n := |datos| - 1;
    var init := datos[..n];
    var ps := Entradas(init, idx, recortar);
    var cct := CctDe(datos[i], idx, recortar);
    var c := CctDe(datos[n], idx, recortar);
    var info := InfoDe(datos[n], idx, recortar);
    assert Entradas(datos, idx, recortar) == if c == "" then ps else ps + [(c, info)];
    if i < n {
      assert init[i] == datos[i];
      assert forall i' :: i < i' < |init| ==> init[i'] == datos[i'];
      UltimaGana(init, idx, recortar, i);
      assert c != cct;
      if c != "" {
        SetAllSnoc(ps, (c, info));
      }
    } else {
      SetAllSnoc(ps, (c, info));
    }
  }

  /** The keys of the map are exactly the non-blank ccts of the data rows. */
  lemma {:induction false} ClavesDelMapa(datos: seq<Renglon>, idx: map<string, nat>, recortar: string -> string, cct: string)
    ensures cct in SetAll(Entradas(datos, idx, recortar)) <==>
            cct != "" && exists i :: 0 <= i < |datos| && CctDe(datos[i], idx, recortar) == cct
  {
    if datos != [] {
      var n := |datos| - 1;
      ClavesDelMapa(datos[..n], idx, recortar, cct);
      ClavesPaso(datos, idx, recortar, cct);
      FrenteUltimo(datos);
      AlgunoSnoc(datos[..n], datos[n], r => CctDe(r, idx, recortar) == cct);
    }
  }

  /** The last data row adds its cct to the map's keys, unless it is blank. */
  lemma ClavesPaso(datos: seq<Renglon>, idx: map<string, nat>, recortar: string -> string, cct: string)
    requires datos != []
    ensures cct in SetAll(Entradas(datos, idx, recortar)) <==>
            cct in SetAll(Entradas(datos[..|datos| - 1], idx, recortar)) ||
            (cct != "" && CctDe(datos[|datos| - 1], idx, recortar) == cct)
  {
    var n := |datos| - 1;
    var c := CctDe(datos[n], idx, recortar);
    if c != "" {
      SetAllSnoc(Entradas(datos[..n], idx, recortar), (c, InfoDe(datos[n], idx, recortar)));
    }
  }

  /** buildMapFromExcel as the script runs it, trimming with String.prototype.trim. */
  method BuildMap(rows: seq<Renglon>) returns (m: map<string, Buscador>)
    ensures m == Mapa(rows, Trim)
  {
    m := BuildMapFromExcel(rows, Trim);
  }

  // ---- the merge into the results ----

  /** One school after the merge: `if (info) esc.buscador = info`. */
  function Fusionada(e: Escuela, m: map<string, Buscador>): (r: Escuela)
  {
    if e.cct in m then e.(buscador := Some(m[e.cct])) else e
  }

  /** Every school after the merge. */
  function Fusionadas(es: seq<Escuela>, m: map<string, Buscador>): (r: seq<Escuela>)
    ensures |r| == |es|
    ensures forall j :: 0 <= j < |es| ==> r[j] == Fusionada(es[j], m)
  {
    seq(|es|, j requires 0 <= j < |es| => Fusionada(es[j], m))
  }

  /** How many schools have their cct in the map. */
  function Conteo(es: seq<Escuela>, m: map<string, Buscador>): nat
  {
    if es == [] then 0
    else Conteo(es[..|es| - 1], m) + (if es[|es| - 1].cct in m then 1 else 0)
  }

  /** The positions of the schools whose cct is in the map. */
  ghost function Alcanzadas(es: seq<Escuela>, m: map<string, Buscador>): set<nat>
  {
    set j: nat | j < |es| && es[j].cct in m
  }

  /** `merged` counts exactly the schools whose cct is in the map. */
  lemma {:induction false} ConteoCuenta(es: seq<Escuela>, m: map<string, Buscador>)
    ensures Conteo(es, m) == |Alcanzadas(es, m)|
  {
    if es != [] {
      var n := |es| - 1;
      var init := es[..n];
      ConteoCuenta(init, m);
      var a := Alcanzadas(init, m);
      assert forall j :: 0 <= j < n ==> init[j] == es[j];
      if es[n].cct in m {
        assert Alcanzadas(es, m) == a + {n};
        assert n !in a;
      } else {
        assert Alcanzadas(es, m) == a;
      }
    }
  }

  /** The loop over `resultados.escuelas`, in place; the result is `merged`. */
  method MergeBuscadorEscuelas(escuelas: array<Escuela>, m: map<string, Buscador>) returns (merged: nat)
    modifies escuelas
    ensures escuelas[..] == Fusionadas(old(escuelas[..]), m)
    ensures merged == Conteo(old(escuelas[..]), m)
  {
    ghost var antes := escuelas[..];
    merged := 0;
    for k := 0 to escuelas.Length
      invariant forall j :: 0 <= j < k ==> escuelas[j] == Fusionada(antes[j], m)
      invariant forall j :: k <= j < escuelas.Length ==> escuelas[j] == antes[j]
      invariant merged == Conteo(antes[..k], m)
    {
      assert antes[..k + 1][..k] == antes[..k];
      var esc := escuelas[k];
      if esc.cct in m {
        escuelas[k] := esc.(buscador := Some(m[esc.cct]));
        merged := merged + 1;
      }
    }
    assert antes[..escuelas.Length] == antes;
    assert escuelas[..] == Fusionadas(antes, m);
  }

  /** No more schools are counted than there are. */
  lemma {:induction false} ConteoCota(es: seq<Escuela>, m: map<string, Buscador>)
    ensures Conteo(es, m) <= |es|
  {
    if es != [] {
      ConteoCota(es[..|es| - 1], m);
    }
  }

  /**
   * The merge sets `buscador` exactly on the schools whose cct is in the map,
   * to the map's data for that cct, changes nothing else, and counts exactly
   * those schools.
   */
  lemma FusionCorrecta(es: seq<Escuela>, m: map<string, Buscador>, j: nat)
    requires j < |es|
    ensures es[j].cct in m ==> Fusionadas(es, m)[j] == es[j].(buscador := Some(m[es[j].cct]))
    ensures es[j].cct !in m ==> Fusionadas(es, m)[j] == es[j]
    ensures Conteo(es, m) == |Alcanzadas(es, m)| && Conteo(es, m) <= |es|
  {
    ConteoCuenta(es, m);
    ConteoCota(es, m);
  }
}
