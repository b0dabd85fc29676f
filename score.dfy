// Scoring of one exam row: which of the twelve items count, the student's
// percentage (in tenths of a percent), the performance tier, and the answer
// shown for each item. The same rules appear in lib/raf.ts and in the
// ingestion scripts.

module Score {
  import opened Base
  import opened JsString
  import opened RafTypes

  /**
   * The value of a PointsN cell after `Number(...)`: absent (null or
   * undefined), not a number, or a number. Only its sign is ever consulted.
   */
  datatype Points = Missing | NotANumber | Num(value: int)

  /** One item of a row: PointsN, and MarkN as `String(mark)` (None when null or undefined). */
  datatype Celda = Celda(points: Points, mark: Option<string>)

  /**
   * One spreadsheet row: the item cells Points1/Mark1, Points2/Mark2, ...,
   * and the QuizClass, FirstName and LastName cells (None when the key is absent).
   */
  datatype Fila = Fila(
    celdas: seq<Celda>,
    quizClass: Option<string>,
    firstName: Option<string>,
    lastName: Option<string>)

  /** The cells of item i (1-based); an item the row does not have reads as absent. */
  function CeldaAt(row: Fila, i: nat): (c: Celda)
    ensures 1 <= i <= |row.celdas| ==> c == row.celdas[i - 1]
    ensures i == 0 || i > |row.celdas| ==> c == Celda(Missing, None)
  {
    if 1 <= i <= |row.celdas| then row.celdas[i - 1] else Celda(Missing, None)
  }

  /** Positive points and the trimmed mark "C": a correct answer. */
  predicate Acierto(c: Celda)
  {
    c.points.Num? && c.points.value > 0 && c.mark.Some? && Trim(c.mark.value) == "C"
  }

  /**
   * The student percentage counts an item when it is correct or scored zero;
   * missing, non-numeric, negative and positive-but-not-"C" items are ignored.
   */
  predicate CuentaParaAlumno(c: Celda)
  {
    Acierto(c) || (c.mark.Some? && c.points == Num(0))
  }

  /** The item rates count every item with both cells present and numeric points. */
  predicate Intentado(c: Celda)
  {
    c.mark.Some? && c.points.Num?
  }

  /** Correct items among 1..n. */
  function AciertosHasta(row: Fila, n: nat): nat
  {
    if n == 0 then 0 else AciertosHasta(row, n - 1) + (if Acierto(CeldaAt(row, n)) then 1 else 0)
  }

  /** Items among 1..n that the student percentage counts. */
  function ContadosHasta(row: Fila, n: nat): nat
  {
    if n == 0 then 0 else ContadosHasta(row, n - 1) + (if CuentaParaAlumno(CeldaAt(row, n)) then 1 else 0)
  }

  /** Math.round(a / t * 1000) / 10 as tenths of a percent, and 0 when t is 0. */
  function Tenths(a: nat, t: nat): nat
  {
    if t == 0 then 0 else (2000 * a + t) / (2 * t)
  }

  /** The student percentage, in tenths, that calcularPorcentaje returns. */
  function Porcentaje(row: Fila): nat
  {
    Tenths(AciertosHasta(row, NumReactivos), ContadosHasta(row, NumReactivos))
  }

  /** calcularPorcentaje / calcularPorcentajeEstudiante: one pass over items 1..12. */
  method CalcularPorcentaje(row: Fila) returns (pct: nat)
    ensures pct == Porcentaje(row)
  {
    var aciertos := 0;
    var total := 0;
    for i := 1 to NumReactivos + 1
      invariant aciertos == AciertosHasta(row, i - 1)
      invariant total == ContadosHasta(row, i - 1)
    {
      var c := CeldaAt(row, i);
      assert AciertosHasta(row, i) == AciertosHasta(row, i - 1) + (if Acierto(c) then 1 else 0);
      assert ContadosHasta(row, i) == ContadosHasta(row, i - 1) + (if CuentaParaAlumno(c) then 1 else 0);
      aciertos, total := ContarCelda(c, aciertos, total);
    }
    if total == 0 {
      pct := 0;
    } else {
      pct := (2000 * aciertos + total) / (2 * total);
    }
  }

  /** The loop body for one item: a correct item counts in both, a zero-point one only in the total. */
  method ContarCelda(c: Celda, aciertos0: nat, total0: nat) returns (aciertos: nat, total: nat)
    ensures aciertos == aciertos0 + (if Acierto(c) then 1 else 0)
    ensures total == total0 + (if CuentaParaAlumno(c) then 1 else 0)
  {
    aciertos, total := aciertos0, total0;
    if Intentado(c) {
      if Acierto(c) {
        aciertos := aciertos + 1;
        total := total + 1;
      } else if c.points.value == 0 {
        total := total + 1;
      }
    }
  }

  lemma {:induction false} AciertosBelowContados(row: Fila, n: nat)
    ensures AciertosHasta(row, n) <= ContadosHasta(row, n) <= n
  {
    if n > 0 {
      AciertosBelowContados(row, n - 1);
    }
  }

  lemma MulMonotone(a: nat, b: nat, c: nat)
    requires a <= b
    ensures a * c <= b * c
  {
  }

  /** Integer division against a bound: x < k*y iff x/y < k. */
  lemma DivBelow(x: nat, y: nat, k: nat)
    requires y > 0
    ensures x < k * y <==> x / y < k
  {
    var q := x / y;
    assert x == q * y + x % y;
    if q >= k {
      MulMonotone(k, q, y);
    } else {
      MulMonotone(q + 1, k, y);
    }
  }

  /** Rounded tenths of a ratio a/t with a <= t lie between 0 and 1000. */
  lemma TenthsRange(a: nat, t: nat)
    requires a <= t
    ensures Tenths(a, t) <= 1000
  {
    if t > 0 {
      DivBelow(2000 * a + t, 2 * t, 1001);
    }
  }

  /** For fewer than 2000 counted items, the rounded ratio is 1000 exactly when every item is right. */
  lemma TenthsFull(a: nat, t: nat)
    requires a <= t < 2000
    ensures Tenths(a, t) == 1000 <==> a == t && t > 0
  {
    TenthsRange(a, t);
    if t > 0 {
      DivBelow(2000 * a + t, 2 * t, 1000);
      if a < t {
        MulMonotone(a, t - 1, 2000);
      }
    }
  }

  /**
   * The student percentage lies in [0, 100.0]; it is 100.0 exactly when every
   * counted item is correct and at least one was counted, and 0 when none was.
   */
  lemma PorcentajeRange(row: Fila)
    ensures Porcentaje(row) <= 1000
    ensures Porcentaje(row) == 1000 <==>
              AciertosHasta(row, NumReactivos) == ContadosHasta(row, NumReactivos) > 0
    ensures ContadosHasta(row, NumReactivos) == 0 ==> Porcentaje(row) == 0
  {
    AciertosBelowContados(row, NumReactivos);
    TenthsRange(AciertosHasta(row, NumReactivos), ContadosHasta(row, NumReactivos));
    TenthsFull(AciertosHasta(row, NumReactivos), ContadosHasta(row, NumReactivos));
  }

  /** Only items 1..n are looked at: rows that agree on them get the same counts. */
  lemma {:induction false} CountsOnlyFirst(r1: Fila, r2: Fila, n: nat)
    requires forall i :: 1 <= i <= n ==> CeldaAt(r1, i) == CeldaAt(r2, i)
    ensures AciertosHasta(r1, n) == AciertosHasta(r2, n)
    ensures ContadosHasta(r1, n) == ContadosHasta(r2, n)
  {
    if n > 0 {
      CountsOnlyFirst(r1, r2, n - 1);
    }
  }

  /** The percentage ignores every cell past item 12 and the non-item cells. */
  lemma PorcentajeOnlyFirstTwelve(r1: Fila, r2: Fila)
    requires forall i :: 1 <= i <= NumReactivos ==> CeldaAt(r1, i) == CeldaAt(r2, i)
    ensures Porcentaje(r1) == Porcentaje(r2)
  {
    CountsOnlyFirst(r1, r2, NumReactivos);
  }

  /**
   * obtenerNivel on a percentage in tenths: null or at most 50.0 needs support,
   * at most 80.0 is developing, above is expected.
   */
  function ObtenerNivel(porcentaje: Option<int>): (n: Nivel)
    ensures n != SinExamen
    ensures n == RequiereApoyo <==> porcentaje.None? || porcentaje.value <= 500
    ensures n == Esperado <==> porcentaje.Some? && porcentaje.value > 800
  {
    if porcentaje.None? then RequiereApoyo
    else if porcentaje.value <= 500 then RequiereApoyo
    else if porcentaje.value <= 800 then EnDesarrollo
    else Esperado
  }

  /** A higher percentage never gives a lower tier. */
  lemma ObtenerNivelMonotone(p: int, q: int)
    requires p <= q
    ensures ObtenerNivel(Some(q)) == RequiereApoyo ==> ObtenerNivel(Some(p)) == RequiereApoyo
    ensures ObtenerNivel(Some(p)) == Esperado ==> ObtenerNivel(Some(q)) == Esperado
  {
  }

  /** The tier of a scored row. */
  function NivelDe(row: Fila): Nivel
  {
    ObtenerNivel(Some(Porcentaje(row)))
  }

  /** respuesta / respuestaEstudiante: the trimmed mark of item i, or "-" when absent or blank. */
  function Respuesta(row: Fila, i: nat): (r: string)
    ensures r != []
    ensures CeldaAt(row, i).mark.None? ==> r == "-"
    ensures CeldaAt(row, i).mark.Some? ==>
              (r == "-" && AllWhite(CeldaAt(row, i).mark.value)) || r == Trim(CeldaAt(row, i).mark.value)
  {
    var m := CeldaAt(row, i).mark;
    if m.Some? && Trim(m.value) != "" then Trim(m.value) else "-"
  }

  /** A shown answer never has blanks at its ends, and it is "C" exactly for a trimmed mark "C". */
  lemma RespuestaTrimmed(row: Fila, i: nat)
    ensures Trim(Respuesta(row, i)) == Respuesta(row, i)
    ensures Respuesta(row, i) == "C" <==>
              CeldaAt(row, i).mark.Some? && Trim(CeldaAt(row, i).mark.value) == "C"
  {
    var m := CeldaAt(row, i).mark;
    if m.Some? && Trim(m.value) != "" {
      TrimIdempotent(m.value);
    } else {
      TrimNoEdges("-");
    }
  }

  /** The twelve answers stored for a row. */
  function Respuestas(row: Fila): (rs: seq<string>)
    ensures |rs| == NumReactivos
    ensures forall i :: 0 <= i < NumReactivos ==> rs[i] == Respuesta(row, i + 1)
  {
    seq(NumReactivos, i requires 0 <= i < NumReactivos => Respuesta(row, i + 1))
  }
}
