// app/escuelas/EscuelasContent.tsx: the tier a school is listed under and the
// order of those tiers. The school's tallies are counts, so the float ratios
// `x / total` compared with 0.5 become comparisons of `2 * x` with `total`.

module EscuelasContent {
  import opened RafTypes

  /** The three tiers getNivel can return. */
  type Categoria = n: Nivel | n != SinExamen witness RequiereApoyo

  /** getNivel: the school's overall tier from its three tallies. */
  function GetNivel(e: Escuela): (r: Categoria)
    ensures e.requiereApoyo + e.enDesarrollo + e.esperado == 0 ==> r == RequiereApoyo
    ensures r == RequiereApoyo <==>
              (var t := e.requiereApoyo + e.enDesarrollo + e.esperado; t == 0 || 2 * e.requiereApoyo > t)
    ensures r == Esperado <==>
              (var t := e.requiereApoyo + e.enDesarrollo + e.esperado; t > 0 && 2 * e.requiereApoyo <= t && 2 * e.esperado >= t)
    ensures r == EnDesarrollo <==>
              (var t := e.requiereApoyo + e.enDesarrollo + e.esperado; t > 0 && 2 * e.requiereApoyo <= t && 2 * e.esperado < t)
  {
    var total := e.requiereApoyo + e.enDesarrollo + e.esperado;
    if total == 0 then RequiereApoyo
    else if 2 * e.requiereApoyo > total then RequiereApoyo
    else if 2 * e.esperado >= total then Esperado
    else EnDesarrollo
  }

  /** CATEGORIA_ORDER. */
  function CategoriaOrder(c: Categoria): (k: nat)
    ensures k < 3
    ensures c == RequiereApoyo <==> k == 0
    ensures c == EnDesarrollo <==> k == 1
    ensures c == Esperado <==> k == 2
  {
    match c
    case RequiereApoyo => 0
    case EnDesarrollo => 1
    case Esperado => 2
  }

  /** The "categoria" comparator: `CATEGORIA_ORDER[a] - CATEGORIA_ORDER[b]`. */
  function CompararCategoria(a: Categoria, b: Categoria): int
  {
    CategoriaOrder(a) - CategoriaOrder(b)
  }

  /**
   * The comparator is a strict total order on the three tiers, with
   * REQUIERE APOYO first, EN DESARROLLO second and ESPERADO last, and it
   * reports equality only for the same tier.
   */
  lemma CompararCategoriaOrden(a: Categoria, b: Categoria)
    ensures CompararCategoria(a, b) == 0 <==> a == b
    ensures CompararCategoria(a, b) == -CompararCategoria(b, a)
    ensures CompararCategoria(RequiereApoyo, EnDesarrollo) < 0
    ensures CompararCategoria(EnDesarrollo, Esperado) < 0
    ensures CompararCategoria(a, b) < 0 <==>
              (a == RequiereApoyo && b != RequiereApoyo) || (a == EnDesarrollo && b == Esperado)
  {
  }

  /**
   * More students needing support never lifts a school's tier: with the other
   * two tallies fixed, adding one to requiereApoyo moves the school towards
   * REQUIERE APOYO or leaves it where it was.
   */
  lemma MasApoyoNoMejora(e: Escuela)
    ensures var e' := e.(requiereApoyo := e.requiereApoyo + 1);
            CategoriaOrder(GetNivel(e')) <= CategoriaOrder(GetNivel(e))
  {
  }
}
