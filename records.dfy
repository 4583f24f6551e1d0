/**
 * The project record as the dashboard and the charts read it from the `proyectos`
 * table, and the payment-status labels the derivations compare against.
 */
module Records {
  import opened Wrappers
  import Text

  /** A month as JavaScript's `Date.getMonth` reports it: 0 is January, 11 is December. */
  type MonthIndex = m: int | 0 <= m < 12

  /** A completion date, already decoded from the table's "YYYY-MM-DD" text. */
  datatype Date = Date(year: int, month: MonthIndex, day: int)

  /** One row of `proyectos`. Every field the code reads with `?.` or `??` may be absent. */
  datatype Proyecto = Proyecto(
    id: int,
    cliente: Option<string>,
    servicioContratado: Option<string>,
    estado: Option<string>,
    precio: Option<int>,
    contacto: Option<string>,
    estadoPago: Option<string>,
    fechaTerminado: Option<Date>)

  /** The payment-status labels, lower-cased as the comparisons use them. */
  const PorFacturar: string := "por facturar"
  const PagoCompleto: string := "pago completo"
  const EsperandoPago: string := "esperando pago"

  /** `p.estado_pago?.toLowerCase() === status`: an absent status matches no label. */
  predicate PaymentIs(p: Proyecto, status: string)
  {
    p.estadoPago.Some? && Text.Lower(p.estadoPago.value) == status
  }

  /** `p.precio ?? 0`. */
  function PriceOrZero(p: Proyecto): int
  {
    OrElse(p.precio, 0)
  }

  /** The prices of all records added up, a missing price counting 0. */
  function TotalPrice(ps: seq<Proyecto>): int
  {
    if ps == [] then 0 else TotalPrice(ps[..|ps| - 1]) + PriceOrZero(ps[|ps| - 1])
  }
}
