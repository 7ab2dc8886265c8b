/** The payment record and the date arithmetic it carries: expiry after a
    fixed 30-day month, days left, current validity and renewal. */
module PaymentModel {
  import opened Wrappers

  /** One membership purchase. Dates are day numbers; `monto` is a real. */
  datatype Payment = Payment(
    id: Option<int>,
    cedulaCliente: string,
    monto: real,
    duracionMeses: int,
    fechaPago: int,
    fechaVencimiento: int,
    metodoPago: string,
    activo: bool)

  /** A month counts as 30 days, whatever the calendar says. */
  const DiasPorMes: int := 30

  /** The expiry date of a membership of `meses` months paid on `fechaPago`. */
  function Vencimiento(fechaPago: int, meses: int): (r: int)
    ensures r - fechaPago == DiasPorMes * meses
    ensures meses >= 1 ==> r >= fechaPago + DiasPorMes
  {
    fechaPago + DiasPorMes * meses
  }

  /** `vence_en(referencia)`: days from the reference date (today when none
      is given) to the expiry date; 0 on the expiry day, negative after it. */
  function VenceEn(p: Payment, referencia: Option<int>, today: int): (r: int)
    ensures referencia.GetOr(today) + r == p.fechaVencimiento
    ensures r == 0 <==> p.fechaVencimiento == referencia.GetOr(today)
    ensures r < 0 <==> p.fechaVencimiento < referencia.GetOr(today)
  {
    p.fechaVencimiento - referencia.GetOr(today)
  }

  /** `esta_activo`: flagged active and not yet past its expiry day. */
  function EstaActivo(p: Payment, today: int): (r: bool)
    ensures r <==> p.activo && VenceEn(p, None, today) >= 0
    ensures !p.activo ==> !r
    ensures p.activo && p.fechaVencimiento == today ==> r
  {
    p.fechaVencimiento >= today && p.activo
  }

  /** `renovar()`: a fresh, unsaved, active copy paid today for the same
      duration, amount, method and client. */
  function Renovar(p: Payment, today: int): (r: Payment)
    ensures r.id == None && r.activo
    ensures r.cedulaCliente == p.cedulaCliente && r.monto == p.monto
    ensures r.duracionMeses == p.duracionMeses && r.metodoPago == p.metodoPago
    ensures r.fechaPago == today && r.fechaVencimiento == Vencimiento(today, p.duracionMeses)
  {
    Payment(None, p.cedulaCliente, p.monto, p.duracionMeses, today,
            Vencimiento(today, p.duracionMeses), p.metodoPago, true)
  }

  /** A renewal of at least one month is valid on the day it is made and
      has exactly 30 days per month left. */
  lemma RenovarVigente(p: Payment, today: int)
    requires p.duracionMeses >= 1
    ensures EstaActivo(Renovar(p, today), today)
    ensures VenceEn(Renovar(p, today), Some(today), today) == DiasPorMes * p.duracionMeses
  {
  }

  /** Renewing depends only on the date and the renewed fields: the old
      `activo` flag, dates and id do not matter. */
  lemma RenovarIgnoresHistory(p: Payment, q: Payment, today: int)
    requires p.cedulaCliente == q.cedulaCliente && p.monto == q.monto
    requires p.duracionMeses == q.duracionMeses && p.metodoPago == q.metodoPago
    ensures Renovar(p, today) == Renovar(q, today)
  {
  }
}
