/** Payment registration (rejection order, expiry, activation) and the
    payment queries the service forwards to its repository. */
module PaymentsService {
  import opened Wrappers
  import opened Seqs
  import opened Validators
  import opened Records
  import opened PaymentModel
  import opened Store
  import opened PaymentsRepo
  import opened ClientsRepo

  /** The checks `registrar_pago` makes, in this order, the first failure
      being the one reported. */
  function CheckPago(clientes: seq<Client>, cedula: string, monto: real, duracionMeses: int): (r: Outcome<ValidationError>)
    ensures r.Pass? <==> HasCedula(clientes, cedula) && monto > 0.0 && duracionMeses > 0
    ensures r == Fail(ClienteNoEncontrado) <==> !HasCedula(clientes, cedula)
    ensures r == Fail(MontoNoPositivo) <==> HasCedula(clientes, cedula) && monto <= 0.0
    ensures r == Fail(DuracionNoPositiva) <==> HasCedula(clientes, cedula) && monto > 0.0 && duracionMeses <= 0
  {
    if FindClient(clientes, cedula).None? then Fail(ClienteNoEncontrado)
    else if monto <= 0.0 then Fail(MontoNoPositivo)
    else if duracionMeses <= 0 then Fail(DuracionNoPositiva)
    else Pass
  }

  /** The payment `registrar_pago` builds: unsaved, active, paid today. */
  function NuevoPago(cedula: string, monto: real, duracionMeses: int, metodo: string, today: int): Payment {
    Payment(None, cedula, monto, duracionMeses, today, Vencimiento(today, duracionMeses), metodo, true)
  }

  /** A new payment is what renewing any payment with the same client,
      amount, duration and method gives on that day, so it is in force on
      the day it is made and runs for 30 days per month. */
  lemma NuevoPagoVigente(cedula: string, monto: real, duracionMeses: int, metodo: string, today: int)
    requires duracionMeses > 0
    ensures var p := NuevoPago(cedula, monto, duracionMeses, metodo, today);
      && p == Renovar(p, today)
      && EstaActivo(p, today)
      && VenceEn(p, Some(today), today) == DiasPorMes * duracionMeses
  {
  }

  /** The payment service over a payments and a clients repository. */
  class PaymentsService {
    const paymentsRepo: PaymentsRepository
    const clientsRepo: ClientsRepository

    constructor (paymentsRepo: PaymentsRepository, clientsRepo: ClientsRepository)
      ensures this.paymentsRepo == paymentsRepo && this.clientsRepo == clientsRepo
    {
      this.paymentsRepo := paymentsRepo;
      this.clientsRepo := clientsRepo;
    }

    /** `registrar_pago(cedula, monto, duracion_meses, metodo)` on the given
        day: a rejection saves nothing; otherwise the new payment is saved,
        which retires the client's earlier active rows, and is returned
        without its id. */
    method RegistrarPago(cedula: string, monto: real, duracionMeses: int, metodo: string, today: int)
      returns (r: Result<Payment, ValidationError>)
      modifies paymentsRepo.db`pagos, paymentsRepo.db`nextPagoId
      ensures var check := CheckPago(old(clientsRepo.db.clientes), cedula, monto, duracionMeses);
        check.Fail? ==>
          && r == Err(check.error)
          && paymentsRepo.db.pagos == old(paymentsRepo.db.pagos)
          && paymentsRepo.db.nextPagoId == old(paymentsRepo.db.nextPagoId)
      ensures CheckPago(old(clientsRepo.db.clientes), cedula, monto, duracionMeses).Pass? ==>
        && r == Ok(NuevoPago(cedula, monto, duracionMeses, metodo, today))
        && paymentsRepo.db.pagos ==
           Deactivated(old(paymentsRepo.db.pagos), cedula) + [r.value.(id := Some(old(paymentsRepo.db.nextPagoId)))]
        && paymentsRepo.db.nextPagoId == old(paymentsRepo.db.nextPagoId) + 1
      ensures r.Ok? ==>
        && ActiveFor(paymentsRepo.db.pagos, cedula) == Some(r.value.(id := Some(old(paymentsRepo.db.nextPagoId))))
        && Vigente(paymentsRepo.db.pagos, cedula, today)
        && EstaActivo(r.value, today)
    {
      var check := CheckPago(clientsRepo.db.clientes, cedula, monto, duracionMeses);
      if check.Fail? {
        return Err(check.error);
      }
      var payment := NuevoPago(cedula, monto, duracionMeses, metodo, today);
      NuevoPagoVigente(cedula, monto, duracionMeses, metodo, today);
      var stored := payment.(id := Some(paymentsRepo.db.nextPagoId));
      SaveLeavesOneActive(paymentsRepo.db.pagos, stored);
      VigenteAfterSave(paymentsRepo.db.pagos, stored, today);
      var _ := paymentsRepo.Save(payment);
      r := Ok(payment);
    }

    /** `pago_activo(cedula)`. */
    function PagoActivo(cedula: string): (r: Option<Payment>)
      reads paymentsRepo.db
      ensures r == paymentsRepo.ActiveForClient(cedula)
      ensures r.Some? ==> r.value in paymentsRepo.db.pagos && IsActiveOf(r.value, cedula)
    {
      paymentsRepo.ActiveForClient(cedula)
    }

    /** `historial_cliente(cedula)`. */
    function HistorialCliente(cedula: string): (r: seq<Payment>)
      reads paymentsRepo.db
      ensures r == paymentsRepo.ForClientRows(cedula)
      ensures forall p :: p in r <==> p in paymentsRepo.db.pagos && p.cedulaCliente == cedula
    {
      paymentsRepo.ForClientRows(cedula)
    }

    /** `todos()`. */
    function Todos(): (r: seq<Payment>)
      reads paymentsRepo.db
      ensures r == paymentsRepo.All()
      ensures multiset(r) == multiset(paymentsRepo.db.pagos)
    {
      paymentsRepo.All()
    }

    /** `clientes_vencidos()` on the given day. */
    function ClientesVencidos(today: int): (r: seq<ExpiryRow>)
      reads paymentsRepo.db
      ensures r == paymentsRepo.OverdueClients(today)
      ensures forall row :: row in r ==> row.fechaVencimiento < today
    {
      paymentsRepo.OverdueClients(today)
    }
  }
}
