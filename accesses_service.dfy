/** The access gate: a client is let in (or out) only with a membership in
    force, and only then is the movement logged. */
module AccessesService {
  import opened Wrappers
  import opened Text
  import opened Clock
  import opened Records
  import opened PaymentModel
  import opened Store
  import opened PaymentsRepo
  import opened ClientsRepo
  import opened AccessesRepo

  /** The three states the gate distinguishes. */
  datatype Gate = ClienteDesconocido | SinMembresia(cliente: Client) | Admitido(cliente: Client)

  /** Which state a cedula is in on a given day. The movement type plays no
      part: an exit is refused exactly like an entry. */
  function GateFor(clientes: seq<Client>, pagos: seq<Payment>, cedula: string, today: int): (g: Gate)
    ensures g.ClienteDesconocido? <==> !HasCedula(clientes, cedula)
    ensures !g.ClienteDesconocido? ==> g.cliente in clientes && g.cliente.cedula == cedula
    ensures g.Admitido? <==> HasCedula(clientes, cedula) && Vigente(pagos, cedula, today)
  {
    match FindClient(clientes, cedula)
    case None => ClienteDesconocido
    case Some(c) => if Vigente(pagos, cedula, today) then Admitido(c) else SinMembresia(c)
  }

  /** The message of a successful registration. */
  function Confirmacion(tipo: string): (m: string)
    ensures |m| == |"Acceso "| + |tipo| + |" registrado correctamente"|
    ensures m[..7] == "Acceso " && m[7..7 + |tipo|] == Lower(tipo)
    ensures m[7 + |tipo|..] == " registrado correctamente"
  {
    "Acceso " + Lower(tipo) + " registrado correctamente"
  }

  /** The entry a successful registration appends (before its id is set). */
  function Movimiento(cedula: string, tipo: string, now: Timestamp): AccessEntry {
    AccessEntry(None, cedula, tipo, now)
  }

  /** With a clock that never runs backwards, a movement just logged is
      what `ultimo_de` reports for that client next: the latest access of
      the client is one at the registration time. */
  lemma RegistradoEsUltimo(accesos: seq<AccessEntry>, e: AccessEntry)
    requires forall a :: a in accesos ==> NotAfter(a.fechaHora, e.fechaHora)
    ensures UltimoDe(accesos + [e], e.cedulaCliente).Some?
    ensures UltimoDe(accesos + [e], e.cedulaCliente).value.fechaHora == e.fechaHora
  {
  }

  /** The access service over the clients, payments and accesses
      repositories. */
  class AccessesService {
    const clientsRepo: ClientsRepository
    const paymentsRepo: PaymentsRepository
    const accessesRepo: AccessesRepository

    constructor (clientsRepo: ClientsRepository, paymentsRepo: PaymentsRepository, accessesRepo: AccessesRepository)
      ensures this.clientsRepo == clientsRepo && this.paymentsRepo == paymentsRepo
      ensures this.accessesRepo == accessesRepo
    {
      this.clientsRepo := clientsRepo;
      this.paymentsRepo := paymentsRepo;
      this.accessesRepo := accessesRepo;
    }

    /** `registrar(cedula, tipo_movimiento="Entrada")` at time `now`: refused
        for an unknown client or one without a membership in force, with
        the log untouched; otherwise exactly one row is appended. */
    method Registrar(cedula: string, now: Timestamp, tipo: string := "Entrada")
      returns (ok: bool, mensaje: string, cliente: Option<Client>)
      modifies accessesRepo.db`accesos, accessesRepo.db`nextAccesoId
      ensures var g := GateFor(old(clientsRepo.db.clientes), old(paymentsRepo.db.pagos), cedula, now.day);
        && (g.ClienteDesconocido? ==> !ok && mensaje == "Cliente no encontrado" && cliente == None)
        && (g.SinMembresia? ==> !ok && mensaje == "Membresía vencida o inexistente" && cliente == Some(g.cliente))
        && (g.Admitido? ==> ok && mensaje == Confirmacion(tipo) && cliente == Some(g.cliente))
      ensures !ok ==>
        && accessesRepo.db.accesos == old(accessesRepo.db.accesos)
        && accessesRepo.db.nextAccesoId == old(accessesRepo.db.nextAccesoId)
      ensures ok ==>
        && accessesRepo.db.accesos ==
           old(accessesRepo.db.accesos) + [Movimiento(cedula, tipo, now).(id := Some(old(accessesRepo.db.nextAccesoId)))]
        && accessesRepo.db.nextAccesoId == old(accessesRepo.db.nextAccesoId) + 1
    {
      var found := clientsRepo.Get(cedula);
      if found.None? {
        return false, "Cliente no encontrado", None;
      }
      var pagoActivo := paymentsRepo.ActiveForClient(cedula);
      if pagoActivo.None? || !EstaActivo(pagoActivo.value, now.day) {
        return false, "Membresía vencida o inexistente", found;
      }
      var _ := accessesRepo.Add(Movimiento(cedula, tipo, now));
      return true, Confirmacion(tipo), found;
    }

    /** `recientes(limite=20)`. */
    function Recientes(limite: int := 20): (r: seq<AccessRow>)
      reads accessesRepo.db
      ensures r == accessesRepo.RecientesRows(limite)
      ensures limite >= 0 ==> |r| <= limite
    {
      accessesRepo.RecientesRows(limite)
    }

    /** `estadisticas()` on the given day. */
    function Estadisticas(today: int): (s: Stats)
      reads accessesRepo.db
      ensures s == accessesRepo.EstadisticasDel(today)
      ensures s.accesosHoy <= s.accesosSemana
    {
      accessesRepo.EstadisticasDel(today)
    }
  }
}
