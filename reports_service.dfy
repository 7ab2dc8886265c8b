/** The dashboard figures: the membership summary with its retention rate,
    the monthly income rows, and the forwarded access and overdue queries. */
module ReportsService {
  import opened Records
  import opened PaymentModel
  import opened Store
  import opened PaymentsRepo
  import opened ClientsRepo
  import opened AccessesRepo
  import opened ClientsService
  import opened PaymentsService
  import opened AccessesService

  /** `activos / total * 100`, or 0 when there are no clients. */
  function TasaRetencion(activos: nat, total: nat): (r: real)
    ensures total == 0 ==> r == 0.0
    ensures total > 0 ==> r * (total as real) == (activos as real) * 100.0
    ensures activos <= total ==> 0.0 <= r <= 100.0
  {
    if total == 0 then 0.0
    else
      var share := (activos as real) / (total as real);
      assert share * (total as real) == activos as real;
      assert (1.0 - share) * (total as real) == (total as real) - (activos as real);
      share * 100.0
  }

  /** The dictionary `estadisticas_generales()` returns. */
  datatype Generales = Generales(
    totalClientes: nat,
    clientesActivos: nat,
    clientesVencidos: nat,
    ingresosMesActual: real,
    ingresosMesAnterior: real,
    tasaRetencion: real)

  /** One row of the monthly income query: the month as two digits, the
      sum of its payments and their number. */
  datatype MonthTotal = MonthTotal(mes: string, totalMes: real, cantidadPagos: nat)

  /** The dictionary `ingresos_por_mes` builds from such a row. */
  datatype IncomeRow = IncomeRow(mes: string, totalMes: real, cantidadPagos: nat)

  /** `ingresos_por_mes(year)`: the repository's rows, one dictionary each,
      in the same order and with the same three values. */
  function IngresosPorMes(rows: seq<MonthTotal>): (r: seq<IncomeRow>)
    ensures |r| == |rows|
    ensures forall i :: 0 <= i < |r| ==>
      r[i].mes == rows[i].mes && r[i].totalMes == rows[i].totalMes && r[i].cantidadPagos == rows[i].cantidadPagos
  {
    seq(|rows|, i requires 0 <= i < |rows| => IncomeRow(rows[i].mes, rows[i].totalMes, rows[i].cantidadPagos))
  }

  /** The report service over the three other services. */
  class ReportsService {
    const clientsService: ClientsService
    const paymentsService: PaymentsService
    const accessesService: AccessesService

    constructor (clientsService: ClientsService, paymentsService: PaymentsService, accessesService: AccessesService)
      ensures this.clientsService == clientsService && this.paymentsService == paymentsService
      ensures this.accessesService == accessesService
    {
      this.clientsService := clientsService;
      this.paymentsService := paymentsService;
      this.accessesService := accessesService;
    }

    /** `estadisticas_generales()` on the given day, with the two monthly
        income sums supplied by the caller: the summary's three counts copied
        unchanged, and a retention rate between 0 and 100. */
    method EstadisticasGenerales(today: int, ingresosMesActual: real, ingresosMesAnterior: real)
      returns (g: Generales)
      ensures g.totalClientes == |clientsService.clientsRepo.db.clientes|
      ensures g.clientesActivos ==
        ActivosEn(clientsService.clientsRepo.db.clientes, clientsService.paymentsRepo.db.pagos, today)
      ensures g.clientesActivos + g.clientesVencidos == g.totalClientes
      ensures g.tasaRetencion == TasaRetencion(g.clientesActivos, g.totalClientes)
      ensures 0.0 <= g.tasaRetencion <= 100.0
      ensures g.ingresosMesActual == ingresosMesActual && g.ingresosMesAnterior == ingresosMesAnterior
    {
      var resumen := clientsService.ResumenEstado(today);
      g := Generales(resumen.total, resumen.activos, resumen.vencidos,
                     ingresosMesActual, ingresosMesAnterior,
                     TasaRetencion(resumen.activos, resumen.total));
    }

    /** `accesos_estadisticas()` on the given day. */
    function AccesosEstadisticas(today: int): (s: Stats)
      reads accessesService.accessesRepo.db
      ensures s == accessesService.Estadisticas(today)
      ensures s.accesosHoy <= s.accesosSemana
    {
      accessesService.Estadisticas(today)
    }

    /** `clientes_vencidos()` on the given day. */
    function ClientesVencidos(today: int): (r: seq<ExpiryRow>)
      reads paymentsService.paymentsRepo.db
      ensures r == paymentsService.ClientesVencidos(today)
      ensures forall row :: row in r ==> row.fechaVencimiento < today
    {
      paymentsService.ClientesVencidos(today)
    }
  }
}
