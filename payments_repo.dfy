/** The `pagos` table operations: saving a payment (deactivate the client's
    rows, then append), the active-payment lookup, the history listings and
    the overdue query. */
module PaymentsRepo {
  import opened Wrappers
  import opened Seqs
  import opened Records
  import opened PaymentModel
  import opened Store

  /** One row as `UPDATE pagos SET activo = 0 WHERE cedula_cliente = ?` leaves it. */
  function Deactivate(p: Payment, cedula: string): Payment {
    if p.cedulaCliente == cedula then p.(activo := false) else p
  }

  /** The whole table after that `UPDATE`. */
  function Deactivated(pagos: seq<Payment>, cedula: string): (r: seq<Payment>)
    ensures |r| == |pagos|
    ensures forall i :: 0 <= i < |r| ==> !IsActiveOf(r[i], cedula)
    ensures forall i :: 0 <= i < |r| ==> r[i] == pagos[i].(activo := r[i].activo)
    ensures forall i :: 0 <= i < |r| && pagos[i].cedulaCliente != cedula ==> r[i] == pagos[i]
  {
    seq(|pagos|, i requires 0 <= i < |pagos| => Deactivate(pagos[i], cedula))
  }

  /** No client has two rows flagged active. */
  predicate AtMostOneActive(pagos: seq<Payment>) {
    forall i, j :: 0 <= i < j < |pagos| && pagos[i].activo && pagos[j].activo ==>
      pagos[i].cedulaCliente != pagos[j].cedulaCliente
  }

  /** `SELECT * FROM pagos WHERE cedula_cliente = ? AND activo = 1` then
      `fetchone()`: the first such row in table order, or none. */
  function ActiveFor(pagos: seq<Payment>, cedula: string): (r: Option<Payment>)
    ensures r.None? <==> forall p :: p in pagos ==> !IsActiveOf(p, cedula)
    ensures r.Some? ==> r.value in pagos && IsActiveOf(r.value, cedula)
    ensures AtMostOneActive(pagos) ==>
      forall i :: 0 <= i < |pagos| && IsActiveOf(pagos[i], cedula) ==> r == Some(pagos[i])
  {
    if pagos == [] then None
    else if IsActiveOf(pagos[0], cedula) then Some(pagos[0])
    else
      assert forall i :: 1 <= i < |pagos| ==> pagos[i] == pagos[1..][i - 1];
      assert forall p :: p in pagos ==> p == pagos[0] || p in pagos[1..];
      ActiveFor(pagos[1..], cedula)
  }

  /** Saving keeps "at most one active row per client" when it held before. */
  lemma SaveKeepsAtMostOneActive(pagos: seq<Payment>, q: Payment)
    requires AtMostOneActive(pagos)
    ensures AtMostOneActive(Deactivated(pagos, q.cedulaCliente) + [q])
  {
  }

  /** After saving an active payment its client has exactly one active row,
      the new last one, and that is what the active-payment lookup returns,
      whatever the table held before. */
  lemma SaveLeavesOneActive(pagos: seq<Payment>, q: Payment)
    requires q.activo
    ensures var r := Deactivated(pagos, q.cedulaCliente) + [q];
      && (forall i :: 0 <= i < |r| && IsActiveOf(r[i], q.cedulaCliente) ==> i == |r| - 1)
      && ActiveFor(r, q.cedulaCliente) == Some(q)
      && Count(r, (p: Payment) => IsActiveOf(p, q.cedulaCliente)) == 1
  {
    var d := Deactivated(pagos, q.cedulaCliente);
    var r := d + [q];
    var isActive := (p: Payment) => IsActiveOf(p, q.cedulaCliente);
    CountNone(d, isActive);
    CountSnoc(d, q, isActive);
    ActiveForAfterInactive(d, q);
  }

  lemma {:induction false} CountNone<T(!new)>(s: seq<T>, p: T -> bool)
    requires forall i :: 0 <= i < |s| ==> !p(s[i])
    ensures Count(s, p) == 0
  {
    if s != [] {
      var init := s[..|s| - 1];
      assert s == init + [s[|s| - 1]];
      CountNone(init, p);
      CountSnoc(init, s[|s| - 1], p);
    }
  }

  lemma {:induction false} ActiveForAfterInactive(d: seq<Payment>, q: Payment)
    requires q.activo
    requires forall i :: 0 <= i < |d| ==> !IsActiveOf(d[i], q.cedulaCliente)
    ensures ActiveFor(d + [q], q.cedulaCliente) == Some(q)
  {
    if d != [] {
      assert (d + [q])[1..] == d[1..] + [q];
      ActiveForAfterInactive(d[1..], q);
    }
  }

  /** `pago and pago.esta_activo` for `pago = active_for_client(cedula)`:
      the client's membership is in force today. */
  predicate Vigente(pagos: seq<Payment>, cedula: string, today: int) {
    match ActiveFor(pagos, cedula)
    case Some(p) => EstaActivo(p, today)
    case None => false
  }

  /** On a table built through `save`, a membership is in force exactly
      when some active row of the client is valid today. */
  lemma VigenteMeaning(pagos: seq<Payment>, cedula: string, today: int)
    requires AtMostOneActive(pagos)
    ensures Vigente(pagos, cedula, today) <==>
      exists i :: 0 <= i < |pagos| && IsActiveOf(pagos[i], cedula) && EstaActivo(pagos[i], today)
  {
  }

  /** Right after saving an active payment, the client's membership is in
      force exactly on the days up to the new expiry date. */
  lemma VigenteAfterSave(pagos: seq<Payment>, q: Payment, today: int)
    requires q.activo
    ensures Vigente(Deactivated(pagos, q.cedulaCliente) + [q], q.cedulaCliente, today) <==>
      today <= q.fechaVencimiento
  {
    SaveLeavesOneActive(pagos, q);
  }

  /** `ORDER BY fecha_pago DESC`. */
  predicate PaidNotBefore(a: Payment, b: Payment) {
    a.fechaPago >= b.fechaPago
  }

  lemma PaidNotBeforeOrders()
    ensures TotalPreorder(PaidNotBefore)
  {
  }

  /** `for_client(cedula)`: that client's payments, newest payment date first. */
  function ForClient(pagos: seq<Payment>, cedula: string): (r: seq<Payment>)
    ensures forall p :: p in r <==> p in pagos && p.cedulaCliente == cedula
    ensures multiset(r) == multiset(Filter(pagos, (p: Payment) => p.cedulaCliente == cedula))
    ensures SortedBy(r, PaidNotBefore)
  {
    var mine := Filter(pagos, (p: Payment) => p.cedulaCliente == cedula);
    PaidNotBeforeOrders();
    SortBySorted(mine, PaidNotBefore);
    SortBy(mine, PaidNotBefore)
  }

  /** `all()`: every payment, newest payment date first. */
  function AllPayments(pagos: seq<Payment>): (r: seq<Payment>)
    ensures multiset(r) == multiset(pagos)
    ensures SortedBy(r, PaidNotBefore)
  {
    PaidNotBeforeOrders();
    SortBySorted(pagos, PaidNotBefore);
    SortBy(pagos, PaidNotBefore)
  }

  /** A client joined with the expiry date of one of their payments. */
  datatype ExpiryRow = ExpiryRow(cliente: Client, fechaVencimiento: int)

  /** Payment `p` joins into `row`: its client exists, is `row`'s client,
      and `row` carries its expiry date. */
  predicate Yields(p: Payment, clientes: seq<Client>, row: ExpiryRow) {
    FindClient(clientes, p.cedulaCliente) == Some(row.cliente) && row.fechaVencimiento == p.fechaVencimiento
  }

  /** How many of `pagos` join into `row`. */
  function Yielding(pagos: seq<Payment>, clientes: seq<Client>, row: ExpiryRow): nat {
    Count(pagos, (p: Payment) => Yields(p, clientes, row))
  }

  /** `clientes c JOIN pagos p ON c.cedula = p.cedula_cliente`, one row per
      payment whose client exists. */
  function JoinClients(pagos: seq<Payment>, clientes: seq<Client>): (r: seq<ExpiryRow>)
    ensures forall row :: row in r <==> exists p :: p in pagos && Yields(p, clientes, row)
    ensures |r| == Count(pagos, (p: Payment) => FindClient(clientes, p.cedulaCliente).Some?)
  {
    if pagos == [] then []
    else
      var p := pagos[0];
      assert pagos == [p] + pagos[1..];
      assert forall q :: q in pagos <==> q == p || q in pagos[1..];
      CountCons(p, pagos[1..], (p: Payment) => FindClient(clientes, p.cedulaCliente).Some?);
      JoinHead(p, clientes) + JoinClients(pagos[1..], clientes)
  }

  /** The row one payment contributes to the join: none when its client
      does not exist. */
  function JoinHead(p: Payment, clientes: seq<Client>): (r: seq<ExpiryRow>)
    ensures forall row :: multiset(r)[row] == if Yields(p, clientes, row) then 1 else 0
  {
    match FindClient(clientes, p.cedulaCliente)
    case Some(c) => [ExpiryRow(c, p.fechaVencimiento)]
    case None => []
  }

  /** The join, counted with repetition: each row appears once for every
      payment that yields it. */
  lemma {:induction false} JoinClientsMultiplicity(pagos: seq<Payment>, clientes: seq<Client>)
    ensures forall row :: multiset(JoinClients(pagos, clientes))[row] == Yielding(pagos, clientes, row)
  {
    if pagos != [] {
      var p, rest := pagos[0], pagos[1..];
      assert pagos == [p] + rest;
      JoinClientsMultiplicity(rest, clientes);
      assert JoinClients(pagos, clientes) == JoinHead(p, clientes) + JoinClients(rest, clientes);
      forall row
        ensures multiset(JoinClients(pagos, clientes))[row] == Yielding(pagos, clientes, row)
      {
        CountCons(p, rest, (p: Payment) => Yields(p, clientes, row));
      }
    }
  }

  /** `ORDER BY p.fecha_vencimiento ASC`. */
  predicate ExpiresNotLater(a: ExpiryRow, b: ExpiryRow) {
    a.fechaVencimiento <= b.fechaVencimiento
  }

  lemma ExpiresNotLaterOrders()
    ensures TotalPreorder(ExpiresNotLater)
  {
  }

  /** An active payment whose expiry date is already past. */
  predicate OverdueOn(p: Payment, today: int) {
    p.activo && p.fechaVencimiento < today
  }

  /** `overdue_clients()`: existing clients with an active payment that
      expired before today, soonest expiry first; one row per such payment. */
  function Overdue(clientes: seq<Client>, pagos: seq<Payment>, today: int): (r: seq<ExpiryRow>)
    ensures forall row :: row in r ==> row.fechaVencimiento < today && row.cliente in clientes
    ensures forall row :: row in r <==> exists p :: p in pagos && OverdueOn(p, today) && Yields(p, clientes, row)
    ensures SortedBy(r, ExpiresNotLater)
  {
    var rows := JoinClients(Filter(pagos, (p: Payment) => OverdueOn(p, today)), clientes);
    ExpiresNotLaterOrders();
    SortBySorted(rows, ExpiresNotLater);
    SortBy(rows, ExpiresNotLater)
  }

  /** `overdue_clients()`, counted with repetition: each row appears once
      for every overdue payment that yields it. */
  lemma OverdueMultiplicity(clientes: seq<Client>, pagos: seq<Payment>, today: int)
    ensures forall row :: multiset(Overdue(clientes, pagos, today))[row] == Count(pagos, (p: Payment) => OverdueOn(p, today) && Yields(p, clientes, row))
  {
    var due := (p: Payment) => OverdueOn(p, today);
    JoinClientsMultiplicity(Filter(pagos, due), clientes);
    forall row {
      CountFilter(pagos, due, (p: Payment) => Yields(p, clientes, row), (p: Payment) => OverdueOn(p, today) && Yields(p, clientes, row));
    }
  }

  /** The repository over the shared database's `pagos` table. */
  class PaymentsRepository {
    const db: Database

    constructor (db: Database)
      ensures this.db == db
    {
      this.db := db;
    }

    /** `save(payment)`: every row of the payment's client gets `activo = 0`,
        then the payment is appended under the next id; always true. */
    method Save(payment: Payment) returns (ok: bool)
      modifies db`pagos, db`nextPagoId
      ensures ok
      ensures db.pagos == Deactivated(old(db.pagos), payment.cedulaCliente) + [payment.(id := Some(old(db.nextPagoId)))]
      ensures db.nextPagoId == old(db.nextPagoId) + 1
    {
      var cedula := payment.cedulaCliente;
      var i := 0;
      while i < |db.pagos|
        invariant 0 <= i <= |db.pagos| == |old(db.pagos)|
        invariant forall k :: 0 <= k < i ==> db.pagos[k] == Deactivate(old(db.pagos)[k], cedula)
        invariant forall k :: i <= k < |db.pagos| ==> db.pagos[k] == old(db.pagos)[k]
        invariant db.nextPagoId == old(db.nextPagoId)
      {
        if db.pagos[i].cedulaCliente == cedula {
          db.pagos := db.pagos[i := db.pagos[i].(activo := false)];
        }
        i := i + 1;
      }
      assert db.pagos == Deactivated(old(db.pagos), cedula);
      db.pagos := db.pagos + [payment.(id := Some(db.nextPagoId))];
      db.nextPagoId := db.nextPagoId + 1;
      ok := true;
    }

    /** `active_for_client(cedula)`. */
    function ActiveForClient(cedula: string): Option<Payment>
      reads db
    {
      ActiveFor(db.pagos, cedula)
    }

    /** `for_client(cedula)`. */
    function ForClientRows(cedula: string): seq<Payment>
      reads db
    {
      ForClient(db.pagos, cedula)
    }

    /** `all()`. */
    function All(): seq<Payment>
      reads db
    {
      AllPayments(db.pagos)
    }

    /** `overdue_clients()`, on the given day. */
    function OverdueClients(today: int): seq<ExpiryRow>
      reads db
    {
      Overdue(db.clientes, db.pagos, today)
    }
  }
}
