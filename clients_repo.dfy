/** The `clientes` table operations: keyed insert, overwrite, delete, the
    ordered listing, the multi-field search with its payment-status label,
    and the "expiring soon" query. */
module ClientsRepo {
  import opened Wrappers
  import opened Text
  import opened Seqs
  import opened Records
  import opened PaymentModel
  import opened Store
  import opened PaymentsRepo

  /** The row `add` inserts: the client, with `fecha_registro` defaulting to today. */
  function Stored(c: Client, today: int): (r: Client)
    ensures r.fechaRegistro.Some?
    ensures c.fechaRegistro.Some? ==> r == c
    ensures c.fechaRegistro.None? ==> r == c.(fechaRegistro := Some(today))
  {
    c.(fechaRegistro := Some(c.fechaRegistro.GetOr(today)))
  }

  /** One row after `UPDATE clientes SET nombre = ?, ..., foto_path = ?`. */
  function UpdateRow(row: Client, c: Client): Client {
    row.(nombre := c.nombre, apellido := c.apellido, telefono := c.telefono,
         telefonoEmergencia := c.telefonoEmergencia, direccion := c.direccion,
         email := c.email, fotoPath := c.fotoPath)
  }

  /** The table after `update(c)`: the row keyed `c.cedula` takes every field
      of `c` except `cedula` and `fecha_registro`; other rows are untouched. */
  function Overwrite(clientes: seq<Client>, c: Client): (r: seq<Client>)
    ensures |r| == |clientes|
    ensures forall i :: 0 <= i < |r| ==>
      r[i].cedula == clientes[i].cedula && r[i].fechaRegistro == clientes[i].fechaRegistro
    ensures forall i :: 0 <= i < |r| && clientes[i].cedula != c.cedula ==> r[i] == clientes[i]
    ensures forall i :: 0 <= i < |r| && clientes[i].cedula == c.cedula ==>
      r[i] == c.(fechaRegistro := clientes[i].fechaRegistro)
  {
    seq(|clientes|, i requires 0 <= i < |clientes| =>
      if clientes[i].cedula == c.cedula then UpdateRow(clientes[i], c) else clientes[i])
  }

  /** The table after `DELETE FROM clientes WHERE cedula = ?`. */
  function Without(clientes: seq<Client>, cedula: string): (r: seq<Client>)
    ensures forall x :: x in r <==> x in clientes && x.cedula != cedula
    ensures !HasCedula(r, cedula)
    ensures UniqueCedulas(clientes) ==> UniqueCedulas(r)
  {
    var r := Filter(clientes, (x: Client) => x.cedula != cedula);
    if UniqueCedulas(clientes) then
      FilterKeepsUnique(clientes, (x: Client) => x.cedula != cedula);
      r
    else r
  }

  /** Removing rows never breaks the primary key. */
  lemma {:induction false} FilterKeepsUnique(clientes: seq<Client>, p: Client -> bool)
    requires UniqueCedulas(clientes)
    ensures UniqueCedulas(Filter(clientes, p))
  {
    if clientes != [] {
      var init, last := clientes[..|clientes| - 1], clientes[|clientes| - 1];
      assert clientes == init + [last];
      FilterKeepsUnique(init, p);
      var f := Filter(init, p);
      forall k | 0 <= k < |f| ensures f[k].cedula != last.cedula {
        assert f[k] in init;
      }
    }
  }

  /** `ORDER BY nombre, apellido` under SQLite's binary collation. */
  predicate ClientOrder(a: Client, b: Client) {
    LexLe(a.nombre, b.nombre) && (a.nombre == b.nombre ==> LexLe(a.apellido, b.apellido))
  }

  lemma ClientOrderOrders()
    ensures TotalPreorder(ClientOrder)
  {
    forall a: Client, b: Client ensures ClientOrder(a, b) || ClientOrder(b, a) {
      LexTotal(a.nombre, b.nombre);
      LexTotal(a.apellido, b.apellido);
    }
    forall a: Client, b: Client, c: Client | ClientOrder(a, b) && ClientOrder(b, c)
      ensures ClientOrder(a, c)
    {
      LexTransitive(a.nombre, b.nombre, c.nombre);
      if a.nombre == c.nombre {
        LexAntisymmetric(a.nombre, b.nombre);
        LexTransitive(a.apellido, b.apellido, c.apellido);
      }
    }
  }

  /** `all()`: every client, ordered by name then surname. */
  function Listing(clientes: seq<Client>): (r: seq<Client>)
    ensures multiset(r) == multiset(clientes)
    ensures SortedBy(r, ClientOrder)
  {
    ClientOrderOrders();
    SortBySorted(clientes, ClientOrder);
    SortBy(clientes, ClientOrder)
  }

  /** The `estado_pago` label of a search row. */
  datatype EstadoPago = Activo | Vencido | SinPago

  /** The text the query returns for each label. */
  function Label(e: EstadoPago): string {
    match e
    case Activo => "Activo"
    case Vencido => "Vencido"
    case SinPago => "Sin pago"
  }

  /** The `CASE` on the joined payment's expiry date (NULL when no active
      payment joined). */
  function Classify(fechaVencimiento: Option<int>, today: int): (e: EstadoPago)
    ensures e == SinPago <==> fechaVencimiento.None?
    ensures e == Activo <==> fechaVencimiento.Some? && fechaVencimiento.value >= today
    ensures e == Vencido <==> fechaVencimiento.Some? && fechaVencimiento.value < today
  {
    match fechaVencimiento
    case None => SinPago
    case Some(d) => if d >= today then Activo else Vencido
  }

  /** The `estado` filter: "Activos" keeps `Activo`, "Vencidos" keeps
      `Vencido` and `Sin pago`, anything else keeps every row. */
  predicate Keeps(estado: string, e: EstadoPago) {
    if estado == "Activos" then e == Activo
    else if estado == "Vencidos" then e == Vencido || e == SinPago
    else true
  }

  /** One result row: the client, the joined expiry date and its label. */
  datatype SearchRow = SearchRow(cliente: Client, fechaVencimiento: Option<int>, estadoPago: EstadoPago)

  /** One `c.<field> LIKE '%pattern%'` condition. */
  datatype SearchFilter = SearchFilter(field: string, pattern: string)

  /** The searchable columns, in the order the conditions are built. */
  const SearchFields: seq<string> := ["cedula", "nombre", "apellido", "telefono"]

  /** The column a search field names; NULL for a missing phone. */
  function FieldValue(c: Client, field: string): Option<string> {
    if field == "cedula" then Some(c.cedula)
    else if field == "nombre" then Some(c.nombre)
    else if field == "apellido" then Some(c.apellido)
    else if field == "telefono" then c.telefono
    else None
  }

  /** `LIKE` on a NULL column is never true. */
  predicate FilterMatches(c: Client, f: SearchFilter) {
    match FieldValue(c, f.field)
    case None => false
    case Some(v) => LikeSubstring(v, f.pattern)
  }

  /** The conditions joined with `AND`. */
  predicate MatchesAll(c: Client, filters: seq<SearchFilter>) {
    forall i :: 0 <= i < |filters| ==> FilterMatches(c, filters[i])
  }

  /** A criterion is in force when its field is searchable and its value non-empty. */
  predicate InForce(criteria: map<string, string>, field: string) {
    field in criteria && criteria[field] != ""
  }

  /** The conditions built for the given fields, in field order. */
  function FiltersFrom(fields: seq<string>, criteria: map<string, string>): seq<SearchFilter> {
    if fields == [] then []
    else
      var field := fields[|fields| - 1];
      FiltersFrom(fields[..|fields| - 1], criteria)
        + (if InForce(criteria, field) then [SearchFilter(field, criteria[field])] else [])
  }

  /** The conditions `search` builds from its criteria dictionary. */
  function ActiveFilters(criteria: map<string, string>): seq<SearchFilter> {
    FiltersFrom(SearchFields, criteria)
  }

  /** What the criteria mean: every non-empty value among the four searchable
      fields occurs, case-insensitively, in that field; other keys are ignored. */
  predicate MatchesCriteria(c: Client, criteria: map<string, string>) {
    forall field :: field in SearchFields && InForce(criteria, field) ==>
      FilterMatches(c, SearchFilter(field, criteria[field]))
  }

  lemma {:induction false} FiltersFromMeaning(fields: seq<string>, criteria: map<string, string>, c: Client)
    ensures MatchesAll(c, FiltersFrom(fields, criteria)) <==>
      forall field :: field in fields && InForce(criteria, field) ==>
        FilterMatches(c, SearchFilter(field, criteria[field]))
  {
    if fields != [] {
      var init, last := fields[..|fields| - 1], fields[|fields| - 1];
      assert fields == init + [last];
      FiltersFromMeaning(init, criteria, c);
      var head := FiltersFrom(init, criteria);
      var tail := if InForce(criteria, last) then [SearchFilter(last, criteria[last])] else [];
      assert MatchesAll(c, head + tail) <==> MatchesAll(c, head) && MatchesAll(c, tail) by {
        assert forall i :: 0 <= i < |head| ==> (head + tail)[i] == head[i];
        assert forall i :: 0 <= i < |tail| ==> (head + tail)[|head| + i] == tail[i];
      }
      if InForce(criteria, last) {
        assert tail == [SearchFilter(last, criteria[last])];
        assert MatchesAll(c, tail) <==> FilterMatches(c, tail[0]);
      } else {
        assert tail == [];
      }
      assert forall field :: field in fields <==> field in init || field == last;
    }
  }

  /** The built conditions hold of a client exactly when the criteria do. */
  lemma ActiveFiltersMeaning(criteria: map<string, string>, c: Client)
    ensures MatchesAll(c, ActiveFilters(criteria)) <==> MatchesCriteria(c, criteria)
  {
    FiltersFromMeaning(SearchFields, criteria, c);
  }

  /** `search`'s loop over the four fields, collecting one condition per
      non-empty criterion. */
  method CollectFilters(criteria: map<string, string>) returns (filters: seq<SearchFilter>)
    ensures filters == ActiveFilters(criteria)
    ensures forall c :: MatchesAll(c, filters) <==> MatchesCriteria(c, criteria)
  {
    filters := [];
    for i := 0 to |SearchFields|
      invariant filters == FiltersFrom(SearchFields[..i], criteria)
    {
      var field := SearchFields[i];
      assert SearchFields[..i + 1][..i] == SearchFields[..i];
      if field in criteria && criteria[field] != "" {
        filters := filters + [SearchFilter(field, criteria[field])];
      }
    }
    assert SearchFields[..|SearchFields|] == SearchFields;
    forall c ensures MatchesAll(c, filters) <==> MatchesCriteria(c, criteria) {
      ActiveFiltersMeaning(criteria, c);
    }
  }

  /** A row the `LEFT JOIN pagos p ... AND p.activo = 1` can produce for its
      client: an active payment's expiry date, or NULL when the client has
      none; labelled by `Classify`. */
  predicate JoinedRow(row: SearchRow, pagos: seq<Payment>, today: int) {
    && row.estadoPago == Classify(row.fechaVencimiento, today)
    && (row.fechaVencimiento.None? ==> forall p :: p in pagos ==> !IsActiveOf(p, row.cliente.cedula))
    && (row.fechaVencimiento.Some? ==>
          exists p :: p in pagos && IsActiveOf(p, row.cliente.cedula) && p.fechaVencimiento == row.fechaVencimiento.value)
  }

  /** The active payments of a client, in table order. */
  function ActiveRows(pagos: seq<Payment>, cedula: string): seq<Payment> {
    Filter(pagos, (p: Payment) => IsActiveOf(p, cedula))
  }

  /** The row carries the payment's expiry date. */
  predicate HasExpiry(p: Payment, row: SearchRow) {
    row.fechaVencimiento == Some(p.fechaVencimiento)
  }

  /** How many times the `LEFT JOIN` produces `row` for `row`'s client:
      once for each of the client's active payments with that expiry date,
      or once as the NULL row when the client has no active payment, and
      only with the label `Classify` gives. */
  function JoinMultiplicity(row: SearchRow, pagos: seq<Payment>, today: int): nat {
    if row.estadoPago != Classify(row.fechaVencimiento, today) then 0
    else if row.fechaVencimiento.None? then (if |ActiveRows(pagos, row.cliente.cedula)| == 0 then 1 else 0)
    else Count(ActiveRows(pagos, row.cliente.cedula), (p: Payment) => HasExpiry(p, row))
  }

  /** One joined row per active payment in `act`, in order. */
  function PaymentRows(c: Client, act: seq<Payment>, today: int): (r: seq<SearchRow>)
    ensures |r| == |act|
    ensures forall k :: 0 <= k < |r| ==>
      r[k] == SearchRow(c, Some(act[k].fechaVencimiento), Classify(Some(act[k].fechaVencimiento), today))
  {
    if act == [] then []
    else [SearchRow(c, Some(act[0].fechaVencimiento), Classify(Some(act[0].fechaVencimiento), today))] + PaymentRows(c, act[1..], today)
  }

  /** Each payment row appears once per payment with that expiry date. */
  lemma {:induction false} PaymentRowsMultiplicity(c: Client, act: seq<Payment>, today: int)
    ensures forall row :: multiset(PaymentRows(c, act, today))[row] == if row.cliente == c && row.fechaVencimiento.Some? && row.estadoPago == Classify(row.fechaVencimiento, today)
      then Count(act, (p: Payment) => HasExpiry(p, row)) else 0
  {
    if act != [] {
      var p := act[0];
      var head := SearchRow(c, Some(p.fechaVencimiento), Classify(Some(p.fechaVencimiento), today));
      assert act == [p] + act[1..];
      assert PaymentRows(c, act, today) == [head] + PaymentRows(c, act[1..], today);
      PaymentRowsMultiplicity(c, act[1..], today);
      forall row: SearchRow {
        CountCons(p, act[1..], (p: Payment) => HasExpiry(p, row));
      }
    }
  }

  /** The joined rows of one client: one per active payment, or the single
      NULL row when it has none. */
  function RowsFor(c: Client, pagos: seq<Payment>, today: int): (r: seq<SearchRow>)
    ensures forall row :: row in r <==> row.cliente == c && JoinedRow(row, pagos, today)
    ensures |r| == if |ActiveRows(pagos, c.cedula)| == 0 then 1 else |ActiveRows(pagos, c.cedula)|
  {
    var act := ActiveRows(pagos, c.cedula);
    if act == [] then
      [SearchRow(c, None, SinPago)]
    else
      var r := PaymentRows(c, act, today);
      assert act[0] in pagos && IsActiveOf(act[0], c.cedula);
      assert forall row: SearchRow :: row.cliente == c && JoinedRow(row, pagos, today) ==> row.fechaVencimiento.Some?;
      assert forall row: SearchRow :: row.cliente == c && JoinedRow(row, pagos, today) ==> row in r by {
        forall row: SearchRow | row.cliente == c && JoinedRow(row, pagos, today) ensures row in r {
          var p :| p in pagos && IsActiveOf(p, c.cedula) && p.fechaVencimiento == row.fechaVencimiento.value;
          assert p in act;
          var k :| 0 <= k < |act| && act[k] == p;
          assert r[k] == row;
        }
      }
      assert forall k :: 0 <= k < |r| ==> act[k] in act;
      r
  }

  /** A client's joined rows, counted with repetition: exactly
      `JoinMultiplicity` copies of each row of that client, none of others. */
  lemma RowsForMultiplicity(c: Client, pagos: seq<Payment>, today: int)
    ensures forall row :: multiset(RowsFor(c, pagos, today))[row] == if row.cliente == c then JoinMultiplicity(row, pagos, today) else 0
  {
    PaymentRowsMultiplicity(c, ActiveRows(pagos, c.cedula), today);
  }

  /** `clientes c LEFT JOIN pagos p ON c.cedula = p.cedula_cliente AND p.activo = 1`. */
  function LeftJoin(clientes: seq<Client>, pagos: seq<Payment>, today: int): (r: seq<SearchRow>)
    ensures forall row :: row in r <==> row.cliente in clientes && JoinedRow(row, pagos, today)
  {
    if clientes == [] then []
    else
      assert forall x :: x in clientes <==> x == clientes[0] || x in clientes[1..];
      RowsFor(clientes[0], pagos, today) + LeftJoin(clientes[1..], pagos, today)
  }

  /** The joined table, counted with repetition: each client of the table
      (as often as it is listed) contributes its `JoinMultiplicity` copies
      of each of its rows. */
  lemma {:induction false} LeftJoinMultiplicity(clientes: seq<Client>, pagos: seq<Payment>, today: int)
    ensures forall row :: multiset(LeftJoin(clientes, pagos, today))[row] == multiset(clientes)[row.cliente] * JoinMultiplicity(row, pagos, today)
  {
    if clientes != [] {
      var c, rest := clientes[0], clientes[1..];
      assert clientes == [c] + rest;
      LeftJoinMultiplicity(rest, pagos, today);
      RowsForMultiplicity(c, pagos, today);
      var whole, first, others := LeftJoin(clientes, pagos, today), RowsFor(c, pagos, today), LeftJoin(rest, pagos, today);
      assert whole == first + others;
      assert multiset(whole) == multiset(first) + multiset(others);
      forall row: SearchRow
        ensures multiset(whole)[row] == multiset(clientes)[row.cliente] * JoinMultiplicity(row, pagos, today)
      {
        MultiplicityStep(multiset(whole)[row], multiset(first)[row], multiset(others)[row],
                         multiset(clientes)[row.cliente], multiset(rest)[row.cliente],
                         JoinMultiplicity(row, pagos, today), row.cliente == c);
      }
    }
  }

  /** Arithmetic of one `LeftJoinMultiplicity` step: a client listed once
      more adds its `m` copies. */
  lemma MultiplicityStep(whole: nat, first: nat, others: nat, n: nat, k: nat, m: nat, same: bool)
    requires whole == first + others && others == k * m
    requires first == (if same then m else 0) && n == k + (if same then 1 else 0)
    ensures whole == n * m
  {
    if same {
      assert (k + 1) * m == k * m + m;
    }
  }

  /** Result rows keep `ORDER BY c.nombre, c.apellido`. */
  predicate RowOrder(a: SearchRow, b: SearchRow) {
    ClientOrder(a.cliente, b.cliente)
  }

  lemma RowOrderOrders()
    ensures TotalPreorder(RowOrder)
  {
    ClientOrderOrders();
    forall a: SearchRow, b: SearchRow ensures RowOrder(a, b) || RowOrder(b, a) {
      assert ClientOrder(a.cliente, b.cliente) || ClientOrder(b.cliente, a.cliente);
    }
    forall a: SearchRow, b: SearchRow, c: SearchRow | RowOrder(a, b) && RowOrder(b, c)
      ensures RowOrder(a, c)
    {
      assert ClientOrder(a.cliente, b.cliente) && ClientOrder(b.cliente, c.cliente);
    }
  }

  /** The search query for already-built conditions: a row for each
      client meeting them and each of its active payments (or one NULL
      row), restricted by `estado`, ordered by name. */
  function SearchRows(clientes: seq<Client>, pagos: seq<Payment>, filters: seq<SearchFilter>,
                      estado: string, today: int): (r: seq<SearchRow>)
    ensures forall row :: row in r <==>
      && row.cliente in clientes
      && MatchesAll(row.cliente, filters)
      && Keeps(estado, row.estadoPago)
      && JoinedRow(row, pagos, today)
    ensures forall row :: multiset(r)[row] == if MatchesAll(row.cliente, filters) && Keeps(estado, row.estadoPago)
      then multiset(clientes)[row.cliente] * JoinMultiplicity(row, pagos, today) else 0
    ensures SortedBy(r, RowOrder)
  {
    var matching := Filter(clientes, (c: Client) => MatchesAll(c, filters));
    var rows := Filter(LeftJoin(matching, pagos, today), (row: SearchRow) => Keeps(estado, row.estadoPago));
    FilterMultiset(clientes, (c: Client) => MatchesAll(c, filters));
    LeftJoinMultiplicity(matching, pagos, today);
    FilterMultiset(LeftJoin(matching, pagos, today), (row: SearchRow) => Keeps(estado, row.estadoPago));
    RowOrderOrders();
    SortBySorted(rows, RowOrder);
    SortBy(rows, RowOrder)
  }

  /** With at most one active payment per client, each client joins exactly
      one row, and its label is `Activo` exactly when the client's active
      payment `esta_activo`: the search label and the per-client check of
      the status summary agree. */
  lemma {:induction false} SearchLabelAgreesWithValidity(c: Client, pagos: seq<Payment>, today: int)
    requires AtMostOneActive(pagos)
    ensures |RowsFor(c, pagos, today)| == 1
    ensures (RowsFor(c, pagos, today)[0].estadoPago == Activo) <==>
      (ActiveFor(pagos, c.cedula).Some? && EstaActivo(ActiveFor(pagos, c.cedula).value, today))
  {
    var act := ActiveRows(pagos, c.cedula);
    AtMostOneActiveRow(pagos, c.cedula);
    if act != [] {
      assert act[0] in pagos;
      var k :| 0 <= k < |pagos| && pagos[k] == act[0];
      assert ActiveFor(pagos, c.cedula) == Some(act[0]);
    }
  }

  /** Under the one-active invariant a client has at most one active row. */
  lemma {:induction false} AtMostOneActiveRow(pagos: seq<Payment>, cedula: string)
    requires AtMostOneActive(pagos)
    ensures |ActiveRows(pagos, cedula)| <= 1
  {
    if pagos != [] {
      var init, last := pagos[..|pagos| - 1], pagos[|pagos| - 1];
      assert pagos == init + [last];
      AtMostOneActiveRow(init, cedula);
      if IsActiveOf(last, cedula) {
        forall k | 0 <= k < |init| ensures !IsActiveOf(init[k], cedula) {
          assert pagos[k] == init[k];
        }
        NoActiveRows(init, cedula);
      }
    }
  }

  lemma {:induction false} NoActiveRows(pagos: seq<Payment>, cedula: string)
    requires forall k :: 0 <= k < |pagos| ==> !IsActiveOf(pagos[k], cedula)
    ensures ActiveRows(pagos, cedula) == []
  {
    if pagos != [] {
      NoActiveRows(pagos[..|pagos| - 1], cedula);
    }
  }

  /** An active payment expiring between today and `dias` days from now. */
  predicate ExpiresWithin(p: Payment, dias: int, today: int) {
    p.activo && today <= p.fechaVencimiento <= today + dias
  }

  /** `proximos_a_vencer(dias)`: existing clients with an active payment
      expiring between today and `dias` days from now, soonest first; one
      row per such payment. */
  function ExpiringWithin(clientes: seq<Client>, pagos: seq<Payment>, dias: int, today: int): (r: seq<ExpiryRow>)
    ensures forall row :: row in r ==> today <= row.fechaVencimiento <= today + dias && row.cliente in clientes
    ensures forall row :: row in r <==> exists p :: p in pagos && ExpiresWithin(p, dias, today) && Yields(p, clientes, row)
    ensures SortedBy(r, ExpiresNotLater)
  {
    var rows := JoinClients(Filter(pagos, (p: Payment) => ExpiresWithin(p, dias, today)), clientes);
    ExpiresNotLaterOrders();
    SortBySorted(rows, ExpiresNotLater);
    SortBy(rows, ExpiresNotLater)
  }

  /** `proximos_a_vencer(dias)`, counted with repetition: each row appears
      once for every payment expiring in the window that yields it. */
  lemma ExpiringWithinMultiplicity(clientes: seq<Client>, pagos: seq<Payment>, dias: int, today: int)
    ensures forall row :: multiset(ExpiringWithin(clientes, pagos, dias, today))[row] == Count(pagos, (p: Payment) => ExpiresWithin(p, dias, today) && Yields(p, clientes, row))
  {
    var soon := (p: Payment) => ExpiresWithin(p, dias, today);
    JoinClientsMultiplicity(Filter(pagos, soon), clientes);
    forall row {
      CountFilter(pagos, soon, (p: Payment) => Yields(p, clientes, row), (p: Payment) => ExpiresWithin(p, dias, today) && Yields(p, clientes, row));
    }
  }

  /** The repository over the shared database's `clientes` table. */
  class ClientsRepository {
    const db: Database

    constructor (db: Database)
      ensures this.db == db
    {
      this.db := db;
    }

    /** `get(cedula)`. */
    function Get(cedula: string): Option<Client>
      reads db
    {
      FindClient(db.clientes, cedula)
    }

    /** `add(client)`: false, with nothing stored, when the key is taken;
        otherwise the client is appended with its registration date
        defaulting to today. */
    method Add(client: Client, today: int) returns (ok: bool)
      requires db.Valid()
      modifies db`clientes
      ensures db.Valid()
      ensures ok <==> !HasCedula(old(db.clientes), client.cedula)
      ensures db.clientes == if ok then old(db.clientes) + [Stored(client, today)] else old(db.clientes)
      ensures ok ==> Get(client.cedula) == Some(Stored(client, today))
    {
      if FindClient(db.clientes, client.cedula).Some? {
        ok := false;
      } else {
        ok := true;
        db.clientes := db.clientes + [Stored(client, today)];
        assert db.clientes[|db.clientes| - 1] == Stored(client, today);
      }
    }

    /** `update(client)`: true exactly when the key exists; overwrites that
        row's fields other than `cedula` and `fecha_registro`. */
    method Update(client: Client) returns (ok: bool)
      requires db.Valid()
      modifies db`clientes
      ensures db.Valid()
      ensures ok <==> HasCedula(old(db.clientes), client.cedula)
      ensures db.clientes == Overwrite(old(db.clientes), client)
    {
      ok := FindClient(db.clientes, client.cedula).Some?;
      db.clientes := Overwrite(db.clientes, client);
    }

    /** `remove(cedula)`: true exactly when the row existed; only that row goes. */
    method Remove(cedula: string) returns (ok: bool)
      requires db.Valid()
      modifies db`clientes
      ensures db.Valid()
      ensures ok <==> HasCedula(old(db.clientes), cedula)
      ensures db.clientes == Without(old(db.clientes), cedula)
      ensures Get(cedula) == None
    {
      ok := FindClient(db.clientes, cedula).Some?;
      db.clientes := Without(db.clientes, cedula);
    }

    /** `all()`. */
    function All(): seq<Client>
      reads db
    {
      Listing(db.clientes)
    }

    /** `search(criteria, estado)` on the given day. */
    method Search(criteria: map<string, string>, estado: string, today: int) returns (rows: seq<SearchRow>)
      ensures rows == SearchRows(db.clientes, db.pagos, ActiveFilters(criteria), estado, today)
      ensures forall row :: row in rows <==>
        && row.cliente in db.clientes
        && MatchesCriteria(row.cliente, criteria)
        && Keeps(estado, row.estadoPago)
        && JoinedRow(row, db.pagos, today)
      ensures SortedBy(rows, RowOrder)
    {
      var filters := CollectFilters(criteria);
      rows := SearchRows(db.clientes, db.pagos, filters, estado, today);
    }

    /** `proximos_a_vencer(dias)` on the given day. */
    function ProximosAVencer(dias: int, today: int): seq<ExpiryRow>
      reads db
    {
      ExpiringWithin(db.clientes, db.pagos, dias, today)
    }
  }
}
