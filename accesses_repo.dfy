/** The `accesos` log: append, the recent and by-date listings joined with
    client names, the latest access of a client, and the entry counters. */
module AccessesRepo {
  import opened Wrappers
  import opened Seqs
  import opened Clock
  import opened Records
  import opened Store

  /** `SELECT a.*, c.nombre, c.apellido`: an access with its client's names. */
  datatype AccessRow = AccessRow(entrada: AccessEntry, nombre: string, apellido: string)

  /** The row carries the names of an existing client with the access's key. */
  predicate NamedRow(row: AccessRow, clientes: seq<Client>) {
    var c := FindClient(clientes, row.entrada.cedulaCliente);
    c.Some? && row.nombre == c.value.nombre && row.apellido == c.value.apellido
  }

  /** `accesos a JOIN clientes c ON a.cedula_cliente = c.cedula`: accesses of
      clients that no longer exist drop out. */
  function JoinNames(accesos: seq<AccessEntry>, clientes: seq<Client>): (r: seq<AccessRow>)
    ensures forall row :: row in r <==> row.entrada in accesos && NamedRow(row, clientes)
    ensures |r| == Count(accesos, (e: AccessEntry) => FindClient(clientes, e.cedulaCliente).Some?)
  {
    if accesos == [] then []
    else
      var a := accesos[0];
      assert accesos == [a] + accesos[1..];
      assert forall x :: x in accesos <==> x == a || x in accesos[1..];
      CountCons(a, accesos[1..], (e: AccessEntry) => FindClient(clientes, e.cedulaCliente).Some?);
      NameHead(a, clientes) + JoinNames(accesos[1..], clientes)
  }

  /** The row one access contributes to the join: none when its client
      does not exist. */
  function NameHead(a: AccessEntry, clientes: seq<Client>): (r: seq<AccessRow>)
    ensures forall row :: multiset(r)[row] == if row.entrada == a && NamedRow(row, clientes) then 1 else 0
  {
    match FindClient(clientes, a.cedulaCliente)
    case Some(c) => [AccessRow(a, c.nombre, c.apellido)]
    case None => []
  }

  /** The join, counted with repetition: a named row appears as often as its
      access is logged; any other row not at all. */
  lemma {:induction false} JoinNamesMultiplicity(accesos: seq<AccessEntry>, clientes: seq<Client>)
    ensures forall row :: multiset(JoinNames(accesos, clientes))[row] == if NamedRow(row, clientes) then multiset(accesos)[row.entrada] else 0
  {
    if accesos != [] {
      var a, rest := accesos[0], accesos[1..];
      assert accesos == [a] + rest;
      JoinNamesMultiplicity(rest, clientes);
      assert JoinNames(accesos, clientes) == NameHead(a, clientes) + JoinNames(rest, clientes);
    }
  }

  /** `ORDER BY a.fecha_hora DESC`. */
  predicate NewerFirst(a: AccessRow, b: AccessRow) {
    NotAfter(b.entrada.fechaHora, a.entrada.fechaHora)
  }

  lemma NewerFirstOrders()
    ensures TotalPreorder(NewerFirst)
  {
  }

  /** The joined log, newest first. */
  function JoinedNewestFirst(accesos: seq<AccessEntry>, clientes: seq<Client>): (r: seq<AccessRow>)
    ensures forall row :: row in r <==> row.entrada in accesos && NamedRow(row, clientes)
    ensures forall row :: multiset(r)[row] == if NamedRow(row, clientes) then multiset(accesos)[row.entrada] else 0
    ensures |r| == Count(accesos, (e: AccessEntry) => FindClient(clientes, e.cedulaCliente).Some?)
    ensures SortedBy(r, NewerFirst)
  {
    NewerFirstOrders();
    JoinNamesMultiplicity(accesos, clientes);
    SortBySorted(JoinNames(accesos, clientes), NewerFirst);
    SortBy(JoinNames(accesos, clientes), NewerFirst)
  }

  /** `recientes(limite)`: the first `limite` rows of the joined log newest
      first (all of them for a negative limit, or when fewer exist), so no
      excluded row is newer than a returned one. */
  function Recientes(accesos: seq<AccessEntry>, clientes: seq<Client>, limite: int): (r: seq<AccessRow>)
    ensures limite >= 0 ==> |r| == if limite < |JoinedNewestFirst(accesos, clientes)| then limite else |JoinedNewestFirst(accesos, clientes)|
    ensures limite < 0 ==> |r| == |JoinedNewestFirst(accesos, clientes)|
    ensures r == JoinedNewestFirst(accesos, clientes)[..|r|]
    ensures forall row :: row in r ==> row.entrada in accesos && NamedRow(row, clientes)
    ensures SortedBy(r, NewerFirst)
    ensures forall i, j :: 0 <= i < |r| <= j < |JoinedNewestFirst(accesos, clientes)| ==>
      NewerFirst(r[i], JoinedNewestFirst(accesos, clientes)[j])
  {
    var all := JoinedNewestFirst(accesos, clientes);
    TakeSorted(all, limite, NewerFirst);
    var r := Take(all, limite);
    assert forall row :: row in r ==> row in all;
    r
  }

  /** `por_fecha(inicio, fin)`: joined rows dated within `[inicio, fin]`
      (`fin` defaulting to `inicio`), newest first. */
  function PorFecha(accesos: seq<AccessEntry>, clientes: seq<Client>, inicio: int, fin: Option<int>): (r: seq<AccessRow>)
    ensures forall row :: row in r <==>
      && row.entrada in accesos && NamedRow(row, clientes)
      && inicio <= row.entrada.fechaHora.day <= fin.GetOr(inicio)
    ensures SortedBy(r, NewerFirst)
  {
    var hasta := fin.GetOr(inicio);
    var inRange := (row: AccessRow) => inicio <= row.entrada.fechaHora.day <= hasta;
    var rows := Filter(JoinNames(accesos, clientes), inRange);
    NewerFirstOrders();
    SortBySorted(rows, NewerFirst);
    SortBy(rows, NewerFirst)
  }

  /** `por_fecha`, counted with repetition: one row for every logged access
      in range whose client exists. */
  lemma PorFechaMultiplicity(accesos: seq<AccessEntry>, clientes: seq<Client>, inicio: int, fin: Option<int>)
    ensures forall row :: multiset(PorFecha(accesos, clientes, inicio, fin))[row] == if NamedRow(row, clientes) && inicio <= row.entrada.fechaHora.day <= fin.GetOr(inicio) then multiset(accesos)[row.entrada] else 0
  {
    var hasta := fin.GetOr(inicio);
    var inRange := (row: AccessRow) => inicio <= row.entrada.fechaHora.day <= hasta;
    JoinNamesMultiplicity(accesos, clientes);
    FilterMultiset(JoinNames(accesos, clientes), inRange);
  }

  /** `ORDER BY fecha_hora DESC` on bare log rows. */
  predicate EntryNewerFirst(a: AccessEntry, b: AccessEntry) {
    NotAfter(b.fechaHora, a.fechaHora)
  }

  lemma EntryNewerFirstOrders()
    ensures TotalPreorder(EntryNewerFirst)
  {
  }

  /** `ultimo_de(cedula)`: an access of that client with the latest
      timestamp, or none when it has no accesses. No join: accesses of a
      deleted client still count. */
  function UltimoDe(accesos: seq<AccessEntry>, cedula: string): (r: Option<AccessEntry>)
    ensures r.None? <==> forall e :: e in accesos ==> e.cedulaCliente != cedula
    ensures r.Some? ==> r.value in accesos && r.value.cedulaCliente == cedula
    ensures r.Some? ==> forall e :: e in accesos && e.cedulaCliente == cedula ==> NotAfter(e.fechaHora, r.value.fechaHora)
  {
    var mine := Filter(accesos, (e: AccessEntry) => e.cedulaCliente == cedula);
    EntryNewerFirstOrders();
    SortBySorted(mine, EntryNewerFirst);
    var sorted := SortBy(mine, EntryNewerFirst);
    if sorted == [] then None
    else
      assert sorted[0] in sorted;
      assert forall e :: e in sorted ==> e == sorted[0] || EntryNewerFirst(sorted[0], e) by {
        forall e | e in sorted ensures e == sorted[0] || EntryNewerFirst(sorted[0], e) {
          var k :| 0 <= k < |sorted| && sorted[k] == e;
        }
      }
      Some(sorted[0])
  }

  /** `tipo_movimiento = 'Entrada'`. */
  predicate IsEntrada(e: AccessEntry) {
    e.tipoMovimiento == "Entrada"
  }

  /** Entries (never exits) dated today. */
  function AccesosHoy(accesos: seq<AccessEntry>, today: int): nat {
    Count(accesos, (e: AccessEntry) => IsEntrada(e) && e.fechaHora.day == today)
  }

  /** Entries from the most recent Sunday strictly before today onward. */
  function AccesosSemana(accesos: seq<AccessEntry>, today: int): nat {
    Count(accesos, (e: AccessEntry) => IsEntrada(e) && e.fechaHora.day >= WeekStart(today))
  }

  /** Every entry of today also falls in this week's count. */
  lemma SemanaIncludesHoy(accesos: seq<AccessEntry>, today: int)
    ensures AccesosHoy(accesos, today) <= AccesosSemana(accesos, today)
  {
    CountMonotone(accesos,
      (e: AccessEntry) => IsEntrada(e) && e.fechaHora.day == today,
      (e: AccessEntry) => IsEntrada(e) && e.fechaHora.day >= WeekStart(today));
  }

  /** Entries logged during hour `h` of any day. */
  function EntriesAt(accesos: seq<AccessEntry>, h: Hour): nat {
    Count(accesos, (e: AccessEntry) => IsEntrada(e) && e.fechaHora.hour == h)
  }

  /** An hour below `upTo` with the most entries, the earliest on ties. */
  function BusiestBelow(accesos: seq<AccessEntry>, upTo: int): (b: Hour)
    requires 1 <= upTo <= 24
    ensures b < upTo
    ensures forall h: Hour :: h < upTo ==> EntriesAt(accesos, h) <= EntriesAt(accesos, b)
  {
    if upTo == 1 then 0
    else
      var b := BusiestBelow(accesos, upTo - 1);
      if EntriesAt(accesos, upTo - 1) > EntriesAt(accesos, b) then upTo - 1 else b
  }

  /** `hora_pico`: an hour with the maximal number of entries, or none when
      the log has no entries at all. */
  function PeakHour(accesos: seq<AccessEntry>): (r: Option<Hour>)
    ensures r.None? <==> forall e :: e in accesos ==> !IsEntrada(e)
    ensures r.Some? ==> EntriesAt(accesos, r.value) > 0
    ensures r.Some? ==> forall h: Hour :: EntriesAt(accesos, h) <= EntriesAt(accesos, r.value)
  {
    if forall e :: e in accesos ==> !IsEntrada(e) then None
    else
      var e :| e in accesos && IsEntrada(e);
      var b := BusiestBelow(accesos, 24);
      assert e in Filter(accesos, (x: AccessEntry) => IsEntrada(x) && x.fechaHora.hour == e.fechaHora.hour);
      assert EntriesAt(accesos, e.fechaHora.hour) > 0;
      Some(b)
  }

  /** `strftime('%H', ...)`: the hour as two digits. */
  function TwoDigits(h: Hour): (s: string)
    ensures |s| == 2 && '0' <= s[0] <= '2' && '0' <= s[1] <= '9'
    ensures (s[0] as int - '0' as int) * 10 + (s[1] as int - '0' as int) == h
  {
    [('0' as int + h / 10) as char, ('0' as int + h % 10) as char]
  }

  /** The dictionary `estadisticas()` returns. */
  datatype Stats = Stats(accesosHoy: nat, accesosSemana: nat, horaPico: string)

  /** `estadisticas()` on the given day; "N/A" when there are no entries. */
  function Estadisticas(accesos: seq<AccessEntry>, today: int): (s: Stats)
    ensures s.accesosHoy == Count(accesos, (e: AccessEntry) => IsEntrada(e) && e.fechaHora.day == today)
    ensures s.accesosSemana == Count(accesos, (e: AccessEntry) => IsEntrada(e) && e.fechaHora.day >= WeekStart(today))
    ensures s.accesosHoy <= s.accesosSemana
    ensures s.horaPico == "N/A" <==> forall e :: e in accesos ==> !IsEntrada(e)
    ensures s.horaPico != "N/A" ==>
      exists h: Hour :: s.horaPico == TwoDigits(h) && forall k: Hour :: EntriesAt(accesos, k) <= EntriesAt(accesos, h)
  {
    SemanaIncludesHoy(accesos, today);
    var peak := PeakHour(accesos);
    Stats(AccesosHoy(accesos, today), AccesosSemana(accesos, today),
          match peak case None => "N/A" case Some(h) => TwoDigits(h))
  }

  /** Logging one more movement: only an entry dated today moves today's
      count, only an entry dated this week moves the week's count, and each
      moves it by exactly one; an exit changes neither. */
  lemma EstadisticasSnoc(accesos: seq<AccessEntry>, e: AccessEntry, today: int)
    ensures Estadisticas(accesos + [e], today).accesosHoy ==
      Estadisticas(accesos, today).accesosHoy + if IsEntrada(e) && e.fechaHora.day == today then 1 else 0
    ensures Estadisticas(accesos + [e], today).accesosSemana ==
      Estadisticas(accesos, today).accesosSemana + if IsEntrada(e) && e.fechaHora.day >= WeekStart(today) then 1 else 0
  {
    CountSnoc(accesos, e, (e: AccessEntry) => IsEntrada(e) && e.fechaHora.day == today);
    CountSnoc(accesos, e, (e: AccessEntry) => IsEntrada(e) && e.fechaHora.day >= WeekStart(today));
  }

  /** The repository over the shared database's `accesos` table. */
  class AccessesRepository {
    const db: Database

    constructor (db: Database)
      ensures this.db == db
    {
      this.db := db;
    }

    /** `add(entry)`: appends one row under the next id; always true. */
    method Add(entry: AccessEntry) returns (ok: bool)
      modifies db`accesos, db`nextAccesoId
      ensures ok
      ensures db.accesos == old(db.accesos) + [entry.(id := Some(old(db.nextAccesoId)))]
      ensures db.nextAccesoId == old(db.nextAccesoId) + 1
    {
      db.accesos := db.accesos + [entry.(id := Some(db.nextAccesoId))];
      db.nextAccesoId := db.nextAccesoId + 1;
      ok := true;
    }

    /** `recientes(limite=50)`. */
    function RecientesRows(limite: int := 50): seq<AccessRow>
      reads db
    {
      Recientes(db.accesos, db.clientes, limite)
    }

    /** `por_fecha(fecha_inicio, fecha_fin=None)`. */
    function PorFechaRows(inicio: int, fin: Option<int> := None): seq<AccessRow>
      reads db
    {
      PorFecha(db.accesos, db.clientes, inicio, fin)
    }

    /** `ultimo_de(cedula)`. */
    function Ultimo(cedula: string): Option<AccessEntry>
      reads db
    {
      UltimoDe(db.accesos, cedula)
    }

    /** `estadisticas()` on the given day. */
    function EstadisticasDel(today: int): Stats
      reads db
    {
      Estadisticas(db.accesos, today)
    }
  }
}
