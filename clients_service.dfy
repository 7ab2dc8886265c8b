/** Client registration (validation, normalisation, duplicate rejection),
    the membership summary, and the client queries the service forwards to
    its repository. */
module ClientsService {
  import opened Wrappers
  import opened Text
  import opened Seqs
  import opened Validators
  import opened Records
  import opened PaymentModel
  import opened Store
  import opened PaymentsRepo
  import opened ClientsRepo

  /** A field the form filled in with something other than blanks. */
  predicate Filled(data: map<string, string>, key: string) {
    key in data && !IsBlank(data[key])
  }

  /** The three checks `register` makes, in this order, the first failure
      being the one reported. */
  function ValidateRegistration(data: map<string, string>): (r: Outcome<ValidationError>)
    ensures r.Pass? <==>
      "cedula" in data && IsDigits(data["cedula"]) && Filled(data, "nombre") && Filled(data, "apellido")
    ensures r == Fail(Obligatorio("Cédula")) <==> !Filled(data, "cedula")
    ensures r == Fail(SoloNumeros("Cédula")) <==> Filled(data, "cedula") && !IsDigits(data["cedula"])
    ensures r == Fail(Obligatorio("Nombre")) <==>
      "cedula" in data && IsDigits(data["cedula"]) && !Filled(data, "nombre")
    ensures r == Fail(Obligatorio("Apellido")) <==>
      "cedula" in data && IsDigits(data["cedula"]) && Filled(data, "nombre") && !Filled(data, "apellido")
  {
    RequireNumericExactly(Lookup(data, "cedula"), "Cédula");
    match RequireNumeric(Lookup(data, "cedula"), "Cédula")
    case Fail(e) => Fail(e)
    case Pass =>
      match Require(Lookup(data, "nombre"), "Nombre")
      case Fail(e) => Fail(e)
      case Pass => Require(Lookup(data, "apellido"), "Apellido")
  }

  /** A trimmed, non-empty text. */
  predicate Trimmed(s: string) {
    s != "" && !IsSpace(s[0]) && !IsSpace(s[|s| - 1])
  }

  /** An optional field as stored: absent, or trimmed and non-empty. */
  predicate TrimmedOrAbsent(f: Option<string>) {
    f.Some? ==> Trimmed(f.value)
  }

  /** `data.get(key, "").strip() or None`. */
  function OptionalField(data: map<string, string>, key: string): (r: Option<string>)
    ensures r.None? <==> !Filled(data, key)
    ensures r.Some? ==> r.value == Strip(data[key]) && IsStripOf(data[key], r.value)
    ensures TrimmedOrAbsent(r)
  {
    var s := Strip(if key in data then data[key] else "");
    if s == "" then None else Some(s)
  }

  /** The record `register` builds from a validated form. */
  function BuildClient(data: map<string, string>, today: int): Client
    requires "cedula" in data && "nombre" in data && "apellido" in data
  {
    Client(
      Strip(data["cedula"]),
      Strip(data["nombre"]),
      Strip(data["apellido"]),
      OptionalField(data, "telefono"),
      OptionalField(data, "telefono_emergencia"),
      OptionalField(data, "direccion"),
      OptionalField(data, "email"),
      if "foto_path" in data then Some(data["foto_path"]) else None,
      Some(today))
  }

  /** What a validated form turns into: the cedula exactly as typed (digits
      need no stripping), the names as typed minus their surrounding
      whitespace, and not empty, optional fields absent or
      trimmed and non-empty, the photo path as given, registered today. */
  lemma BuiltClientNormalised(data: map<string, string>, today: int)
    requires "cedula" in data && IsDigits(data["cedula"]) && Filled(data, "nombre") && Filled(data, "apellido")
    ensures var c := BuildClient(data, today);
      && c.cedula == data["cedula"]
      && IsStripOf(data["nombre"], c.nombre) && IsStripOf(data["apellido"], c.apellido)
      && Trimmed(c.nombre) && Trimmed(c.apellido)
      && TrimmedOrAbsent(c.telefono) && TrimmedOrAbsent(c.telefonoEmergencia)
      && TrimmedOrAbsent(c.direccion) && TrimmedOrAbsent(c.email)
      && c.fotoPath == (if "foto_path" in data then Some(data["foto_path"]) else None)
      && c.fechaRegistro == Some(today)
  {
    DigitsAreTrimmed(data["cedula"]);
  }

  /** `resumen_estado()`: how many clients there are, and how many of them
      do or do not have a membership in force. */
  datatype Resumen = Resumen(total: nat, activos: nat, vencidos: nat)

  /** The number of clients in `clientes` whose membership is in force. */
  function ActivosEn(clientes: seq<Client>, pagos: seq<Payment>, today: int): nat {
    Count(clientes, (c: Client) => Vigente(pagos, c.cedula, today))
  }

  lemma ActivosEnSnoc(clientes: seq<Client>, c: Client, pagos: seq<Payment>, today: int)
    ensures ActivosEn(clientes + [c], pagos, today) ==
      ActivosEn(clientes, pagos, today) + if Vigente(pagos, c.cedula, today) then 1 else 0
  {
    CountSnoc(clientes, c, (c: Client) => Vigente(pagos, c.cedula, today));
  }

  /** One step of the `resumen_estado` loop: the client at `i` adds one to
      `activos` exactly when its active payment is `esta_activo`. */
  lemma ActivosEnStep(clientes: seq<Client>, i: int, pago: Option<Payment>, pagos: seq<Payment>, today: int)
    requires 0 <= i < |clientes|
    requires pago == ActiveFor(pagos, clientes[i].cedula)
    ensures ActivosEn(clientes[..i + 1], pagos, today) ==
      ActivosEn(clientes[..i], pagos, today) + if pago.Some? && EstaActivo(pago.value, today) then 1 else 0
  {
    assert clientes[..i + 1] == clientes[..i] + [clientes[i]];
    ActivosEnSnoc(clientes[..i], clientes[i], pagos, today);
  }

  lemma ActivosEnPermutation(a: seq<Client>, b: seq<Client>, pagos: seq<Payment>, today: int)
    requires multiset(a) == multiset(b)
    ensures ActivosEn(a, pagos, today) == ActivosEn(b, pagos, today)
  {
    CountPermutation(a, b, (c: Client) => Vigente(pagos, c.cedula, today));
  }

  /** The client service over a clients and a payments repository. */
  class ClientsService {
    const clientsRepo: ClientsRepository
    const paymentsRepo: PaymentsRepository

    constructor (clientsRepo: ClientsRepository, paymentsRepo: PaymentsRepository)
      ensures this.clientsRepo == clientsRepo && this.paymentsRepo == paymentsRepo
    {
      this.clientsRepo := clientsRepo;
      this.paymentsRepo := paymentsRepo;
    }

    /** `register(data)` on the given day: the first failing check, or the
        duplicate-key error, leaves the table as it was; otherwise the
        normalised client is stored and returned. */
    method Register(data: map<string, string>, today: int) returns (r: Result<Client, ValidationError>)
      requires clientsRepo.db.Valid()
      modifies clientsRepo.db`clientes
      ensures clientsRepo.db.Valid()
      ensures ValidateRegistration(data).Fail? ==>
        r == Err(ValidateRegistration(data).error) && clientsRepo.db.clientes == old(clientsRepo.db.clientes)
      ensures ValidateRegistration(data).Pass? && HasCedula(old(clientsRepo.db.clientes), data["cedula"]) ==>
        r == Err(CedulaExistente) && clientsRepo.db.clientes == old(clientsRepo.db.clientes)
      ensures ValidateRegistration(data).Pass? && !HasCedula(old(clientsRepo.db.clientes), data["cedula"]) ==>
        && r == Ok(BuildClient(data, today))
        && clientsRepo.db.clientes == old(clientsRepo.db.clientes) + [r.value]
        && clientsRepo.Get(data["cedula"]) == Some(r.value)
    {
      var checked := ValidateRegistration(data);
      if checked.Fail? {
        return Err(checked.error);
      }
      var client := BuildClient(data, today);
      BuiltClientNormalised(data, today);
      var created := clientsRepo.Add(client, today);
      if !created {
        return Err(CedulaExistente);
      }
      r := Ok(client);
    }

    /** `update(client)`. */
    method Update(client: Client) returns (ok: bool)
      requires clientsRepo.db.Valid()
      modifies clientsRepo.db`clientes
      ensures clientsRepo.db.Valid()
      ensures ok <==> HasCedula(old(clientsRepo.db.clientes), client.cedula)
      ensures clientsRepo.db.clientes == Overwrite(old(clientsRepo.db.clientes), client)
    {
      ok := clientsRepo.Update(client);
    }

    /** `get(cedula)`. */
    function Get(cedula: string): (r: Option<Client>)
      reads clientsRepo.db
      ensures r == clientsRepo.Get(cedula)
      ensures r.Some? ==> r.value in clientsRepo.db.clientes && r.value.cedula == cedula
    {
      clientsRepo.Get(cedula)
    }

    /** `delete(cedula)`. */
    method Delete(cedula: string) returns (ok: bool)
      requires clientsRepo.db.Valid()
      modifies clientsRepo.db`clientes
      ensures clientsRepo.db.Valid()
      ensures ok <==> HasCedula(old(clientsRepo.db.clientes), cedula)
      ensures clientsRepo.db.clientes == Without(old(clientsRepo.db.clientes), cedula)
      ensures Get(cedula) == None
    {
      ok := clientsRepo.Remove(cedula);
    }

    /** `list_all()`. */
    function ListAll(): (r: seq<Client>)
      reads clientsRepo.db
      ensures r == clientsRepo.All()
      ensures multiset(r) == multiset(clientsRepo.db.clientes) && SortedBy(r, ClientOrder)
    {
      clientsRepo.All()
    }

    /** `search(criteria, estado="Todos")` on the given day. */
    method Search(criteria: map<string, string>, today: int, estado: string := "Todos") returns (rows: seq<SearchRow>)
      ensures rows == SearchRows(clientsRepo.db.clientes, clientsRepo.db.pagos, ActiveFilters(criteria), estado, today)
    {
      rows := clientsRepo.Search(criteria, estado, today);
    }

    /** `resumen_estado()` on the given day: one pass over the listing,
        counting each client as `activos` when its membership is in force
        and as `vencidos` otherwise. */
    method ResumenEstado(today: int) returns (r: Resumen)
      ensures r.total == |clientsRepo.db.clientes|
      ensures r.activos == ActivosEn(clientsRepo.db.clientes, paymentsRepo.db.pagos, today)
      ensures r.activos + r.vencidos == r.total
    {
      var clientes := ListAll();
      var pagos := paymentsRepo.db.pagos;
      var activos, vencidos := 0, 0;
      var i := 0;
      while i < |clientes|
        invariant 0 <= i <= |clientes|
        invariant activos == ActivosEn(clientes[..i], pagos, today)
        invariant activos + vencidos == i
      {
        var cliente := clientes[i];
        var pago := paymentsRepo.ActiveForClient(cliente.cedula);
        ActivosEnStep(clientes, i, pago, pagos, today);
        if pago.Some? && EstaActivo(pago.value, today) {
          activos := activos + 1;
        } else {
          vencidos := vencidos + 1;
        }
        i := i + 1;
      }
      assert clientes[..i] == clientes;
      ActivosEnPermutation(clientes, clientsRepo.db.clientes, pagos, today);
      r := Resumen(|clientes|, activos, vencidos);
    }
  }
}
