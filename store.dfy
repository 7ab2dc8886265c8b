/** The three tables every repository shares (`clientes`, `pagos`,
    `accesos`), held in memory in row order, with the primary-key lookup on
    `clientes` and the "active payment of a client" row condition that
    several queries use. */
module Store {
  import opened Wrappers
  import opened Records
  import opened PaymentModel

  /** Some row of `clientes` has this key. */
  predicate HasCedula(clientes: seq<Client>, cedula: string) {
    exists i :: 0 <= i < |clientes| && clientes[i].cedula == cedula
  }

  /** The `PRIMARY KEY` constraint on `clientes.cedula`. */
  predicate UniqueCedulas(clientes: seq<Client>) {
    forall i, j :: 0 <= i < j < |clientes| ==> clientes[i].cedula != clientes[j].cedula
  }

  /** `SELECT * FROM clientes WHERE cedula = ?` followed by `fetchone()`. */
  function FindClient(clientes: seq<Client>, cedula: string): (r: Option<Client>)
    ensures r.None? <==> !HasCedula(clientes, cedula)
    ensures r.Some? ==> r.value in clientes && r.value.cedula == cedula
    ensures UniqueCedulas(clientes) ==>
      forall i :: 0 <= i < |clientes| && clientes[i].cedula == cedula ==> r == Some(clientes[i])
  {
    if clientes == [] then None
    else if clientes[0].cedula == cedula then Some(clientes[0])
    else
      var r := FindClient(clientes[1..], cedula);
      assert HasCedula(clientes[1..], cedula) ==> HasCedula(clientes, cedula) by {
        if HasCedula(clientes[1..], cedula) {
          var i :| 0 <= i < |clientes[1..]| && clientes[1..][i].cedula == cedula;
          assert clientes[i + 1].cedula == cedula;
        }
      }
      assert HasCedula(clientes, cedula) ==> HasCedula(clientes[1..], cedula) by {
        if HasCedula(clientes, cedula) {
          var i :| 0 <= i < |clientes| && clientes[i].cedula == cedula;
          assert clientes[1..][i - 1].cedula == cedula;
        }
      }
      assert forall i :: 1 <= i < |clientes| ==> clientes[i] == clientes[1..][i - 1];
      r
  }

  /** The row condition `cedula_cliente = ? AND activo = 1`. */
  predicate IsActiveOf(p: Payment, cedula: string) {
    p.cedulaCliente == cedula && p.activo
  }

  /** The one SQLite database: three tables and their `AUTOINCREMENT` counters. */
  class Database {
    var clientes: seq<Client>
    var pagos: seq<Payment>
    var accesos: seq<AccessEntry>
    var nextPagoId: int
    var nextAccesoId: int

    /** The table constraints the store itself enforces. */
    predicate Valid()
      reads this
    {
      UniqueCedulas(clientes)
    }

    /** A freshly created database file: the three tables, empty. */
    constructor ()
      ensures Valid()
      ensures clientes == [] && pagos == [] && accesos == []
      ensures nextPagoId == 1 && nextAccesoId == 1
    {
      clientes, pagos, accesos := [], [], [];
      nextPagoId, nextAccesoId := 1, 1;
    }
  }
}
