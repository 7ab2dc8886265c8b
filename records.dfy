/** The client and access records, transcribed field by field. */
module Records {
  import opened Wrappers
  import opened Text
  import opened Clock

  /** A registered client; `cedula` is the primary key. */
  datatype Client = Client(
    cedula: string,
    nombre: string,
    apellido: string,
    telefono: Option<string>,
    telefonoEmergencia: Option<string>,
    direccion: Option<string>,
    email: Option<string>,
    fotoPath: Option<string>,
    fechaRegistro: Option<int>)

  /** `full_name`: "nombre apellido" with surrounding whitespace removed. */
  function FullName(c: Client): (r: string)
    ensures IsStripOf(c.nombre + " " + c.apellido, r)
    ensures r == "" <==> IsBlank(c.nombre + " " + c.apellido)
    ensures c.nombre != "" && c.apellido != "" && !IsSpace(c.nombre[0]) && !IsSpace(c.apellido[|c.apellido| - 1])
      ==> r == c.nombre + " " + c.apellido
  {
    var joined := c.nombre + " " + c.apellido;
    if c.nombre != "" && c.apellido != "" && !IsSpace(c.nombre[0]) && !IsSpace(c.apellido[|c.apellido| - 1]) then
      assert joined[0] == c.nombre[0] && joined[|joined| - 1] == c.apellido[|c.apellido| - 1];
      StripTrimmed(joined);
      Strip(joined)
    else
      Strip(joined)
  }

  /** One logged entry or exit. */
  datatype AccessEntry = AccessEntry(
    id: Option<int>,
    cedulaCliente: string,
    tipoMovimiento: string,
    fechaHora: Timestamp)
}
