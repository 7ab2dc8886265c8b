/** The field checks used before anything is stored, and the validation
    errors the services raise. */
module Validators {
  import opened Wrappers
  import opened Text

  /** A value handed to `require`: Python's `None`, a string, or any other
      object (kept with the text `str()` gives for it). */
  datatype Value = Missing | Str(s: string) | Other(repr: string)

  /** The value `dict.get(key)` returns on a string-to-string dictionary. */
  function Lookup(data: map<string, string>, key: string): (v: Value)
    ensures v.Missing? <==> key !in data
    ensures key in data ==> v == Str(data[key])
  {
    if key in data then Str(data[key]) else Missing
  }

  /** Every `ValidationError` the services raise, one constructor per message. */
  datatype ValidationError =
    | Obligatorio(field: string)
    | SoloNumeros(field: string)
    | CedulaExistente
    | ClienteNoEncontrado
    | MontoNoPositivo
    | DuracionNoPositiva

  /** The text the exception carries. */
  function Message(e: ValidationError): string {
    match e
    case Obligatorio(f) => "El campo '" + f + "' es obligatorio."
    case SoloNumeros(f) => "El campo '" + f + "' debe contener solo números."
    case CedulaExistente => "La cédula ya existe en el sistema."
    case ClienteNoEncontrado => "Cliente no encontrado"
    case MontoNoPositivo => "El monto debe ser mayor a 0"
    case DuracionNoPositiva => "La duración debe ser al menos de 1 mes"
  }

  /** `str(value)` for a value that is not `None`. */
  function AsText(value: Value): string
    requires !value.Missing?
  {
    match value
    case Str(s) => s
    case Other(repr) => repr
  }

  /** `require(value, field)`: raises the "obligatorio" error for `None` and
      for blank strings; accepts everything else, non-strings unexamined. */
  function Require(value: Value, field: string): (r: Outcome<ValidationError>)
    ensures r.Fail? <==> value.Missing? || (value.Str? && Strip(value.s) == "")
    ensures r.Fail? ==> r.error == Obligatorio(field)
    ensures value.Other? ==> r == Pass
  {
    if value.Missing? || (value.Str? && IsBlank(value.s)) then Fail(Obligatorio(field)) else Pass
  }

  /** `require_numeric(value, field)`: `require` first, then every character
      of `str(value)` must be a digit. Nothing is stripped. */
  function RequireNumeric(value: Value, field: string): (r: Outcome<ValidationError>)
    ensures Require(value, field).Fail? ==> r == Fail(Obligatorio(field))
    ensures Require(value, field).Pass? ==> (r.Pass? <==> IsDigits(AsText(value)))
    ensures r.Fail? ==> r.error == Obligatorio(field) || r.error == SoloNumeros(field)
  {
    match Require(value, field)
    case Fail(e) => Fail(e)
    case Pass => if IsDigits(AsText(value)) then Pass else Fail(SoloNumeros(field))
  }

  /** On strings, `require_numeric` accepts exactly the non-empty all-digit
      ones; missing or blank input gets the "obligatorio" error, any other
      rejection the digits error. */
  lemma RequireNumericExactly(value: Value, field: string)
    requires !value.Other?
    ensures RequireNumeric(value, field).Pass? <==> value.Str? && IsDigits(value.s)
    ensures RequireNumeric(value, field).Fail? ==>
      (RequireNumeric(value, field).error == Obligatorio(field) <==> value.Missing? || IsBlank(value.s))
  {
    if value.Str? && IsDigits(value.s) {
      DigitsAreTrimmed(value.s);
    }
  }

  /** A leading space is not stripped: " 123" fails the digits check. */
  lemma LeadingSpaceRejected(field: string)
    ensures RequireNumeric(Str(" 123"), field) == Fail(SoloNumeros(field))
  {
  }
}
