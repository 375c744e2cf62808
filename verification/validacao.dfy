/** Django's `ValidationError`, as raised by the forms of the user module. */
module Validacao {
  /** A form-wide error, or an error attached to one named field (`ValidationError({campo: msg})`). */
  datatype ValidationError = Geral(msg: string) | DoCampo(campo: string, msg: string)
}
