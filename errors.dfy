/** The exceptions the constructors throw. */
module Errors {

  /**
   * What an `MSDValidationError` carries: the schema engine's own error
   * objects (their text is not modelled), or one of the library's messages.
   */
  datatype ValidationErrors =
    | SchemaErrors
    | Messages(list: seq<string>)

  datatype MsdError =
    | InvalidGroupId                       // MSDInvalidGroupIDError
    | Validation(errors: ValidationErrors) // MSDValidationError

  const URL_INVALID: string := "URL Invalid"
  const ID_LENGTH_INVALID: string := "ID Length Not Equal to 8"
}
