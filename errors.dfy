/** The two typed failures of the converter (the `Error` hierarchy of the
    converter module) and the result type that carries them instead of an
    exception. */
module Errors {

  /** `DictFormatError` carries the whole offending input line;
      `UnSupportedPosError` carries the offending part-of-speech label. */
  datatype CoreError =
    | DictFormatError(line: string)
    | UnSupportedPosError(pos: string)

  datatype Result<+T> = Ok(value: T) | Err(error: CoreError)
}
