/** The error kinds the parser reports (`TiledError` and `ParseTileError`). */
module Errors {

  /** Failure of a primitive value parser. */
  datatype ParseTileError = OrientationError | ColourError

  /**
   * Every way a parse can fail. Only `MalformedAttributes` is produced by the
   * code modelled here; the others reach the model as opaque results of the
   * sub-builders and of the external tileset loader.
   */
  datatype TiledError =
    | MalformedAttributes(message: string)
    | DecompressingError(message: string)
    | Base64DecodingError(message: string)
    | XmlDecodingError(message: string)
    | PrematureEnd(message: string)
    | Other(message: string)
}
