/** The Python exceptions that the core raises, catches or lets through. */
module Exceptions {

  datatype PyError =
    | ValueError(msg: string)
    | TypeError(msg: string)
    | AttributeError(msg: string)
    | OutputParserException(msg: string)
    | OtherError(kind: string, msg: string)
  {
    /** `str(e)`: for every exception above, its message. */
    function Message(): string {
      match this
      case ValueError(m) => m
      case TypeError(m) => m
      case AttributeError(m) => m
      case OutputParserException(m) => m
      case OtherError(_, m) => m
    }
  }
}
