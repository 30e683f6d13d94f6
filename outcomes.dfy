/** Option/Result wrappers and the exceptions the service raises or catches. */
module Outcomes {

  datatype Option<+T> = None | Some(value: T)

  /** Body of a ForbiddenException: a plain message, or the structured object of the Duo gate. */
  datatype ForbiddenBody =
    | ForbiddenMessage(message: string)
    | DuoRequired(success: bool, message: string, requiresDuo: bool)

  /** Every exception the modelled code raises, or receives from a collaborator. */
  datatype Exception =
    | Unauthorized(message: string)       // UnauthorizedException
    | NotFound(message: string)           // NotFoundException
    | Forbidden(body: ForbiddenBody)      // ForbiddenException
    | StorageError                        // repository failure: store unreachable or unique constraint violated
    | ProviderError                       // failure reported by the Duo client or the JWT signer
    | UriError                            // URIError from decodeURIComponent
    | TypeError                           // property access on undefined
    | StartupError(message: string)       // plain Error thrown by a constructor

  datatype Result<+T> = Ok(value: T) | Err(error: Exception)
}
