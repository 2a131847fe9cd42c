/** The decision part of internal/handler/helpers.go: which HTTP status, error code and
    message a caller sees for an error. Writing the JSON body is not modelled. */
module Handler {
  import opened AppErrors

  const StatusBadRequest: int := 400
  const StatusNotFound: int := 404
  const StatusConflict: int := 409
  const StatusUnprocessableEntity: int := 422
  const StatusInternalServerError: int := 500

  const InternalServerErrorMessage: string := "internal server error"

  /** The body of an error response (dto.ErrorResponse) together with its status. */
  datatype Response = Response(status: int, code: string, message: string)

  function HttpStatusForError(code: string): (status: int)
    ensures status in {StatusBadRequest, StatusNotFound, StatusConflict,
                       StatusUnprocessableEntity, StatusInternalServerError}
    ensures status == StatusBadRequest <==> code == CodeValidation
    ensures status == StatusNotFound <==> code == CodeNotFound
    ensures status == StatusConflict <==> code == CodeConflict
    ensures status == StatusUnprocessableEntity <==> code == CodeInsufficientBalance
  {
    CodesDistinct();
    if code == CodeValidation then StatusBadRequest
    else if code == CodeNotFound then StatusNotFound
    else if code == CodeConflict then StatusConflict
    else if code == CodeInsufficientBalance then StatusUnprocessableEntity
    else StatusInternalServerError
  }

  /** mapErrorToResponse, as the triple it writes. */
  function MapErrorToResponse(err: Error): (r: Response)
    // an AppError found on the chain speaks for itself: its code and its own text
    ensures err.AsAppError().Some? ==> r.code == err.AsAppError().value.Code()
                                       && r.message == err.AsAppError().value.Error()
    // the three ways to read "internal" agree: status 500, code INTERNAL_ERROR, no AppError
    ensures r.status == StatusInternalServerError <==> err.AsAppError().None?
    ensures r.code == CodeInternal <==> err.AsAppError().None?
    // anything else is answered with the fixed text, never with its own
    ensures err.AsAppError().None? ==> r.message == InternalServerErrorMessage
  {
    CodesDistinct();
    match err.AsAppError()
    case Some(a) => Response(HttpStatusForError(a.Code()), a.Code(), a.Error())
    case None => Response(StatusInternalServerError, CodeInternal, InternalServerErrorMessage)
  }

  /** An error with an AppError anywhere on its chain is answered with that error's own
      code and text, and with a status other than 500. */
  lemma AppErrorResponse(err: Error, a: AppError)
    requires err.AsAppError() == Some(a)
    ensures MapErrorToResponse(err) == Response(HttpStatusForError(a.Code()), a.Code(), a.Error())
    ensures MapErrorToResponse(err).status != StatusInternalServerError
  {
    CodesDistinct();
  }

  /** Any other error is answered with the fixed internal-error triple: its own text never leaks. */
  lemma InternalResponse(err: Error)
    requires err.AsAppError().None?
    ensures MapErrorToResponse(err) ==
            Response(StatusInternalServerError, CodeInternal, InternalServerErrorMessage)
  {
  }

  /** The status of each AppError kind, however deeply it is wrapped. */
  lemma StatusOfKind(err: Error, a: AppError)
    requires err.AsAppError() == Some(a)
    ensures a.ErrValidation? ==> MapErrorToResponse(err).status == StatusBadRequest
    ensures a.ErrNotFound? ==> MapErrorToResponse(err).status == StatusNotFound
    ensures a.ErrConflict? ==> MapErrorToResponse(err).status == StatusConflict
    ensures a.ErrInsufficientBalance? ==> MapErrorToResponse(err).status == StatusUnprocessableEntity
  {
    CodesDistinct();
  }
}
