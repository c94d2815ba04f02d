/**
 * The application error type and its predefined values
 * (internal/errors/errors.go). A wrapped cause is represented by the text its
 * own `Error()` returns, which is all `%v` prints of it.
 */
module AppErrors {
  import opened Wrappers
  import opened Text
  import opened Http

  datatype AppError = AppError(code: int, message: string, cause: Option<string>) {
    /** `AppError.Error()`: the message, then ": " and the cause when there is one. */
    function Error(): string {
      if cause.Some? then message + ": " + cause.value else message
    }
  }

  /** `New`. */
  function New(code: int, message: string, cause: Option<string>): (e: AppError)
    ensures e.code == code && e.message == message && e.cause == cause
  {
    AppError(code, message, cause)
  }

  /**
   * The text always starts with the message; with no cause it is the message
   * alone, and with a cause the cause's text follows ": " and can be read
   * back from there.
   */
  lemma ErrorText(e: AppError)
    ensures HasPrefix(e.Error(), e.message)
    ensures e.cause.None? ==> e.Error() == e.message
    ensures e.cause.Some? ==>
      |e.Error()| == |e.message| + 2 + |e.cause.value| &&
      e.Error()[|e.message|..|e.message| + 2] == ": " &&
      e.Error()[|e.message| + 2..] == e.cause.value
  {
    var s := e.Error();
    assert s[..|e.message|] == e.message;
  }

  const ErrInvalidCredentials: AppError := New(StatusUnauthorized, "Invalid credentials", None)
  const ErrUserNotFound: AppError := New(StatusNotFound, "User not found", None)
  const ErrUserAlreadyExists: AppError := New(StatusConflict, "User already exists", None)
  const ErrInvalidToken: AppError := New(StatusUnauthorized, "Invalid token", None)
  const ErrForbidden: AppError := New(StatusForbidden, "Access forbidden", None)
  const ErrValidation: AppError := New(StatusBadRequest, "Validation error", None)
  const ErrInternal: AppError := New(StatusInternalServerError, "Internal server error", None)

  /** The seven predefined errors, in declaration order. */
  function Predefined(): seq<AppError> {
    [ErrInvalidCredentials, ErrUserNotFound, ErrUserAlreadyExists, ErrInvalidToken,
     ErrForbidden, ErrValidation, ErrInternal]
  }

  /** The status codes of the predefined errors. */
  lemma PredefinedCodes()
    ensures ErrInvalidCredentials.code == 401 && ErrInvalidToken.code == 401
    ensures ErrUserNotFound.code == 404 && ErrUserAlreadyExists.code == 409
    ensures ErrForbidden.code == 403 && ErrValidation.code == 400
    ensures ErrInternal.code == 500
  {
  }

  /** No predefined error has a cause, so each one's text is its message. */
  lemma PredefinedTextIsMessage(e: AppError)
    requires e in Predefined()
    ensures e.cause == None && e.Error() == e.message
  {
  }
}
