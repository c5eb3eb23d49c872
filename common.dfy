/** Shared vocabulary of the service: optional values, typed results, the
    HTTP errors the handlers raise, and account roles. */
module Common {

  datatype Option<+T> = None | Some(value: T)

  datatype Result<+R, +E> = Success(value: R) | Failure(error: E)

  /** The exceptions the service and the framework raise, one per HTTP status. */
  datatype Error =
    | BadRequest(message: string)   // BadRequestException
    | ValidationFailed              // the global ValidationPipe rejecting a body
    | Unauthorized                  // UnauthorizedException, also passport's default
    | Forbidden                     // the role guard refusing a role
    | NotFound(message: string)     // NotFoundException

  const DuplicateEmail: string := "Account with this email already exists!"
  const WrongCredentials: string := "Wrong Credentials!"
  const AccountNotFound: string := "Account not found!"
  const ReportNotFound: string := "Report not found!"

  /** The HTTP status code each error is answered with. */
  function StatusCode(e: Error): (code: int)
    ensures 400 <= code < 500
    ensures code == 400 <==> e.BadRequest? || e.ValidationFailed?
    ensures code == 401 <==> e.Unauthorized?
    ensures code == 403 <==> e.Forbidden?
    ensures code == 404 <==> e.NotFound?
  {
    match e
    case BadRequest(_) => 400
    case ValidationFailed => 400
    case Unauthorized => 401
    case Forbidden => 403
    case NotFound(_) => 404
  }

  /** The account column `role` is a plain string: the request bodies only
      check `IsString`, so any text can be stored. These are the two values
      the route policies name. */
  type Role = string
  const Admin: Role := "admin"
  const User: Role := "user"
}
