/**
 * The exception-handler concern's abort
 * (src/Edmunds/Foundation/Concerns/RegistersExceptionHandlers.php): it never
 * returns, and the exception it throws is chosen by the status code, 200 when
 * none is given.
 */
module ExceptionHandlers {
  import opened Wrappers

  type Headers = seq<(string, string)>

  /** The exceptions abort throws. */
  datatype HttpError =
    /** The "stop here" exception; it carries no HTTP error status. */
    | AbortHttp(message: string)
    | Unauthorized(challenge: string, message: string)
    | AccessDenied(message: string)
    | NotFoundHttp(message: string)
    | ServiceUnavailable(message: string)
    | Http(code: int, message: string, headers: Headers)

  /** The HTTP status each exception answers with; none for the abort exception. */
  function StatusOf(e: HttpError): Option<int>
  {
    match e
    case AbortHttp(_) => None
    case Unauthorized(_, _) => Some(401)
    case AccessDenied(_) => Some(403)
    case NotFoundHttp(_) => Some(404)
    case ServiceUnavailable(_) => Some(503)
    case Http(code, _, _) => Some(code)
  }

  /** abort: the exception thrown for a code, with the message; the headers travel only with the generic exception. */
  function Abort(code: int := 200, message: string := "", headers: Headers := []): (e: HttpError)
    ensures e.message == message
    ensures e.AbortHttp? <==> code == 200
    ensures code != 200 ==> StatusOf(e) == Some(code)
    ensures e.Unauthorized? ==> e.challenge == "Basic"
    ensures e.Http? <==> code !in {200, 401, 403, 404, 503}
    ensures e.Http? ==> e.headers == headers
  {
    match code
    case 200 => AbortHttp(message)
    case 401 => Unauthorized("Basic", message)
    case 403 => AccessDenied(message)
    case 404 => NotFoundHttp(message)
    case 503 => ServiceUnavailable(message)
    case _ => Http(code, message, headers)
  }

  /** With no code, abort throws the abort exception. */
  lemma AbortWithoutCode(message: string)
    ensures Abort(message := message) == AbortHttp(message)
  {
  }

  /**
   * Different codes give different exceptions: the code can be recovered
   * from what abort throws.
   */
  lemma AbortDistinguishesCodes(code1: int, code2: int, message: string, headers: Headers)
    requires code1 != code2
    ensures Abort(code1, message, headers) != Abort(code2, message, headers)
  {
    var e1 := Abort(code1, message, headers);
    var e2 := Abort(code2, message, headers);
    if code1 == 200 {
      assert StatusOf(e2) == Some(code2) && StatusOf(e1) == None;
    } else if code2 == 200 {
      assert StatusOf(e1) == Some(code1) && StatusOf(e2) == None;
    } else {
      assert StatusOf(e1) == Some(code1) && StatusOf(e2) == Some(code2);
    }
  }
}
