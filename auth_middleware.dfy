/**
 * The authentication middleware (src/Core/Auth/Middleware/AuthMiddleware.php):
 * a logged-in visitor passes; a guest under a basic guard is aborted with
 * 401, a guest asking for AJAX, JSON or XML with 403, and any other guest is
 * sent on with a redirect to the login route.
 */
module AuthMiddleware {
  import opened Wrappers
  import opened Php
  import opened HttpContext

  /** The guard the authentication singleton uses. */
  datatype Guard = BasicStateful | BasicStateless | OtherGuard

  /** The request's format flags (their truthiness). */
  datatype RequestFormat = RequestFormat(ajax: bool, json: bool, xml: bool)

  /** How handle ends: an abort with a status code, or the next handler. */
  datatype Outcome = Abort(code: int) | Next

  function HandleOutcome(loggedIn: bool, guard: Guard, format: RequestFormat): (outcome: Outcome)
    ensures outcome.Next? <==> loggedIn || (!guard.BasicStateful? && !guard.BasicStateless? && !format.ajax && !format.json && !format.xml)
    ensures outcome == Abort(401) <==> !loggedIn && (guard.BasicStateful? || guard.BasicStateless?)
    ensures outcome == Abort(403) <==> !loggedIn && guard.OtherGuard? && (format.ajax || format.json || format.xml)
  {
    if loggedIn then Next
    else if guard.BasicStateful? || guard.BasicStateless? then Abort(401)
    else if format.ajax || format.json || format.xml then Abort(403)
    else Next
  }

  /** A guest reaches the next handler only with a redirect to the login route on the response. */
  predicate RedirectsGuest(loggedIn: bool, guard: Guard, format: RequestFormat)
  {
    !loggedIn && HandleOutcome(loggedIn, guard, format).Next?
  }

  /** The basic guard is checked before the format: a basic-guarded guest gets 401 even for an AJAX request. */
  lemma BasicGuardBeforeFormat(guard: Guard, format: RequestFormat)
    requires guard.BasicStateful? || guard.BasicStateless?
    ensures HandleOutcome(false, guard, format) == Abort(401)
  {
  }

  /**
   * handle: decides the outcome and, for a guest that goes on, redirects to
   * the configured login route (app.routing.loginroute) first.
   */
  method Handle(response: Response, loggedIn: bool, guard: Guard, format: RequestFormat, loginRoute: Value)
    returns (outcome: Outcome)
    modifies response
    ensures outcome == HandleOutcome(loggedIn, guard, format)
    ensures response.events
         == old(response.events) + (if RedirectsGuest(loggedIn, guard, format) then [Redirect(loginRoute)] else [])
    ensures response.outputType == old(response.outputType)
  {
    if !loggedIn {
      if guard.BasicStateful? || guard.BasicStateless? {
        return Abort(401);
      } else if format.ajax || format.json || format.xml {
        return Abort(403);
      } else {
        response.RedirectTo(loginRoute);
      }
    }
    return Next;
  }
}
