/**
 * The application (src/Core/Application.php): its abort switch, the rewrite
 * of a found route so that every controller call goes through responseFlow,
 * the maintenance gate and abort handling of dispatch, and the stateful
 * feature flag.
 */
module Application {
  import opened Wrappers
  import opened Text
  import opened Php
  import opened ExceptionHandlers

  /** abort: the same switch as the exception-handler concern's, with no default code. */
  function AbortFor(code: int, message: string, headers: Headers): (e: HttpError)
    ensures e.message == message
    ensures e.AbortHttp? <==> code == 200
    ensures code != 200 ==> StatusOf(e) == Some(code)
  {
    match code
    case 200 => AbortHttp(message)
    case 401 => Unauthorized("Basic", message)
    case 403 => AccessDenied(message)
    case 404 => NotFoundHttp(message)
    case 503 => ServiceUnavailable(message)
    case _ => Http(code, message, headers)
  }

  /** The application's abort and the concern's throw the same exception for every given code. */
  lemma {:induction false} AbortAgreesWithConcern(code: int, message: string, headers: Headers)
    ensures AbortFor(code, message, headers) == ExceptionHandlers.Abort(code, message, headers)
  {
    if code !in {200, 401, 403, 404, 503} {
      assert ExceptionHandlers.Abort(code, message, headers).Http?;
    }
  }

  /** isStateful: the app.features.stateful setting, true when it is not configured. */
  function IsStateful(config: map<string, Value>): (stateful: Value)
    ensures "app.features.stateful" !in config ==> stateful == Bool(true)
    ensures "app.features.stateful" in config ==> stateful == config["app.features.stateful"]
  {
    if "app.features.stateful" in config then config["app.features.stateful"] else Bool(true)
  }

  /** The part of a found route's information handleFoundRoute touches: the action's "uses" and the parameters. */
  datatype RouteInfo = RouteInfo(uses: Option<string>, parameters: Value)

  /**
   * handleFoundRoute: "Controller@method" becomes "Controller@responseFlow",
   * and the parameters become [method, the old parameters]. A "uses"
   * without '@' leaves the method null; parts after the second are dropped.
   */
  function HandleFoundRoute(info: RouteInfo): (rewritten: RouteInfo)
    ensures info.uses.None? ==> rewritten == info
    ensures info.uses.Some? ==> rewritten.uses.Some?
  {
    match info.uses
    case None => info
    case Some(uses) =>
      var parts := Split(uses, '@');
      var invoked := if |parts| >= 2 then Str(parts[1]) else Null;
      RouteInfo(Some(Join([parts[0], "responseFlow"], "@")), List([invoked, info.parameters]))
  }

  /**
   * For a well-formed "C@m", the rewritten route calls C's responseFlow with
   * m and the original parameters.
   */
  lemma RewriteRoutesThroughResponseFlow(controller: string, methodName: string, parameters: Value)
    requires '@' !in controller && '@' !in methodName
    ensures HandleFoundRoute(RouteInfo(Some(controller + "@" + methodName), parameters))
         == RouteInfo(Some(controller + "@responseFlow"), List([Str(methodName), parameters]))
  {
    var uses := controller + "@" + methodName;
    assert Join([controller, methodName], "@") == uses by {
      assert Join([methodName], "@") == methodName;
    }
    SplitJoin([controller, methodName], '@');
    assert Join([controller, "responseFlow"], "@") == controller + "@responseFlow" by {
      assert Join(["responseFlow"], "@") == "responseFlow";
    }
  }

  /** The rewritten "uses" names the same controller, and its method part is always responseFlow. */
  lemma {:induction false} RewriteKeepsController(info: RouteInfo)
    requires info.uses.Some?
    ensures Split(HandleFoundRoute(info).uses.value, '@') == [Split(info.uses.value, '@')[0], "responseFlow"]
  {
    var parts := Split(info.uses.value, '@');
    SplitPartsHaveNoSeparator(info.uses.value, '@');
    assert '@' !in parts[0];
    assert '@' !in "responseFlow";
    SplitJoin([parts[0], "responseFlow"], '@');
  }

  /** What dispatch ends in. */
  datatype DispatchResult =
    /** The parent dispatcher's response. */
    | Responded(response: Value)
    /** An abort exception was caught: the response is left unset (null). */
    | Swallowed
    /** Any other exception leaves dispatch. */
    | Raised(error: HttpError)

  /**
   * dispatch: under maintenance the request is aborted with 503 before the
   * parent dispatcher is consulted; the abort exception is caught, every
   * other exception propagates.
   */
  function DispatchOutcome(downForMaintenance: bool, parent: Result<Value, HttpError>): (r: DispatchResult)
    ensures downForMaintenance ==> r == Raised(ServiceUnavailable(""))
    ensures !downForMaintenance && parent.Ok? ==> r == Responded(parent.value)
    ensures !downForMaintenance && parent.Err? ==> (r == Swallowed <==> parent.error.AbortHttp?)
  {
    var thrown: Result<Value, HttpError> := if downForMaintenance then Err(AbortFor(503, "", [])) else parent;
    match thrown
    case Ok(response) => Responded(response)
    case Err(AbortHttp(_)) => Swallowed
    case Err(e) => Raised(e)
  }

  /** Of all the codes a controller can abort with, only 200 is caught by dispatch. */
  lemma OnlyAbort200IsCaught(code: int, message: string, headers: Headers)
    ensures DispatchOutcome(false, Err(AbortFor(code, message, headers))) == Swallowed <==> code == 200
    ensures code != 200 ==> DispatchOutcome(false, Err(AbortFor(code, message, headers))) == Raised(AbortFor(code, message, headers))
  {
  }
}
