/**
 * The login-required controller (src/Core/Controllers/Login/LoginRequiredController.php).
 * It builds on the controller base, so the rights check runs first, with the
 * controller counted as one that requires a login. Then checkLogin runs:
 * - A guest on a basic-authentication controller is logged in from the
 *   server's PHP_AUTH_USER and PHP_AUTH_PW when both are set; a guest still
 *   not logged in gets a Basic challenge and a 401.
 * - A guest on any other controller is redirected to the login route.
 * Finally the user is assigned to the response as "__login".
 */
module LoginRequired {
  import opened Wrappers
  import opened Php
  import opened HttpContext
  import ControllerBase

  const TypeLogin: int := 1
  const TypeBasic: int := 2

  /** The basic-authentication server variables; Null when absent. */
  datatype ServerAuth = ServerAuth(authUser: Value, authPassword: Value)

  /**
   * The condition of checkLogin as written. Assignment binds looser than &&,
   * so $email receives the boolean of both operands, and the login is
   * attempted with true as the e-mail address.
   */
  function LoginAttemptAsWritten(server: ServerAuth): Option<(Value, Value)>
  {
    if Truthy(server.authUser) && Truthy(server.authPassword) then Some((Bool(true), server.authPassword))
    else None
  }

  /** The evidently intended condition: both credentials set, passed on as given. */
  function LoginAttempt(server: ServerAuth): (attempt: Option<(Value, Value)>)
    ensures attempt.Some? <==> Truthy(server.authUser) && Truthy(server.authPassword)
    ensures attempt.Some? ==> attempt.value == (server.authUser, server.authPassword)
  {
    if Truthy(server.authUser) && Truthy(server.authPassword) then Some((server.authUser, server.authPassword))
    else None
  }

  /** Both conditions fire on the same inputs; as written, the e-mail address is always lost. */
  lemma AsWrittenLosesEmail(server: ServerAuth)
    ensures LoginAttemptAsWritten(server).Some? <==> LoginAttempt(server).Some?
    ensures LoginAttemptAsWritten(server).Some? ==> LoginAttemptAsWritten(server).value.0 == Bool(true)
    ensures LoginAttemptAsWritten(server).Some? && server.authUser != Bool(true)
            ==> LoginAttemptAsWritten(server) != LoginAttempt(server)
  {
  }

  /** A concrete pair of credentials the written condition misdirects. */
  lemma AsWrittenExample()
    ensures LoginAttemptAsWritten(ServerAuth(Str("ann@example.com"), Str("secret")))
         == Some((Bool(true), Str("secret")))
    ensures LoginAttempt(ServerAuth(Str("ann@example.com"), Str("secret")))
         == Some((Str("ann@example.com"), Str("secret")))
  {
    assert Truthy(Str("ann@example.com")) by {
      assert "ann@example.com" != "" && "ann@example.com" != "0" by {
        assert "ann@example.com"[0] == 'a';
      }
    }
    assert Truthy(Str("secret")) by {
      assert "secret"[0] == 's';
    }
  }

  /** What checkLogin adds to the response, given the login state before and after the attempt. */
  function LoginEvents(wasLoggedIn: bool, authType: int, nowLoggedIn: bool, loginRoute: Value): seq<Event>
  {
    if wasLoggedIn then []
    else if authType == TypeBasic then
      if nowLoggedIn then [] else [Event.AssignHeader("WWW-Authenticate", "Basic"), Response401(Some("Invalid credentials."))]
    else [Redirect(loginRoute)]
  }

  /** A guest never passes checkLogin silently: either the login succeeded or the guest is challenged or redirected. */
  lemma GuestIsStopped(authType: int, nowLoggedIn: bool, loginRoute: Value)
    ensures (nowLoggedIn && authType == TypeBasic)
            || Response401(Some("Invalid credentials.")) in LoginEvents(false, authType, nowLoggedIn, loginRoute)
            || Redirect(loginRoute) in LoginEvents(false, authType, nowLoggedIn, loginRoute)
  {
    var events := LoginEvents(false, authType, nowLoggedIn, loginRoute);
    if authType == TypeBasic && !nowLoggedIn {
      assert events[1] == Response401(Some("Invalid credentials."));
    } else if authType != TypeBasic {
      assert events[0] == Redirect(loginRoute);
    }
  }

  /** checkLogin, with the evidently intended credential handling. */
  method CheckLogin(response: Response, visitor: Visitor, server: ServerAuth, loginRoute: Value, authType: int := TypeLogin)
    requires response as object != visitor
    modifies response, visitor
    ensures visitor.loggedIn
         == (old(visitor.loggedIn)
             || (authType == TypeBasic && LoginAttempt(server).Some?
                 && visitor.accepts(server.authUser, server.authPassword)))
    ensures response.events == old(response.events) + LoginEvents(old(visitor.loggedIn), authType, visitor.loggedIn, loginRoute)
    ensures response.outputType == old(response.outputType)
  {
    if !visitor.loggedIn {
      if authType == TypeBasic {
        var attempt := LoginAttempt(server);
        if attempt.Some? {
          visitor.Login(attempt.value.0, attempt.value.1);
        }
        if !visitor.loggedIn {
          response.AssignHeader("WWW-Authenticate", "Basic");
          response.Unauthorized(Some("Invalid credentials."));
        }
      } else {
        response.RedirectTo(loginRoute);
      }
    }
  }

  class LoginRequiredController {
    const response: Response
    const visitor: Visitor

    /**
     * The constructor: the base's rights check (as a login-required
     * controller), then checkLogin, then the user assigned as "__login".
     * The authentication type defaults to the login-page redirect.
     */
    constructor (response: Response, visitor: Visitor, requiredRights: seq<string>,
                 server: ServerAuth, loginRoute: Value, authType: int := TypeLogin)
      requires response as object != visitor
      modifies response, visitor
      ensures this.response == response && this.visitor == visitor
      ensures response.events
           == old(response.events)
              + (if ControllerBase.Authorized(requiredRights, old(visitor.loggedIn), visitor.rights, true)
                 then [] else [Response401(None)])
              + LoginEvents(old(visitor.loggedIn), authType, visitor.loggedIn, loginRoute)
              + [Event.Assign("__login", visitor.user)]
    {
      this.response := response;
      this.visitor := visitor;
      new;
      ControllerBase.CheckRights(response, visitor, requiredRights, true);
      CheckLogin(response, visitor, server, loginRoute, authType);
      response.Assign("__login", visitor.user);
    }
  }
}
