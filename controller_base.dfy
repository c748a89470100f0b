/**
 * The controller base (src/Core/Bases/Controllers/BaseController.php): its
 * constructor checks that the visitor holds every right the route requires,
 * and answers 401 otherwise, unless the visitor is a guest on a controller
 * that itself requires a login (which will send the guest to log in).
 */
module ControllerBase {
  import opened Wrappers
  import opened HttpContext

  /** The decision checkRights takes: may the visitor stay? */
  predicate Authorized(requiredRights: seq<string>, loggedIn: bool, rights: set<string>, loginRequired: bool)
  {
    || |requiredRights| == 0
    || (loggedIn && forall i :: 0 <= i < |requiredRights| ==> requiredRights[i] in rights)
    || (!loggedIn && loginRequired)
  }

  /**
   * The rights loop of checkRights: it stops at the first right the user
   * lacks, and reports which one it was.
   */
  method HasAllRights(requiredRights: seq<string>, rights: set<string>) returns (hasRights: bool, missing: nat)
    ensures hasRights <==> forall i :: 0 <= i < |requiredRights| ==> requiredRights[i] in rights
    ensures !hasRights ==> missing < |requiredRights| && requiredRights[missing] !in rights
    ensures !hasRights ==> forall i :: 0 <= i < missing ==> requiredRights[i] in rights
  {
    hasRights := true;
    missing := 0;
    while missing < |requiredRights|
      invariant 0 <= missing <= |requiredRights|
      invariant forall i :: 0 <= i < missing ==> requiredRights[i] in rights
    {
      if requiredRights[missing] !in rights {
        hasRights := false;
        return;
      }
      missing := missing + 1;
    }
  }

  /** A logged-in visitor lacking even one required right is refused, whatever the controller. */
  lemma {:induction false} MissingRightRefuses(requiredRights: seq<string>, rights: set<string>, loginRequired: bool, k: nat)
    requires k < |requiredRights| && requiredRights[k] !in rights
    ensures !Authorized(requiredRights, true, rights, loginRequired)
  {
    assert !(forall i :: 0 <= i < |requiredRights| ==> requiredRights[i] in rights) by {
      assert !(requiredRights[k] in rights);
    }
  }

  /** A guest on a route that requires rights passes only on a controller that requires a login. */
  lemma GuestPassesOnlyWhenLoginRequired(requiredRights: seq<string>, rights: set<string>, loginRequired: bool)
    requires |requiredRights| > 0
    ensures Authorized(requiredRights, false, rights, loginRequired) <==> loginRequired
  {
  }

  /**
   * checkRights: answers 401 (with no message) exactly when the visitor is
   * not authorized; the route's required rights are an input here.
   */
  method CheckRights(response: Response, visitor: Visitor, requiredRights: seq<string>, loginRequired: bool)
    modifies response
    ensures response.events
         == old(response.events)
            + (if Authorized(requiredRights, visitor.loggedIn, visitor.rights, loginRequired) then [] else [Response401(None)])
    ensures response.outputType == old(response.outputType)
  {
    if |requiredRights| == 0 {
      return;
    }
    if visitor.loggedIn {
      var hasRights, missing := HasAllRights(requiredRights, visitor.rights);
      if hasRights {
        return;
      }
      MissingRightRefuses(requiredRights, visitor.rights, loginRequired, missing);
    } else if loginRequired {
      return;
    }
    response.Unauthorized(None);
  }

  class Controller {
    const response: Response
    const visitor: Visitor

    /** The constructor: checks the rights as a plain controller. */
    constructor (response: Response, visitor: Visitor, requiredRights: seq<string>)
      modifies response
      ensures this.response == response && this.visitor == visitor
      ensures response.events
           == old(response.events)
              + (if Authorized(requiredRights, visitor.loggedIn, visitor.rights, false) then [] else [Response401(None)])
    {
      this.response := response;
      this.visitor := visitor;
      new;
      CheckRights(response, visitor, requiredRights, false);
    }
  }
}
