/**
 * The roles middleware (src/Core/Auth/Middleware/RolesMiddleware.php): the
 * request goes on only when the visitor is logged in and the user has every
 * role named in the middleware's arguments; otherwise it is aborted with 403.
 */
module RolesMiddleware {
  /** The outcome of handle. */
  datatype Outcome = Forbidden | Next

  /** The decision handle takes; the role ids are the arguments after the request and the closure. */
  predicate Allowed(loggedIn: bool, roleIds: seq<int>, userRoleIds: set<int>)
  {
    loggedIn && forall i :: 0 <= i < |roleIds| ==> roleIds[i] in userRoleIds
  }

  /**
   * handle: a loop over the required role ids that stops at the first one the
   * user lacks (and does not look at the roles of a guest).
   */
  method Handle(loggedIn: bool, roleIds: seq<int>, userRoleIds: set<int>) returns (outcome: Outcome, checked: nat)
    ensures outcome == (if Allowed(loggedIn, roleIds, userRoleIds) then Next else Forbidden)
    ensures !loggedIn ==> checked == 0
    ensures loggedIn && outcome.Forbidden? ==> 0 < checked <= |roleIds| && roleIds[checked - 1] !in userRoleIds
    ensures loggedIn && outcome.Next? ==> checked == |roleIds|
  {
    var allowed := loggedIn;
    checked := 0;
    if allowed {
      while checked < |roleIds|
        invariant 0 <= checked <= |roleIds|
        invariant forall i :: 0 <= i < checked ==> roleIds[i] in userRoleIds
      {
        checked := checked + 1;
        if roleIds[checked - 1] !in userRoleIds {
          allowed := false;
          break;
        }
      }
    }
    outcome := if allowed then Next else Forbidden;
  }

  /** A guest is always refused, even when no role is required. */
  lemma GuestForbidden(roleIds: seq<int>, userRoleIds: set<int>)
    ensures !Allowed(false, roleIds, userRoleIds)
  {
  }

  /** Requiring more roles never lets more visitors through. */
  lemma {:induction false} MoreRolesNarrow(loggedIn: bool, roleIds: seq<int>, extra: seq<int>, userRoleIds: set<int>)
    requires Allowed(loggedIn, roleIds + extra, userRoleIds)
    ensures Allowed(loggedIn, roleIds, userRoleIds)
  {
    forall i | 0 <= i < |roleIds|
      ensures roleIds[i] in userRoleIds
    {
      assert (roleIds + extra)[i] == roleIds[i];
    }
  }
}
