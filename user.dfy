/**
 * The user model (src/Core/Models/User.php): its roles relation (which needs
 * the role class to be set), hasRole, and hasRight, which on first use
 * collects the rights of every role into a cached, duplicate-free list.
 */
module UserModel {
  import opened Wrappers

  /** A role with the ids of its rights, in the order the relation yields them. */
  datatype Role = Role(id: int, rights: seq<int>)

  const RoleClassNotSet: string := "The class representing the Roles not set"

  /** The right ids of all roles, role by role, duplicates included. */
  function AllRights(roles: seq<Role>): seq<int>
    decreases |roles|
  {
    if roles == [] then []
    else AllRights(roles[..|roles| - 1]) + roles[|roles| - 1].rights
  }

  /** A right id is collected exactly when one of the roles grants it. */
  lemma {:induction false} AllRightsMembers(roles: seq<Role>, rightId: int)
    ensures rightId in AllRights(roles) <==> exists i :: 0 <= i < |roles| && rightId in roles[i].rights
    decreases |roles|
  {
    if roles != [] {
      var init := roles[..|roles| - 1];
      AllRightsMembers(init, rightId);
      if rightId in AllRights(roles) && rightId !in roles[|roles| - 1].rights {
        assert rightId in AllRights(init);
        var i :| 0 <= i < |init| && rightId in init[i].rights;
        assert roles[i] == init[i];
      }
      if exists i :: 0 <= i < |roles| && rightId in roles[i].rights {
        var i :| 0 <= i < |roles| && rightId in roles[i].rights;
        if i < |roles| - 1 {
          assert init[i] == roles[i];
        }
      }
    }
  }

  /** array_unique: the first occurrence of each value, in order. */
  function Dedup(xs: seq<int>): seq<int>
    decreases |xs|
  {
    if xs == [] then []
    else
      var d := Dedup(xs[..|xs| - 1]);
      if xs[|xs| - 1] in d then d else d + [xs[|xs| - 1]]
  }

  /** Removing duplicates keeps exactly the values there were. */
  lemma {:induction false} DedupMembers(xs: seq<int>, x: int)
    ensures x in Dedup(xs) <==> x in xs
    decreases |xs|
  {
    if xs != [] {
      var init := xs[..|xs| - 1];
      DedupMembers(init, x);
      assert xs == init + [xs[|xs| - 1]];
    }
  }

  /** Removing duplicates leaves none. */
  lemma {:induction false} DedupDistinct(xs: seq<int>)
    ensures forall i, j :: 0 <= i < j < |Dedup(xs)| ==> Dedup(xs)[i] != Dedup(xs)[j]
    decreases |xs|
  {
    if xs != [] {
      var init := xs[..|xs| - 1];
      DedupDistinct(init);
    }
  }

  /** The cached rights list, as hasRight builds it. */
  function RightsOf(roles: seq<Role>): seq<int>
  {
    Dedup(AllRights(roles))
  }

  /** The cached list holds each right of each role exactly once. */
  lemma RightsOfIsTheUnion(roles: seq<Role>, rightId: int)
    ensures rightId in RightsOf(roles) <==> exists i :: 0 <= i < |roles| && rightId in roles[i].rights
    ensures forall i, j :: 0 <= i < j < |RightsOf(roles)| ==> RightsOf(roles)[i] != RightsOf(roles)[j]
  {
    DedupMembers(AllRights(roles), rightId);
    AllRightsMembers(roles, rightId);
    DedupDistinct(AllRights(roles));
  }

  /** The nested each loops of hasRight: the right ids of every role, in order. */
  method CollectRights(roles: seq<Role>) returns (collected: seq<int>)
    ensures collected == AllRights(roles)
  {
    collected := [];
    var i := 0;
    while i < |roles|
      invariant 0 <= i <= |roles|
      invariant collected == AllRights(roles[..i])
    {
      var roleRights := roles[i].rights;
      var j := 0;
      while j < |roleRights|
        invariant 0 <= j <= |roleRights|
        invariant collected == AllRights(roles[..i]) + roleRights[..j]
      {
        collected := collected + [roleRights[j]];
        assert roleRights[..j + 1] == roleRights[..j] + [roleRights[j]];
        j := j + 1;
      }
      assert roleRights[..j] == roleRights;
      assert roles[..i + 1][..i] == roles[..i];
      i := i + 1;
    }
    assert roles[..i] == roles;
  }

  /** array_unique over the collected ids. */
  method ArrayUnique(xs: seq<int>) returns (unique: seq<int>)
    ensures unique == Dedup(xs)
  {
    unique := [];
    var i := 0;
    while i < |xs|
      invariant 0 <= i <= |xs|
      invariant unique == Dedup(xs[..i])
    {
      assert xs[..i + 1][..i] == xs[..i];
      if xs[i] !in unique {
        unique := unique + [xs[i]];
      }
      i := i + 1;
    }
    assert xs[..i] == xs;
  }

  class User {
    /** The class representing the roles; unset by default. */
    var roleClass: Option<string>
    /** The user_roles relation. */
    var roles: seq<Role>
    /** The cached rights; unset until hasRight first runs. */
    var rights: Option<seq<int>>

    constructor (roleClass: Option<string>, roles: seq<Role>)
      ensures this.roleClass == roleClass && this.roles == roles && rights == None
    {
      this.roleClass := roleClass;
      this.roles := roles;
      rights := None;
    }

    /** roles(): the relation, or an exception when the role class is not set. */
    function Roles(): (r: Result<seq<Role>, string>)
      reads this
      ensures r.Err? <==> roleClass.None?
      ensures r.Err? ==> r.error == RoleClassNotSet
      ensures r.Ok? ==> r.value == roles
    {
      if roleClass.None? then Err(RoleClassNotSet) else Ok(roles)
    }

    /** hasRole: whether one of the user's roles has the id. */
    function HasRole(roleId: int): (r: Result<bool, string>)
      reads this
      ensures r.Err? <==> roleClass.None?
      ensures r.Ok? ==> (r.value <==> exists i :: 0 <= i < |roles| && roles[i].id == roleId)
    {
      match Roles()
      case Err(e) => Err(e)
      case Ok(rs) => Ok(exists i :: 0 <= i < |rs| && rs[i].id == roleId)
    }

    /**
     * hasRight: the first call fills the cache with the unique rights of all
     * roles; later calls answer from the cache, even if the roles changed.
     */
    method HasRight(rightId: int) returns (r: Result<bool, string>)
      modifies this
      ensures roleClass == old(roleClass) && roles == old(roles)
      ensures old(rights).Some? ==> rights == old(rights) && r == Ok(rightId in old(rights).value)
      ensures old(rights).None? && roleClass.None? ==> rights == None && r == Err(RoleClassNotSet)
      ensures old(rights).None? && roleClass.Some?
              ==> rights == Some(RightsOf(roles))
                  && r == Ok(exists i :: 0 <= i < |roles| && rightId in roles[i].rights)
    {
      if rights.None? {
        var rolesNow := Roles();
        if rolesNow.Err? {
          return Err(rolesNow.error);
        }
        var collected := CollectRights(rolesNow.value);
        var unique := ArrayUnique(collected);
        rights := Some(unique);
        RightsOfIsTheUnion(roles, rightId);
      }
      r := Ok(rightId in rights.value);
    }
  }
}
