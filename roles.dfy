/** The role hierarchy: the fixed priority order, highest-role resolution and the role-to-group table. */
module Roles {
  import opened Wrappers

  /** `Role` and `UserRole`: both enums hold the same three values. */
  datatype Role = Admin | Editor | Viewer

  /** The enum's string value, as it travels in role lists. */
  function RoleName(r: Role): (s: string)
    ensures s in {"admin", "editor", "viewer"}
  {
    match r
    case Admin => "admin"
    case Editor => "editor"
    case Viewer => "viewer"
  }

  lemma RoleNameInjective(r1: Role, r2: Role)
    ensures RoleName(r1) == RoleName(r2) <==> r1 == r2
  {
    if r1 != r2 {
      // the names already differ in their first character
      assert RoleName(r1)[0] != RoleName(r2)[0];
    }
  }

  /** A role list as its enum values, the form a token or `request.user.role` carries. */
  function RoleNames(roles: seq<Role>): (names: seq<string>)
    ensures |names| == |roles|
    ensures forall i :: 0 <= i < |roles| ==> names[i] == RoleName(roles[i])
  {
    if roles == [] then [] else [RoleName(roles[0])] + RoleNames(roles[1..])
  }

  /** A role is in the list exactly when its value is among the list's values. */
  lemma RoleNamesNameHeldRoles(roles: seq<Role>, r: Role)
    ensures r in roles <==> RoleName(r) in RoleNames(roles)
  {
    var names := RoleNames(roles);
    if r in roles {
      var i :| 0 <= i < |roles| && roles[i] == r;
      assert names[i] == RoleName(r);
    }
    if RoleName(r) in names {
      var i :| 0 <= i < |names| && names[i] == RoleName(r);
      RoleNameInjective(roles[i], r);
    }
  }

  /** ROLE_PRIORITY. */
  const RolePriority: seq<Role> := [Admin, Editor, Viewer]

  /** The position of a role in ROLE_PRIORITY; a smaller position is a higher privilege. */
  function Rank(r: Role): (i: nat)
    ensures i < |RolePriority| && RolePriority[i] == r
  {
    match r
    case Admin => 0
    case Editor => 1
    case Viewer => 2
  }

  predicate Outranks(r1: Role, r2: Role) {
    Rank(r1) < Rank(r2)
  }

  /** ROLE_PRIORITY lists every role exactly once, ADMIN first and VIEWER last. */
  lemma RolePriorityIsEnumeration()
    ensures |RolePriority| == 3
    ensures RolePriority[0] == Admin && RolePriority[1] == Editor && RolePriority[2] == Viewer
    ensures forall r: Role :: r in RolePriority
    ensures forall i, j :: 0 <= i < j < |RolePriority| ==> RolePriority[i] != RolePriority[j]
  {
    forall r: Role
      ensures r in RolePriority
    {
      assert RolePriority[Rank(r)] == r;
    }
  }

  /** The priority order is a strict total order on roles. */
  lemma OutranksIsStrictTotal(r1: Role, r2: Role, r3: Role)
    ensures !Outranks(r1, r1)
    ensures r1 != r2 ==> (Outranks(r1, r2) <==> !Outranks(r2, r1))
    ensures Outranks(r1, r2) && Outranks(r2, r3) ==> Outranks(r1, r3)
  {
    if r1 != r2 {
      assert RolePriority[Rank(r1)] == r1 && RolePriority[Rank(r2)] == r2;
    }
  }

  /** `prio.find(role => held.includes(role))`. */
  function FindHeld(prio: seq<Role>, held: seq<string>): (r: Option<Role>)
    ensures r.Some? ==> RoleName(r.value) in held
    ensures r.Some? ==> exists i :: 0 <= i < |prio| && prio[i] == r.value &&
                          forall j :: 0 <= j < i ==> RoleName(prio[j]) !in held
    ensures r.None? <==> forall i :: 0 <= i < |prio| ==> RoleName(prio[i]) !in held
  {
    if prio == [] then None
    else if RoleName(prio[0]) in held then Some(prio[0])
    else
      var rest := FindHeld(prio[1..], held);
      if rest.Some? then
        ghost var i :| 0 <= i < |prio[1..]| && prio[1..][i] == rest.value &&
                       forall j :: 0 <= j < i ==> RoleName(prio[1..][j]) !in held;
        assert prio[i + 1] == rest.value;
        rest
      else rest
  }

  /** resolveHighestRole: the first role of ROLE_PRIORITY that the list holds; null for an undefined or empty list. */
  function ResolveHighestRole(roles: Option<seq<string>>): (r: Option<Role>)
    ensures roles.None? || roles == Some([]) ==> r.None?
    ensures r.Some? ==> roles.Some? && RoleName(r.value) in roles.value
    ensures r.Some? ==> forall h: Role :: RoleName(h) in roles.value ==> !Outranks(h, r.value)
    ensures roles.Some? && roles.value != [] ==>
              (r.None? <==> forall h: Role :: RoleName(h) !in roles.value)
  {
    if roles.None? || |roles.value| == 0 then None
    else
      var r := FindHeld(RolePriority, roles.value);
      assert r.None? ==> forall h: Role :: RoleName(h) !in roles.value by {
        if r.None? {
          forall h: Role
            ensures RoleName(h) !in roles.value
          {
            assert RolePriority[Rank(h)] == h;
          }
        }
      }
      r
  }

  /** The resolved role is ADMIN whenever ADMIN is held, and EDITOR whenever EDITOR but not ADMIN is held. */
  lemma ResolveHighestRolePrefersAdminThenEditor(roles: seq<string>)
    ensures "admin" in roles ==> ResolveHighestRole(Some(roles)) == Some(Admin)
    ensures "editor" in roles && "admin" !in roles ==> ResolveHighestRole(Some(roles)) == Some(Editor)
  {
    var r := ResolveHighestRole(Some(roles));
    assert RoleName(Admin) == "admin" && RoleName(Editor) == "editor";
    if "admin" in roles {
      assert r.Some?;
      RoleNameInjective(r.value, Admin);
    } else if "editor" in roles {
      assert r.Some?;
      RoleNameInjective(r.value, Admin);
    }
  }

  /** The result depends only on which strings the list holds, not on their order or repetition. */
  lemma ResolveHighestRoleIgnoresOrder(xs: seq<string>, ys: seq<string>)
    requires forall s :: s in xs <==> s in ys
    ensures ResolveHighestRole(Some(xs)) == ResolveHighestRole(Some(ys))
  {
    var a, b := ResolveHighestRole(Some(xs)), ResolveHighestRole(Some(ys));
    assert xs == [] <==> ys == [] by {
      assert xs != [] ==> xs[0] in ys;
      assert ys != [] ==> ys[0] in xs;
    }
    if a.Some? && b.Some? {
      OutranksIsStrictTotal(a.value, b.value, a.value);
    }
  }

  /** Serialization groups named by the response DTOs. */
  datatype Group = PublicGroup | UserGroup | EditorGroup | AdminGroup

  function GroupName(g: Group): string {
    match g
    case PublicGroup => "public"
    case UserGroup => "user"
    case EditorGroup => "editor"
    case AdminGroup => "admin"
  }

  /** ROLE_GROUPS, total over Role. */
  function RoleGroups(r: Role): seq<Group> {
    match r
    case Admin => [AdminGroup, EditorGroup, UserGroup, PublicGroup]
    case Editor => [EditorGroup, UserGroup, PublicGroup]
    case Viewer => [UserGroup, PublicGroup]
  }

  /** The groups the serializer uses when no role resolves. */
  const AnonymousGroups: seq<Group> := [PublicGroup]

  /** The group lists form a chain VIEWER ⊆ EDITOR ⊆ ADMIN, each holding 'public' and strictly more than the anonymous list. */
  lemma RoleGroupsChain()
    ensures forall g :: g in RoleGroups(Viewer) ==> g in RoleGroups(Editor)
    ensures forall g :: g in RoleGroups(Editor) ==> g in RoleGroups(Admin)
    ensures forall r: Role :: PublicGroup in RoleGroups(r)
    ensures forall r: Role :: (forall g :: g in AnonymousGroups ==> g in RoleGroups(r)) &&
                              exists g :: g in RoleGroups(r) && g !in AnonymousGroups
  {
    forall r: Role
      ensures exists g :: g in RoleGroups(r) && g !in AnonymousGroups
    {
      assert UserGroup in RoleGroups(r) && UserGroup !in AnonymousGroups;
    }
  }

  /** 'admin' belongs to ADMIN only, 'editor' to ADMIN and EDITOR, 'user' to all three. */
  lemma RoleGroupsMembership(r: Role)
    ensures AdminGroup in RoleGroups(r) <==> r == Admin
    ensures EditorGroup in RoleGroups(r) <==> r != Viewer
    ensures UserGroup in RoleGroups(r)
  {
  }

  /** A higher role never sees fewer groups. */
  lemma RoleGroupsMonotone(r1: Role, r2: Role)
    requires Outranks(r1, r2)
    ensures forall g :: g in RoleGroups(r2) ==> g in RoleGroups(r1)
  {
  }
}
