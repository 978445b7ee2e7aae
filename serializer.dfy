/** RoleSerializerInterceptor: group resolution and the whitelist projection of response payloads. */
module RoleSerializer {
  import opened Wrappers
  import opened Roles
  import opened Identity
  import opened PlainValues
  import opened ResponseDtos

  /** `highestRole ? ROLE_GROUPS[highestRole] : ['public']`, for `request.user?.role`. */
  function ResponseGroups(user: Option<AuthUser>): (g: seq<Group>)
    ensures PublicGroup in g
    ensures ResolveHighestRole(ClaimedRoles(user)).None? ==> g == AnonymousGroups
    ensures ResolveHighestRole(ClaimedRoles(user)).Some? ==> g == RoleGroups(ResolveHighestRole(ClaimedRoles(user)).value)
  {
    var highest := ResolveHighestRole(ClaimedRoles(user));
    if highest.Some? then RoleGroups(highest.value) else AnonymousGroups
  }

  /**
   * class-transformer exposes a tagged field when one of its groups is among the requested groups;
   * there are four groups, so the check is spelled out group by group.
   */
  predicate Visible(spec: FieldSpec, groups: seq<Group>) {
    (PublicGroup in spec.groups && PublicGroup in groups) ||
    (UserGroup in spec.groups && UserGroup in groups) ||
    (EditorGroup in spec.groups && EditorGroup in groups) ||
    (AdminGroup in spec.groups && AdminGroup in groups)
  }

  lemma VisibleIffSharedGroup(spec: FieldSpec, groups: seq<Group>)
    ensures Visible(spec, groups) <==> exists g :: g in spec.groups && g in groups
  {
    if exists g :: g in spec.groups && g in groups {
      var g :| g in spec.groups && g in groups;
      assert g == PublicGroup || g == UserGroup || g == EditorGroup || g == AdminGroup;
    }
  }

  /** The names of the DTO's fields that the groups expose. */
  function VisibleFields(d: Dto, groups: seq<Group>): set<string> {
    set k | k in DeclaredFields(d) && Visible(Spec(d, k).value, groups)
  }

  /**
   * `plainToInstance(dto, item, { groups, excludeExtraneousValues: true })`: an object keeps only the
   * DTO fields the groups expose; a relation field is transformed through its own DTO with the same
   * groups; an array is transformed element by element; any other value is returned as it is.
   */
  function SerializeObject(d: Dto, groups: seq<Group>, v: Value): (r: Value)
    ensures v.Obj? ==> r.Obj? && r.fields.Keys == VisibleFields(d, groups) * v.fields.Keys
    ensures v.Arr? ==> r.Arr? && |r.items| == |v.items|
    ensures !v.Obj? && !v.Arr? ==> r == v
    decreases Depth(d), v, 1
  {
    match v
    case Obj(m) => Obj(Project(d, groups, m))
    case Arr(items) => Arr(seq(|items|, i requires 0 <= i < |items| => SerializeObject(d, groups, items[i])))
    case _ => v
  }

  function Project(d: Dto, groups: seq<Group>, m: Record): (r: Record)
    ensures r.Keys == VisibleFields(d, groups) * m.Keys
    ensures forall k :: k in r && Spec(d, k).value.nested.None? ==> r[k] == m[k]
    ensures forall k :: k in r && Spec(d, k).value.nested.Some? ==>
              r[k] == SerializeObject(Spec(d, k).value.nested.value, groups, m[k])
    decreases Depth(d), Obj(m), 0
  {
    map k | k in m.Keys && Spec(d, k).Some? && Visible(Spec(d, k).value, groups) ::
      ProjectField(d, groups, k, m[k])
  }

  function ProjectField(d: Dto, groups: seq<Group>, k: string, v: Value): Value
    requires Spec(d, k).Some?
    decreases Depth(d), v, 0
  {
    match Spec(d, k).value.nested
    case None => v
    case Some(nd) => SerializeObject(nd, groups, v)
  }

  /** serializeArray: element i of the result is serializeObject of element i. */
  function SerializeArray(d: Dto, groups: seq<Group>, items: seq<Value>): (r: seq<Value>)
    ensures |r| == |items|
    ensures forall i :: 0 <= i < |items| ==> r[i] == SerializeObject(d, groups, items[i])
  {
    seq(|items|, i requires 0 <= i < |items| => SerializeObject(d, groups, items[i]))
  }

  /** isPaginated: an object whose `data` property is an array. */
  predicate IsPaginated(v: Value) {
    v.Obj? && "data" in v.fields && v.fields["data"].Arr?
  }

  /** serializePaginated: `{ ...response, data: serializeArray(response.data) }`. */
  function SerializePaginated(d: Dto, groups: seq<Group>, response: Value): (r: Value)
    requires IsPaginated(response)
    ensures r.Obj? && r.fields.Keys == response.fields.Keys
    ensures forall k :: k in response.fields && k != "data" ==> r.fields[k] == response.fields[k]
    ensures r.fields["data"] == Arr(SerializeArray(d, groups, response.fields["data"].items))
  {
    Obj(response.fields["data" := Arr(SerializeArray(d, groups, response.fields["data"].items))])
  }

  /** serializeResponse: paginated first, then array, then single object. */
  function SerializeResponse(d: Dto, groups: seq<Group>, response: Value): (r: Value)
    ensures IsPaginated(response) ==> r == SerializePaginated(d, groups, response)
    ensures !IsPaginated(response) && response.Arr? ==> r == Arr(SerializeArray(d, groups, response.items))
    ensures !IsPaginated(response) && !response.Arr? ==> r == SerializeObject(d, groups, response)
  {
    if IsPaginated(response) then SerializePaginated(d, groups, response)
    else if response.Arr? then Arr(SerializeArray(d, groups, response.items))
    else SerializeObject(d, groups, response)
  }

  /**
   * intercept: the handler's result serialized with the groups of the request's user; a request
   * without a user, or whose roles resolve to none, gets the anonymous projection.
   */
  function Intercept(d: Dto, req: Request, response: Value): (r: Value)
    ensures ResolveHighestRole(ClaimedRoles(req.user)).None? ==> r == SerializeResponse(d, AnonymousGroups, response)
    ensures ResolveHighestRole(ClaimedRoles(req.user)).Some? ==>
              r == SerializeResponse(d, RoleGroups(ResolveHighestRole(ClaimedRoles(req.user)).value), response)
    ensures IsPaginated(response) ==> r.Obj? && r.fields.Keys == response.fields.Keys
    ensures !IsPaginated(response) && response.Arr? ==> r.Arr? && |r.items| == |response.items|
  {
    SerializeResponse(d, ResponseGroups(req.user), response)
  }
}
