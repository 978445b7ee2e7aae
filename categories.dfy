/** CategoriesService: the base CRUD operations plus a visibility filter for finds. */
module Categories {
  import opened Wrappers
  import opened PlainValues
  import opened Crud
  import opened UserContext
  import opened Roles
  import RoleSerializer

  /** The conditions a non-privileged caller's find gets: active and not soft-deleted. */
  const VisibleOnly: Where := map["isActive" := Equals(Bool(true)), "deletedAt" := IsNull]

  class CategoriesService {
    const crud: CrudService
    const userContext: UserContextService

    /** The service keeps the base class's hooks. */
    constructor (categoryRepo: Repository, userContext: UserContextService)
      ensures crud.repository == categoryRepo
      ensures NoCreateHook(crud.hooks) && NoUpdateHook(crud.hooks) && NoDeleteHook(crud.hooks)
      ensures this.userContext == userContext
    {
      crud := new CrudService(categoryRepo, DefaultHooks());
      this.userContext := userContext;
    }

    /**
     * `applyVisibilityFilter`: an admin or editor gets `where` back unchanged; any other caller gets
     * every property of `where` except the two visibility ones, which are forced to active and not deleted.
     */
    function ApplyVisibilityFilter(w: Where): (r: Where)
      reads userContext
      ensures userContext.IsAdmin() || userContext.IsEditor() ==> r == w
      ensures !(userContext.IsAdmin() || userContext.IsEditor()) ==>
                r.Keys == w.Keys + {"isActive", "deletedAt"} &&
                r["isActive"] == Equals(Bool(true)) && r["deletedAt"] == IsNull &&
                (forall k :: k in w && k != "isActive" && k != "deletedAt" ==> r[k] == w[k])
    {
      if userContext.IsAdmin() || userContext.IsEditor() then w else w + VisibleOnly
    }
  }

  /**
   * The callers the filter lets see inactive and deleted categories are exactly those the response
   * serializer gives the 'editor' group, so staff fields and staff rows go to the same users.
   */
  lemma StaffFilterAgreesWithSerializer(s: CategoriesService)
    ensures s.userContext.IsAdmin() || s.userContext.IsEditor() <==>
              EditorGroup in RoleSerializer.ResponseGroups(s.userContext.user)
  {
    var highest := ResolveHighestRole(Identity.ClaimedRoles(s.userContext.user));
    if highest.Some? {
      RoleGroupsMembership(highest.value);
    }
  }

  /** Filtering twice is filtering once. */
  lemma VisibilityFilterIdempotent(s: CategoriesService, w: Where)
    ensures s.ApplyVisibilityFilter(s.ApplyVisibilityFilter(w)) == s.ApplyVisibilityFilter(w)
  {
  }

  /**
   * For a caller who is neither admin nor editor, a row passes the filtered `where` exactly when it is
   * active, not soft-deleted, and passes the caller's other conditions.
   */
  lemma FilteredFindSeesOnlyUsableRows(s: CategoriesService, w: Where, row: Record)
    requires !(s.userContext.IsAdmin() || s.userContext.IsEditor())
    ensures Matches(row, s.ApplyVisibilityFilter(w)) <==>
              Usable(row) && Matches(row, w - {"isActive", "deletedAt"})
  {
    var r := s.ApplyVisibilityFilter(w);
    if Matches(row, r) {
      assert Satisfies(Get(row, "isActive"), r["isActive"]);
      assert Satisfies(Get(row, "deletedAt"), r["deletedAt"]);
      forall k | k in w - {"isActive", "deletedAt"}
        ensures Satisfies(Get(row, k), (w - {"isActive", "deletedAt"})[k])
      {
        assert Satisfies(Get(row, k), r[k]);
      }
    }
    if Usable(row) && Matches(row, w - {"isActive", "deletedAt"}) {
      forall k | k in r
        ensures Satisfies(Get(row, k), r[k])
      {
        if k != "isActive" && k != "deletedAt" {
          assert Satisfies(Get(row, k), (w - {"isActive", "deletedAt"})[k]);
        }
      }
    }
  }
}
