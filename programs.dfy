/**
 * ProgramsService: create and update check the referenced category before delegating to the base
 * CRUD operations. The service reads the reference from `dto.category`, while the request body it
 * receives carries `categoryId`; the `...Corrected` members read `categoryId`.
 */
module Programs {
  import opened Wrappers
  import opened PlainValues
  import opened Crud

  const CategoryNotFound := "errors.CATEGORY_NOT_FOUND"

  /** The properties a validated create or update body may carry (the validation pipe refuses a body carrying any other property with a 400). */
  const ProgramBodyKeys: set<string> :=
    {"titleAr", "titleEn", "type", "descriptionAr", "descriptionEn", "categoryId", "isActive"}

  class ProgramsService {
    const crud: CrudService
    const categoryRepo: Repository
    /** `i18n.t` in the request's language. */
    const translate: string -> string

    constructor (programRepo: Repository, categoryRepo: Repository, translate: string -> string)
      ensures crud.repository == programRepo
      ensures NoCreateHook(crud.hooks) && NoUpdateHook(crud.hooks) && NoDeleteHook(crud.hooks)
      ensures this.categoryRepo == categoryRepo
      ensures this.translate == translate
    {
      crud := new CrudService(programRepo, DefaultHooks());
      this.categoryRepo := categoryRepo;
      this.translate := translate;
    }

    /** The service overrides no hook. */
    ghost predicate Valid() {
      NoCreateHook(crud.hooks) && NoUpdateHook(crud.hooks)
    }

    /** `validateCategory`: passes exactly when the category find succeeds; reads, never writes. */
    method ValidateCategory(categoryId: Option<Value>) returns (r: Outcome)
      ensures r.Pass? <==> AnyMatch(categoryRepo.rows, ReferenceWhere(categoryId))
      ensures r.Fail? ==> r.error == BadRequest(translate(CategoryNotFound))
    {
      var found := categoryRepo.FindOneWhere(ReferenceWhere(categoryId));
      if found.None? {
        return Fail(BadRequest(translate(CategoryNotFound)));
      }
      return Pass;
    }

    /** `create`: the category check of `dto.category` comes first; a failed check writes nothing. */
    method Create(dto: Record, freshId: string, now: Time) returns (r: Result<Record>)
      requires Valid()
      modifies crud.repository
      ensures !AnyMatch(old(categoryRepo.rows), ReferenceWhere(Get(dto, "category"))) ==>
                r == Err(BadRequest(translate(CategoryNotFound))) &&
                crud.repository.rows == old(crud.repository.rows)
      ensures AnyMatch(old(categoryRepo.rows), ReferenceWhere(Get(dto, "category"))) ==>
                r == Ok(crud.repository.Inserted(dto, freshId, now)) &&
                crud.repository.rows == old(crud.repository.rows)[freshId := r.value]
    {
      var check := ValidateCategory(Get(dto, "category"));
      if check.Fail? {
        return Err(check.error);
      }
      r := crud.Create(dto, freshId, now);
    }

    /**
     * `update`: a truthy `dto.category` is checked before the program is looked up, so a bad category
     * on a missing program is a BadRequest; otherwise this is the base update.
     */
    method Update(id: string, dto: Record, now: Time) returns (r: Result<Record>)
      requires Valid()
      modifies crud.repository
      ensures Truthy(Get(dto, "category")) &&
              !AnyMatch(old(categoryRepo.rows), ReferenceWhere(Get(dto, "category"))) ==>
                r == Err(BadRequest(translate(CategoryNotFound))) &&
                crud.repository.rows == old(crud.repository.rows)
      ensures !(Truthy(Get(dto, "category")) &&
                !AnyMatch(old(categoryRepo.rows), ReferenceWhere(Get(dto, "category")))) ==>
                r == UpdateOutcome(crud.hooks, old(crud.repository.rows), id, dto, now) &&
                crud.repository.rows == (if r.Ok? then old(crud.repository.rows)[id := r.value]
                                         else old(crud.repository.rows))
      ensures old(crud.repository.Valid()) && "id" !in dto ==> crud.repository.Valid()
    {
      NoUpdateHookKeepsId(crud.hooks);
      if Truthy(Get(dto, "category")) {
        var check := ValidateCategory(Get(dto, "category"));
        if check.Fail? {
          return Err(check.error);
        }
      }
      r := crud.Update(id, dto, now);
    }

    /** `create` as evidently intended: the category named by `dto.categoryId` is checked. */
    method CreateCorrected(dto: Record, freshId: string, now: Time) returns (r: Result<Record>)
      requires Valid()
      modifies crud.repository
      ensures !AnyMatch(old(categoryRepo.rows), ReferenceWhere(Get(dto, "categoryId"))) ==>
                r == Err(BadRequest(translate(CategoryNotFound))) &&
                crud.repository.rows == old(crud.repository.rows)
      ensures AnyMatch(old(categoryRepo.rows), ReferenceWhere(Get(dto, "categoryId"))) ==>
                r == Ok(crud.repository.Inserted(dto, freshId, now)) &&
                crud.repository.rows == old(crud.repository.rows)[freshId := r.value]
    {
      var check := ValidateCategory(Get(dto, "categoryId"));
      if check.Fail? {
        return Err(check.error);
      }
      r := crud.Create(dto, freshId, now);
    }

    /** `update` as evidently intended: a truthy `dto.categoryId` is checked first. */
    method UpdateCorrected(id: string, dto: Record, now: Time) returns (r: Result<Record>)
      requires Valid()
      modifies crud.repository
      ensures Truthy(Get(dto, "categoryId")) &&
              !AnyMatch(old(categoryRepo.rows), ReferenceWhere(Get(dto, "categoryId"))) ==>
                r == Err(BadRequest(translate(CategoryNotFound))) &&
                crud.repository.rows == old(crud.repository.rows)
      ensures !(Truthy(Get(dto, "categoryId")) &&
                !AnyMatch(old(categoryRepo.rows), ReferenceWhere(Get(dto, "categoryId")))) ==>
                r == UpdateOutcome(crud.hooks, old(crud.repository.rows), id, dto, now) &&
                crud.repository.rows == (if r.Ok? then old(crud.repository.rows)[id := r.value]
                                         else old(crud.repository.rows))
      ensures old(crud.repository.Valid()) && "id" !in dto ==> crud.repository.Valid()
    {
      NoUpdateHookKeepsId(crud.hooks);
      if Truthy(Get(dto, "categoryId")) {
        var check := ValidateCategory(Get(dto, "categoryId"));
        if check.Fail? {
          return Err(check.error);
        }
      }
      r := crud.Update(id, dto, now);
    }
  }

  /**
   * As written, a validated body never has a `category` property, so the check `create` runs is the
   * one with the reference dropped: it passes whenever any usable category exists, and `update`
   * never checks at all.
   */
  lemma ValidatedBodySkipsCategoryCheck(categories: map<string, Record>, dto: Record)
    requires dto.Keys <= ProgramBodyKeys
    ensures AnyMatch(categories, ReferenceWhere(Get(dto, "category"))) <==>
              exists id :: id in categories && Usable(categories[id])
    ensures !Truthy(Get(dto, "category"))
  {
    assert "category" !in dto;
    UndefinedReferenceMatchesAnyUsable(categories);
  }

  /**
   * A concrete body naming a stored but inactive category, which `create` as written accepts and the
   * corrected check refuses. (A body naming no stored category gets past the check too, but the
   * foreign key on `categoryId` then refuses the insert.)
   */
  lemma InactiveCategoryAccepted()
    ensures var categories := map["c1" := map["id" := Str("c1"), "isActive" := Bool(true)],
                                  "c2" := map["id" := Str("c2"), "isActive" := Bool(false)]];
            var dto := map["titleAr" := Str("t"), "categoryId" := Str("c2"), "isActive" := Bool(true)];
            KeyedById(categories) && dto.Keys <= ProgramBodyKeys && "c2" in categories &&
            AnyMatch(categories, ReferenceWhere(Get(dto, "category"))) &&
            !AnyMatch(categories, ReferenceWhere(Get(dto, "categoryId")))
  {
    var categories := map["c1" := map["id" := Str("c1"), "isActive" := Bool(true)],
                          "c2" := map["id" := Str("c2"), "isActive" := Bool(false)]];
    var dto := map["titleAr" := Str("t"), "categoryId" := Str("c2"), "isActive" := Bool(true)];
    assert Usable(categories["c1"]);
    assert Matches(categories["c1"], ReferenceWhere(Get(dto, "category")));
    ReferenceCheckFindsTheRow(categories, "c2");
  }

  /** The corrected check passes exactly when the named category is stored, active and not deleted. */
  lemma CorrectedCheckFindsTheCategory(categories: map<string, Record>, dto: Record, categoryId: string)
    requires KeyedById(categories)
    requires Get(dto, "categoryId") == Some(Str(categoryId))
    ensures AnyMatch(categories, ReferenceWhere(Get(dto, "categoryId"))) <==>
              categoryId in categories && Usable(categories[categoryId])
  {
    ReferenceCheckFindsTheRow(categories, categoryId);
  }
}
