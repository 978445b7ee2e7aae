/**
 * Episodes: the publication rule of the Episode entity, and EpisodesService, which checks the
 * referenced program before writing and publishes through its `beforeUpdate` hook.
 */
module Episodes {
  import opened Wrappers
  import opened PlainValues
  import opened Crud

  datatype EpisodeStatus = Draft | Published | Archived

  datatype EpisodeLanguage = Arabic | English | Both

  /** The enum's column value; reading it back from a row's `status` gives the same status. */
  function StatusName(s: EpisodeStatus): (name: string)
    ensures name in {"draft", "published", "archived"}
    ensures StatusOf(map["status" := Str(name)]) == s
  {
    match s
    case Draft => "draft"
    case Published => "published"
    case Archived => "archived"
  }

  lemma StatusNameInjective(a: EpisodeStatus, b: EpisodeStatus)
    ensures StatusName(a) == StatusName(b) ==> a == b
  {
  }

  /** The two columns the publication rule governs; `publishedAt` is `None` while unset. */
  datatype PublicationState = PublicationState(status: EpisodeStatus, publishedAt: Option<Time>)

  /** `publish()`: a published episode is left alone; any other becomes published at `now`. */
  function PublishRule(s: PublicationState, now: Time): (t: PublicationState)
    ensures t.status == Published
    ensures s.status == Published ==> t == s
    ensures (s.status == Published ==> s.publishedAt.Some?) ==> t.publishedAt.Some?
    ensures s.status != Published ==> t.publishedAt == Some(now)
  {
    if s.status == Published then s else PublicationState(Published, Some(now))
  }

  /** `setPublishedAtOnCreate()`: stamps a published episode that has no publication time yet. */
  function OnCreateRule(s: PublicationState, now: Time): (t: PublicationState)
    ensures t.status == s.status
    ensures s.publishedAt.Some? ==> t == s
    ensures s.status != Published ==> t == s
    ensures t.status == Published ==> t.publishedAt.Some?
  {
    if s.status == Published && s.publishedAt.None? then s.(publishedAt := Some(now)) else s
  }

  /** Publishing twice, at any two times, is publishing once. */
  lemma PublishIdempotent(s: PublicationState, now: Time, later: Time)
    ensures PublishRule(PublishRule(s, now), later) == PublishRule(s, now)
  {
  }

  /** The Episode entity; `program` holds the referenced program's id. */
  class Episode {
    var id: string
    var program: string
    var titleAr: string
    var titleEn: string
    var descriptionAr: Option<string>
    var descriptionEn: Option<string>
    var mediaUrl: string
    var language: EpisodeLanguage
    var status: EpisodeStatus
    var publishedAt: Option<Time>
    var duration: Option<int>

    /** A new entity takes the column default DRAFT and no publication time. */
    constructor (id: string, program: string, titleAr: string, titleEn: string, mediaUrl: string,
                 language: EpisodeLanguage)
      ensures this.id == id && this.program == program
      ensures this.titleAr == titleAr && this.titleEn == titleEn
      ensures descriptionAr.None? && descriptionEn.None? && duration.None?
      ensures this.mediaUrl == mediaUrl && this.language == language
      ensures status == Draft && publishedAt.None?
    {
      this.id := id;
      this.program := program;
      this.titleAr := titleAr;
      this.titleEn := titleEn;
      descriptionAr := None;
      descriptionEn := None;
      this.mediaUrl := mediaUrl;
      this.language := language;
      status := Draft;
      publishedAt := None;
      duration := None;
    }

    function State(): PublicationState
      reads this
    {
      PublicationState(status, publishedAt)
    }

    /** `publish()`: only `status` and `publishedAt` may change, and they follow the rule. */
    method Publish(now: Time)
      modifies this`status, this`publishedAt
      ensures State() == PublishRule(old(State()), now)
    {
      if status == Published {
        return;
      }
      status := Published;
      publishedAt := Some(now);
    }

    /** `setPublishedAtOnCreate()`: only `publishedAt` may change, and it follows the rule. */
    method SetPublishedAtOnCreate(now: Time)
      modifies this`publishedAt
      ensures State() == OnCreateRule(old(State()), now)
    {
      if status == Published && publishedAt.None? {
        publishedAt := Some(now);
      }
    }
  }

  /** Driving the entity: a draft published at t1 and again at t2 keeps t1. */
  method PublishTwice(e: Episode, t1: Time, t2: Time)
    requires e.status == Draft
    modifies e
    ensures e.status == Published && e.publishedAt == Some(t1)
    ensures e.id == old(e.id) && e.titleAr == old(e.titleAr) && e.mediaUrl == old(e.mediaUrl)
  {
    e.Publish(t1);
    e.Publish(t2);
  }

  // ---- The same rule on stored rows, as the service's hooks see them ----

  /** The `status` column of a row; an absent or unknown value is not `published`. */
  function StatusOf(r: Record): (s: EpisodeStatus)
    ensures s == Published <==> Get(r, "status") == Some(Str("published"))
  {
    match Get(r, "status")
    case Some(Str(name)) =>
      if name == "published" then Published else if name == "archived" then Archived else Draft
    case _ => Draft
  }

  function PublishedAtOf(r: Record): (t: Option<Time>)
    ensures t.Some? <==> Get(r, "publishedAt").Some? && Get(r, "publishedAt").value.Date?
  {
    match Get(r, "publishedAt")
    case Some(Date(t)) => Some(t)
    case _ => None
  }

  function StateOf(r: Record): PublicationState {
    PublicationState(StatusOf(r), PublishedAtOf(r))
  }

  /** `publishedAt` holds a date, null, or nothing, as its column type allows. */
  predicate PublishedAtWellTyped(r: Record) {
    Get(r, "publishedAt").None? || Get(r, "publishedAt") == Some(Null) || Get(r, "publishedAt").value.Date?
  }

  /** `publish()` on a row. */
  function PublishRecord(r: Record, now: Time): (p: Record)
    ensures p.Keys <= r.Keys + {"status", "publishedAt"}
    ensures forall k :: k in r && k != "status" && k != "publishedAt" ==> k in p && p[k] == r[k]
  {
    if Get(r, "status") == Some(Str("published")) then r
    else r["status" := Str("published")]["publishedAt" := Date(now)]
  }

  /** `setPublishedAtOnCreate()` on a row; `!this.publishedAt` is a truthiness test. */
  function OnCreateRecord(r: Record, now: Time): (p: Record)
    ensures p.Keys <= r.Keys + {"publishedAt"}
    ensures forall k :: k in r && k != "publishedAt" ==> k in p && p[k] == r[k]
  {
    if Get(r, "status") == Some(Str("published")) && !Truthy(Get(r, "publishedAt")) then
      r["publishedAt" := Date(now)]
    else r
  }

  /** The row form of `publish()` follows the entity's rule. */
  lemma PublishRecordFollowsRule(r: Record, now: Time)
    ensures StateOf(PublishRecord(r, now)) == PublishRule(StateOf(r), now)
  {
    if Get(r, "status") != Some(Str("published")) {
      var p := r["status" := Str("published")]["publishedAt" := Date(now)];
      assert Get(p, "status") == Some(Str("published"));
      assert Get(p, "publishedAt") == Some(Date(now));
    }
  }

  /** On a well-typed row, the row form of `setPublishedAtOnCreate()` follows the entity's rule. */
  lemma OnCreateRecordFollowsRule(r: Record, now: Time)
    requires PublishedAtWellTyped(r)
    ensures StateOf(OnCreateRecord(r, now)) == OnCreateRule(StateOf(r), now)
  {
    if Get(r, "status") == Some(Str("published")) && !Truthy(Get(r, "publishedAt")) {
      var p := r["publishedAt" := Date(now)];
      assert Get(p, "publishedAt") == Some(Date(now));
      assert Get(p, "status") == Get(r, "status");
    }
  }

  /** `beforeUpdate`: publish the stored entity only when the dto sets status PUBLISHED. */
  function BeforeUpdate(dto: Record, entity: Record, now: Time): (e: Record)
    ensures Get(dto, "status") != Some(Str("published")) ==> e == entity
    ensures Get(dto, "status") == Some(Str("published")) ==> e == PublishRecord(entity, now)
  {
    if Get(dto, "status") == Some(Str("published")) then PublishRecord(entity, now) else entity
  }

  function EpisodeHooks(): (h: Hooks)
    ensures NoCreateHook(h) && NoDeleteHook(h)
    ensures forall dto, entity, now :: h.beforeUpdate(dto, entity, now) == Ok(BeforeUpdate(dto, entity, now))
  {
    Hooks(dto => Pass, (dto, entity, now) => Ok(BeforeUpdate(dto, entity, now)), entity => Pass)
  }

  /** The column defaults of an episode row: active, and status DRAFT. */
  const EpisodeDefaults: Record := map["isActive" := Bool(true), "status" := Str(StatusName(Draft))]

  /** The properties a validated create or update body may carry. */
  const EpisodeBodyKeys: set<string> :=
    {"program", "titleAr", "titleEn", "descriptionAr", "descriptionEn", "mediaUrl", "language",
     "status", "duration"}

  /** A published row has a publication time. */
  predicate Stamped(r: Record) {
    Get(r, "status") == Some(Str("published")) ==> Truthy(Get(r, "publishedAt"))
  }

  predicate StampedStore(rows: map<string, Record>) {
    forall id :: id in rows ==> Stamped(rows[id])
  }

  /** Updating to PUBLISHED stores status PUBLISHED and a publication time. */
  lemma PublishingUpdateSetsPublication(rows: map<string, Record>, id: string, dto: Record, now: Time)
    requires dto.Keys <= EpisodeBodyKeys
    requires Get(dto, "status") == Some(Str("published"))
    requires UpdateOutcome(EpisodeHooks(), rows, id, dto, now).Ok?
    requires Stamped(rows[id])
    ensures var r := UpdateOutcome(EpisodeHooks(), rows, id, dto, now).value;
            Get(r, "status") == Some(Str("published")) && Truthy(Get(r, "publishedAt"))
  {
    var hooked := PublishRecord(rows[id], now);
    assert EpisodeHooks().beforeUpdate(dto, rows[id], now) == Ok(hooked);
    assert UpdateOutcome(EpisodeHooks(), rows, id, dto, now).value == Assign(hooked, dto);
    assert "publishedAt" !in dto;
  }

  /** An update of a row that satisfies the publication invariant yields one that does too. */
  lemma UpdateKeepsStamped(rows: map<string, Record>, id: string, dto: Record, now: Time)
    requires dto.Keys <= EpisodeBodyKeys
    requires UpdateOutcome(EpisodeHooks(), rows, id, dto, now).Ok?
    requires Stamped(rows[id])
    ensures Stamped(UpdateOutcome(EpisodeHooks(), rows, id, dto, now).value)
  {
    if Get(dto, "status") == Some(Str("published")) {
      PublishingUpdateSetsPublication(rows, id, dto, now);
    } else {
      OtherUpdateKeepsPublishedAt(rows, id, dto, now);
      assert EpisodeHooks().beforeUpdate(dto, rows[id], now) == Ok(rows[id]);
      var r := UpdateOutcome(EpisodeHooks(), rows, id, dto, now).value;
      assert r == Assign(rows[id], dto);
      if "status" in dto {
        assert Get(r, "status") == Get(dto, "status");
      } else {
        assert Get(r, "status") == Get(rows[id], "status");
      }
    }
  }

  /** Updating with any other status, or none, leaves `publishedAt` as stored. */
  lemma OtherUpdateKeepsPublishedAt(rows: map<string, Record>, id: string, dto: Record, now: Time)
    requires dto.Keys <= EpisodeBodyKeys
    requires Get(dto, "status") != Some(Str("published"))
    requires UpdateOutcome(EpisodeHooks(), rows, id, dto, now).Ok?
    ensures Get(UpdateOutcome(EpisodeHooks(), rows, id, dto, now).value, "publishedAt") == Get(rows[id], "publishedAt")
  {
    assert EpisodeHooks().beforeUpdate(dto, rows[id], now) == Ok(rows[id]);
    assert "publishedAt" !in dto;
  }

  /** Republishing an already published episode keeps its publication time. */
  lemma RepublishKeepsPublishedAt(rows: map<string, Record>, id: string, dto: Record, now: Time)
    requires dto.Keys <= EpisodeBodyKeys
    requires id in rows && Get(rows[id], "status") == Some(Str("published"))
    requires UpdateOutcome(EpisodeHooks(), rows, id, dto, now).Ok?
    ensures Get(UpdateOutcome(EpisodeHooks(), rows, id, dto, now).value, "publishedAt") == Get(rows[id], "publishedAt")
  {
    assert EpisodeHooks().beforeUpdate(dto, rows[id], now) == Ok(BeforeUpdate(dto, rows[id], now));
    assert BeforeUpdate(dto, rows[id], now) == rows[id];
    assert "publishedAt" !in dto;
  }

  /** The publication hook never touches the primary key. */
  lemma EpisodeHookKeepsId(h: Hooks)
    requires forall dto, entity, now :: h.beforeUpdate(dto, entity, now) == Ok(BeforeUpdate(dto, entity, now))
    ensures UpdateHookKeepsId(h)
  {
    forall dto, entity, now | h.beforeUpdate(dto, entity, now).Ok?
      ensures Get(h.beforeUpdate(dto, entity, now).value, "id") == Get(entity, "id")
    {
      assert h.beforeUpdate(dto, entity, now).value == BeforeUpdate(dto, entity, now);
    }
  }

  class EpisodesService {
    const crud: CrudService
    const programRepo: Repository
    /**
     * The message of the program check. The source translates `MESSAGES.ERRORS.PROGRAM_NOT_FOUND`,
     * a key the message table does not define, so the text is whatever translation yields for it.
     */
    const programNotFound: string

    /** `episodeRepo` is the injected `Repository<Episode>`: the entity's column defaults and insert listener. */
    constructor (episodeRepo: Repository, programRepo: Repository, programNotFound: string)
      requires episodeRepo.defaults == EpisodeDefaults
      requires forall r, now :: episodeRepo.beforeInsert(r, now) == OnCreateRecord(r, now)
      ensures crud.repository == episodeRepo
      ensures forall dto, entity, now :: crud.hooks.beforeUpdate(dto, entity, now) == Ok(BeforeUpdate(dto, entity, now))
      ensures NoCreateHook(crud.hooks) && NoDeleteHook(crud.hooks)
      ensures this.programRepo == programRepo && this.programNotFound == programNotFound
    {
      crud := new CrudService(episodeRepo, EpisodeHooks());
      this.programRepo := programRepo;
      this.programNotFound := programNotFound;
    }

    ghost predicate Valid() {
      NoCreateHook(crud.hooks) &&
      (forall dto, entity, now :: crud.hooks.beforeUpdate(dto, entity, now) == Ok(BeforeUpdate(dto, entity, now))) &&
      (forall r, now :: crud.repository.beforeInsert(r, now) == OnCreateRecord(r, now)) &&
      crud.repository.defaults == EpisodeDefaults
    }

    /** `validateProgram`: passes exactly when the program find succeeds; reads, never writes. */
    method ValidateProgram(programId: Option<Value>) returns (r: Outcome)
      ensures r.Pass? <==> AnyMatch(programRepo.rows, ReferenceWhere(programId))
      ensures r.Fail? ==> r.error == BadRequest(programNotFound)
    {
      var found := programRepo.FindOneWhere(ReferenceWhere(programId));
      if found.None? {
        return Fail(BadRequest(programNotFound));
      }
      return Pass;
    }

    /**
     * `create`: the program check comes first and a failed check writes nothing; a created episode
     * sent as PUBLISHED is stored with a publication time.
     */
    method Create(dto: Record, freshId: string, now: Time) returns (r: Result<Record>)
      requires Valid()
      modifies crud.repository
      ensures !AnyMatch(old(programRepo.rows), ReferenceWhere(Get(dto, "program"))) ==>
                r == Err(BadRequest(programNotFound)) &&
                crud.repository.rows == old(crud.repository.rows)
      ensures AnyMatch(old(programRepo.rows), ReferenceWhere(Get(dto, "program"))) ==>
                r == Ok(crud.repository.Inserted(dto, freshId, now)) &&
                crud.repository.rows == old(crud.repository.rows)[freshId := r.value]
      ensures r.Ok? && Get(dto, "status") == Some(Str("published")) ==>
                Get(r.value, "status") == Some(Str("published")) && Truthy(Get(r.value, "publishedAt"))
      ensures old(StampedStore(crud.repository.rows)) && dto.Keys <= EpisodeBodyKeys ==>
                StampedStore(crud.repository.rows)
    {
      var check := ValidateProgram(Get(dto, "program"));
      if check.Fail? {
        return Err(check.error);
      }
      r := crud.Create(dto, freshId, now);
      CreatedPublishedHasTime(dto, freshId, now);
      if dto.Keys <= EpisodeBodyKeys {
        CreatedIsStamped(dto, freshId, now);
      }
    }

    /** The row `create` stores for a PUBLISHED body is published and time-stamped. */
    lemma CreatedPublishedHasTime(dto: Record, freshId: string, now: Time)
      requires Valid()
      ensures Get(dto, "status") == Some(Str("published")) ==>
                var saved := crud.repository.Inserted(dto, freshId, now);
                Get(saved, "status") == Some(Str("published")) && Truthy(Get(saved, "publishedAt"))
    {
      if Get(dto, "status") == Some(Str("published")) {
        var listened := OnCreateRecord(dto, now);
        assert crud.repository.beforeInsert(dto, now) == listened;
        assert Get(listened, "status") == Some(Str("published"));
        assert Truthy(Get(listened, "publishedAt"));
      }
    }

    /** Every row `create` stores from a validated body satisfies the publication invariant. */
    lemma CreatedIsStamped(dto: Record, freshId: string, now: Time)
      requires Valid()
      requires dto.Keys <= EpisodeBodyKeys
      ensures Stamped(crud.repository.Inserted(dto, freshId, now))
    {
      CreatedPublishedHasTime(dto, freshId, now);
      var listened := OnCreateRecord(dto, now);
      assert crud.repository.beforeInsert(dto, now) == listened;
      var saved := crud.repository.Inserted(dto, freshId, now);
      if "status" !in dto {
        assert "status" !in listened;
        assert Get(saved, "status") == Some(Str("draft"));
      }
    }

    /** `update`: a truthy `dto.program` is checked before the episode is looked up. */
    method Update(id: string, dto: Record, now: Time) returns (r: Result<Record>)
      requires Valid()
      modifies crud.repository
      ensures Truthy(Get(dto, "program")) &&
              !AnyMatch(old(programRepo.rows), ReferenceWhere(Get(dto, "program"))) ==>
                r == Err(BadRequest(programNotFound)) &&
                crud.repository.rows == old(crud.repository.rows)
      ensures !(Truthy(Get(dto, "program")) &&
                !AnyMatch(old(programRepo.rows), ReferenceWhere(Get(dto, "program")))) ==>
                r == UpdateOutcome(crud.hooks, old(crud.repository.rows), id, dto, now) &&
                crud.repository.rows == (if r.Ok? then old(crud.repository.rows)[id := r.value]
                                         else old(crud.repository.rows))
      ensures old(StampedStore(crud.repository.rows)) && dto.Keys <= EpisodeBodyKeys ==>
                StampedStore(crud.repository.rows)
      ensures old(crud.repository.Valid()) && dto.Keys <= EpisodeBodyKeys ==> crud.repository.Valid()
    {
      EpisodeHookKeepsId(crud.hooks);
      if Truthy(Get(dto, "program")) {
        var check := ValidateProgram(Get(dto, "program"));
        if check.Fail? {
          return Err(check.error);
        }
      }
      ghost var before := crud.repository.rows;
      assert dto.Keys <= EpisodeBodyKeys ==> "id" !in dto;
      r := crud.Update(id, dto, now);
      if r.Ok? && StampedStore(before) && dto.Keys <= EpisodeBodyKeys {
        UpdateKeepsStamped(before, id, dto, now);
      }
    }
  }
}
