/**
 * BaseCrudService over a map-backed repository. Virtual dispatch of the three hooks the
 * subclasses may override is modelled by a record of functions fixed at construction.
 */
module Crud {
  import opened Wrappers
  import opened PlainValues

  const ResourceNotFound := "Resource not found"

  /** One column condition of a find's `where` object: a value to equal, or `IsNull()`. */
  datatype Constraint = Equals(expected: Value) | IsNull

  /** A `where` object; a property whose value is `undefined` is absent, so it constrains nothing. */
  type Where = map<string, Constraint>

  predicate Satisfies(v: Option<Value>, c: Constraint) {
    match c
    case Equals(x) => v == Some(x)
    case IsNull => v.None? || v == Some(Null)
  }

  predicate Matches(r: Record, w: Where) {
    forall k :: k in w ==> Satisfies(Get(r, k), w[k])
  }

  /** Finds skip soft-deleted rows: those whose `deletedAt` is set. */
  predicate Live(r: Record) {
    Satisfies(Get(r, "deletedAt"), IsNull)
  }

  /** Some stored row that a find would return for `w`. */
  ghost predicate AnyMatch(rows: map<string, Record>, w: Where) {
    exists id :: id in rows && Live(rows[id]) && Matches(rows[id], w)
  }

  /** Every row is stored under its own primary key. */
  predicate KeyedById(rows: map<string, Record>) {
    forall id :: id in rows ==> Get(rows[id], "id") == Some(Str(id))
  }

  /** The row is active and not soft-deleted. */
  predicate Usable(r: Record) {
    Get(r, "isActive") == Some(Bool(true)) && Live(r)
  }

  /**
   * `{ id, isActive: true, deletedAt: IsNull() }`, the `where` the services use to check a referenced
   * row; an undefined `id` drops its property, so then only the other two conditions remain.
   */
  function ReferenceWhere(id: Option<Value>): (w: Where)
    ensures "id" in w <==> id.Some?
    ensures id.Some? ==> w["id"] == Equals(id.value)
    ensures forall r :: Matches(r, w) <==> Usable(r) && (id.Some? ==> Get(r, "id") == id)
  {
    var base := map["isActive" := Equals(Bool(true)), "deletedAt" := IsNull];
    if id.Some? then base["id" := Equals(id.value)] else base
  }

  /** On a store keyed by id, the reference check for `id` finds exactly the stored row, if it is usable. */
  lemma ReferenceCheckFindsTheRow(rows: map<string, Record>, id: string)
    requires KeyedById(rows)
    ensures AnyMatch(rows, ReferenceWhere(Some(Str(id)))) <==> id in rows && Usable(rows[id])
  {
    if AnyMatch(rows, ReferenceWhere(Some(Str(id)))) {
      var k :| k in rows && Live(rows[k]) && Matches(rows[k], ReferenceWhere(Some(Str(id))));
      assert Get(rows[k], "id") == Some(Str(k));
      assert Str(k) == Str(id);
    }
    if id in rows && Usable(rows[id]) {
      assert Matches(rows[id], ReferenceWhere(Some(Str(id))));
    }
  }

  /** With the reference undefined, the check passes as soon as any usable row exists. */
  lemma UndefinedReferenceMatchesAnyUsable(rows: map<string, Record>)
    ensures AnyMatch(rows, ReferenceWhere(None)) <==> exists id :: id in rows && Usable(rows[id])
  {
    if exists id :: id in rows && Usable(rows[id]) {
      var id :| id in rows && Usable(rows[id]);
      assert Matches(rows[id], ReferenceWhere(None));
    }
  }

  /** `Object.assign(entity, dto)`: every key of the dto overwrites, every other key is kept. */
  function Assign(entity: Record, dto: Record): (r: Record)
    ensures r.Keys == entity.Keys + dto.Keys
    ensures forall k :: k in dto ==> r[k] == dto[k]
    ensures forall k :: k in entity && k !in dto ==> r[k] == entity[k]
  {
    entity + dto
  }

  /**
   * The overridable hooks. `beforeUpdate` returns the entity as the hook leaves it, since the
   * source's hook mutates the entity in place; `now` stands for `new Date()` inside the hook.
   */
  datatype Hooks = Hooks(
    beforeCreate: Record -> Outcome,
    beforeUpdate: (Record, Record, Time) -> Result<Record>,
    beforeDelete: Record -> Outcome)

  ghost predicate NoCreateHook(h: Hooks) {
    forall dto :: h.beforeCreate(dto) == Pass
  }

  ghost predicate NoUpdateHook(h: Hooks) {
    forall dto, entity, now :: h.beforeUpdate(dto, entity, now) == Ok(entity)
  }

  ghost predicate NoDeleteHook(h: Hooks) {
    forall entity :: h.beforeDelete(entity) == Pass
  }

  /** A successful `beforeUpdate` leaves the entity's primary key as it found it. */
  ghost predicate UpdateHookKeepsId(h: Hooks) {
    forall dto, entity, now :: h.beforeUpdate(dto, entity, now).Ok? ==>
      Get(h.beforeUpdate(dto, entity, now).value, "id") == Get(entity, "id")
  }

  /** Without an update hook, the key is trivially kept. */
  lemma NoUpdateHookKeepsId(h: Hooks)
    requires NoUpdateHook(h)
    ensures UpdateHookKeepsId(h)
  {
  }

  /** The base class's hooks do nothing. */
  function DefaultHooks(): (h: Hooks)
    ensures NoCreateHook(h) && NoUpdateHook(h) && NoDeleteHook(h)
  {
    Hooks(dto => Pass, (dto, entity, now) => Ok(entity), entity => Pass)
  }

  /** `findOneBy({ id })`: the stored row unless it is missing or soft-deleted. */
  function Found(rows: map<string, Record>, id: string): (r: Result<Record>)
    ensures r.Ok? <==> id in rows && Live(rows[id])
    ensures r.Ok? ==> r.value == rows[id]
    ensures r.Err? ==> r.error == NotFound(ResourceNotFound)
  {
    if id in rows && Live(rows[id]) then Ok(rows[id]) else Err(NotFound(ResourceNotFound))
  }

  /** What `update(id, dto)` returns: find, run the hook on the stored entity, then merge the dto. */
  function UpdateOutcome(h: Hooks, rows: map<string, Record>, id: string, dto: Record, now: Time): (r: Result<Record>)
    ensures Found(rows, id).Err? ==> r == Err(NotFound(ResourceNotFound))
    ensures Found(rows, id).Ok? && h.beforeUpdate(dto, rows[id], now).Err? ==>
              r == Err(h.beforeUpdate(dto, rows[id], now).error)
    ensures r.Ok? ==> Found(rows, id).Ok? && h.beforeUpdate(dto, rows[id], now).Ok?
  {
    var found :- Found(rows, id);
    var hooked :- h.beforeUpdate(dto, found, now);
    Ok(Assign(hooked, dto))
  }

  /** What `remove(id)` does: find, then ask the hook. */
  function RemoveOutcome(h: Hooks, rows: map<string, Record>, id: string): (r: Outcome)
    ensures Found(rows, id).Err? ==> r == Fail(NotFound(ResourceNotFound))
    ensures Found(rows, id).Ok? ==> r == h.beforeDelete(rows[id])
  {
    match Found(rows, id)
    case Err(e) => Fail(e)
    case Ok(entity) => h.beforeDelete(entity)
  }

  /** Without an update hook, an update is NotFound or the plain merge of the dto into the stored row. */
  lemma PlainUpdateIsMerge(h: Hooks, rows: map<string, Record>, id: string, dto: Record, now: Time)
    requires NoUpdateHook(h)
    ensures Found(rows, id).Err? ==> UpdateOutcome(h, rows, id, dto, now) == Err(NotFound(ResourceNotFound))
    ensures Found(rows, id).Ok? ==> UpdateOutcome(h, rows, id, dto, now) == Ok(Assign(rows[id], dto))
  {
    if Found(rows, id).Ok? {
      assert h.beforeUpdate(dto, rows[id], now) == Ok(rows[id]);
    }
  }

  /** A successful update keeps the keys the hook left and the dto did not name, and writes every dto key. */
  lemma UpdateOverwritesOnlyDtoKeys(h: Hooks, rows: map<string, Record>, id: string, dto: Record, now: Time)
    requires UpdateOutcome(h, rows, id, dto, now).Ok?
    ensures var hooked := h.beforeUpdate(dto, rows[id], now).value;
            var r := UpdateOutcome(h, rows, id, dto, now).value;
            r.Keys == hooked.Keys + dto.Keys &&
            (forall k :: k in dto ==> r[k] == dto[k]) &&
            (forall k :: k in hooked && k !in dto ==> r[k] == hooked[k])
  {
  }

  /** The persistence layer behind one entity type. */
  class Repository {
    var rows: map<string, Record>
    /** Column defaults the database supplies on insert for properties the entity leaves undefined. */
    const defaults: Record
    /** The entity's `@BeforeInsert` listener; `now` stands for `new Date()` inside it. */
    const beforeInsert: (Record, Time) -> Record

    constructor (defaults: Record, beforeInsert: (Record, Time) -> Record)
      ensures rows == map[]
      ensures this.defaults == defaults
      ensures this.beforeInsert == beforeInsert
    {
      rows := map[];
      this.defaults := defaults;
      this.beforeInsert := beforeInsert;
    }

    /** Every row is stored under its own primary key. */
    predicate Valid()
      reads this
    {
      KeyedById(rows)
    }

    /** The row `save` writes for a new entity: listener first, then defaults, then the generated key. */
    function Inserted(entity: Record, freshId: string, now: Time): (r: Record)
      ensures Get(r, "id") == Some(Str(freshId))
      ensures r.Keys == defaults.Keys + beforeInsert(entity, now).Keys + {"id"}
      ensures forall k :: k in beforeInsert(entity, now) && k != "id" ==> r[k] == beforeInsert(entity, now)[k]
      ensures forall k :: k in defaults && k !in beforeInsert(entity, now) && k != "id" ==> r[k] == defaults[k]
    {
      defaults + beforeInsert(entity, now) + map["id" := Str(freshId)]
    }

    /** `findOne({ where })`: some live row matching every condition, or nothing; changes nothing. */
    method FindOneWhere(w: Where) returns (r: Option<Record>)
      ensures r.Some? <==> AnyMatch(rows, w)
      ensures r.Some? ==> Live(r.value) && Matches(r.value, w) && r.value in rows.Values
    {
      if id :| id in rows && Live(rows[id]) && Matches(rows[id], w) {
        r := Some(rows[id]);
      } else {
        r := None;
      }
    }

    /** `save` of a new entity under a freshly generated key. */
    method Insert(entity: Record, freshId: string, now: Time) returns (saved: Record)
      modifies this
      ensures saved == Inserted(entity, freshId, now)
      ensures rows == old(rows)[freshId := saved]
      ensures old(Valid()) ==> Valid()
    {
      saved := Inserted(entity, freshId, now);
      rows := rows[freshId := saved];
    }

    /** `save` of an entity that is already stored. */
    method Put(id: string, entity: Record)
      modifies this
      ensures rows == old(rows)[id := entity]
      ensures old(Valid()) && Get(entity, "id") == Some(Str(id)) ==> Valid()
    {
      rows := rows[id := entity];
    }

    /** `remove(entity)`: a hard delete. */
    method Delete(id: string)
      modifies this
      ensures rows == old(rows) - {id}
      ensures old(Valid()) ==> Valid()
    {
      rows := rows - {id};
    }
  }

  /** BaseCrudService: `create`, `findOne`, `update` and `remove` over one repository. */
  class CrudService {
    const repository: Repository
    const hooks: Hooks

    constructor (repository: Repository, hooks: Hooks)
      ensures this.repository == repository
      ensures this.hooks == hooks
    {
      this.repository := repository;
      this.hooks := hooks;
    }

    /** A throwing `beforeCreate` aborts before anything is written; otherwise the dto is saved. */
    method Create(dto: Record, freshId: string, now: Time) returns (r: Result<Record>)
      modifies repository
      ensures hooks.beforeCreate(dto).Fail? ==>
                r == Err(hooks.beforeCreate(dto).error) && repository.rows == old(repository.rows)
      ensures hooks.beforeCreate(dto).Pass? ==>
                r == Ok(repository.Inserted(dto, freshId, now)) &&
                repository.rows == old(repository.rows)[freshId := r.value]
      ensures old(repository.Valid()) ==> repository.Valid()
    {
      var hook := hooks.beforeCreate(dto);
      if hook.Fail? {
        return Err(hook.error);
      }
      var saved := repository.Insert(dto, freshId, now);
      return Ok(saved);
    }

    /** `findOne`: NotFound 'Resource not found' for a missing or soft-deleted id; changes nothing. */
    method FindOne(id: string) returns (r: Result<Record>)
      ensures r == Found(repository.rows, id)
    {
      if id in repository.rows && Live(repository.rows[id]) {
        return Ok(repository.rows[id]);
      }
      return Err(NotFound(ResourceNotFound));
    }

    /**
     * `update`: the store changes only when the outcome is a success, and then only at `id`. A dto
     * without `id` and a hook that keeps the key leave every row stored under its own key.
     */
    method Update(id: string, dto: Record, now: Time) returns (r: Result<Record>)
      modifies repository
      ensures r == UpdateOutcome(hooks, old(repository.rows), id, dto, now)
      ensures r.Ok? ==> repository.rows == old(repository.rows)[id := r.value]
      ensures r.Err? ==> repository.rows == old(repository.rows)
      ensures old(repository.Valid()) && "id" !in dto && UpdateHookKeepsId(hooks) ==> repository.Valid()
    {
      var found := FindOne(id);
      if found.Err? {
        return Err(found.error);
      }
      var hooked := hooks.beforeUpdate(dto, found.value, now);
      if hooked.Err? {
        return Err(hooked.error);
      }
      var merged := Assign(hooked.value, dto);
      repository.Put(id, merged);
      return Ok(merged);
    }

    /** `remove`: the hook only sees a row that exists; on success exactly that id is gone. */
    method Remove(id: string) returns (r: Outcome)
      modifies repository
      ensures r == RemoveOutcome(hooks, old(repository.rows), id)
      ensures r.Pass? ==> repository.rows == old(repository.rows) - {id}
      ensures r.Fail? ==> repository.rows == old(repository.rows)
      ensures old(repository.Valid()) ==> repository.Valid()
    {
      var found := FindOne(id);
      if found.Err? {
        return Fail(found.error);
      }
      var hook := hooks.beforeDelete(found.value);
      if hook.Fail? {
        return hook;
      }
      repository.Delete(id);
      return Pass;
    }
  }
}
