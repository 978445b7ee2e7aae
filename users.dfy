/**
 * Users: the User entity and UsersService. A stored user is a row value; every load builds a fresh
 * entity object from it, so changing a loaded entity changes nothing stored until it is saved.
 */
module Users {
  import opened Wrappers
  import opened Roles
  import opened Identity
  import opened PlainValues

  const UserAlreadyExists := "errors.USER_ALREADY_EXISTS"
  const UserNotFound := "errors.USER_NOT_FOUND"
  /** The database's rejection of a second row with the same email (the column is unique). */
  const UniqueEmailViolation := "duplicate key value violates unique constraint on email"

  /** bcrypt's `hash(·, 10)` and `compare`, as functions. */
  datatype Bcrypt = Bcrypt(hash: string -> string, compare: (string, string) -> bool)

  /** The one property of bcrypt the model relies on: a password matches its own hash. */
  ghost predicate Sound(b: Bcrypt) {
    forall p :: b.compare(p, b.hash(p))
  }

  /** A stored user. `deletedAt` is set once the row is soft-deleted. */
  datatype UserRow = UserRow(
    id: string,
    name: string,
    email: string,
    password: string,
    roles: seq<Role>,
    isActive: bool,
    deletedAt: Option<Time>)

  /** `{}`: a profile with no field set. */
  const EmptyProfile := ProfileSnapshot(None, None, None, None)

  /** `CreateUserInput`, with the optional nested profile of the create request. */
  datatype CreateUserInput = CreateUserInput(
    name: string,
    email: string,
    password: string,
    role: Option<Role>,
    profile: Option<ProfileSnapshot>)

  /** `dto.role ?? VIEWER`. */
  function EffectiveRole(input: CreateUserInput): (r: Role)
    ensures input.role.None? ==> r == Viewer
    ensures input.role.Some? ==> r == input.role.value
  {
    if input.role.Some? then input.role.value else Viewer
  }

  /** The User entity. */
  class User {
    var id: string
    var name: string
    var email: string
    var password: string
    var roles: seq<Role>
    var isActive: bool
    var deletedAt: Option<Time>
    /**
     * `user.profile`. The entity declares no profile relation, so this is a plain property: set on
     * the object `create` returns, never stored, and absent on every entity loaded from the store.
     */
    var profile: Option<ProfileSnapshot>

    /** An entity loaded from a stored row. */
    constructor Load(row: UserRow)
      ensures Row() == row && profile.None?
    {
      id := row.id;
      name := row.name;
      email := row.email;
      password := row.password;
      roles := row.roles;
      isActive := row.isActive;
      deletedAt := row.deletedAt;
      profile := None;
    }

    /** What `save` writes for this entity. */
    function Row(): UserRow
      reads this
    {
      UserRow(id, name, email, password, roles, isActive, deletedAt)
    }

    /**
     * `isAdmin()`, `isEditor()`, `isViewer()`: membership in the role list, each on its own. Each
     * agrees with the test the guards make on the role values a token built for this user carries.
     */
    function IsAdmin(): (admin: bool)
      reads this
      ensures admin <==> RoleName(Admin) in RoleNames(roles)
    {
      RoleNamesNameHeldRoles(roles, Admin);
      Admin in roles
    }

    function IsEditor(): (editor: bool)
      reads this
      ensures editor <==> RoleName(Editor) in RoleNames(roles)
    {
      RoleNamesNameHeldRoles(roles, Editor);
      Editor in roles
    }

    function IsViewer(): (viewer: bool)
      reads this
      ensures viewer <==> RoleName(Viewer) in RoleNames(roles)
    {
      RoleNamesNameHeldRoles(roles, Viewer);
      Viewer in roles
    }

    /** `verifyPassword(plain)`: bcrypt's verdict on the stored hash. */
    function VerifyPassword(b: Bcrypt, plain: string): (ok: bool)
      reads this
      ensures Sound(b) && password == b.hash(plain) ==> ok
    {
      b.compare(plain, password)
    }

    /** `setPassword(p)`: only the password changes, to the hash of `p`. */
    method SetPassword(b: Bcrypt, p: string)
      modifies this`password
      ensures password == b.hash(p)
    {
      password := b.hash(p);
    }

    /** `hashPassword()`, the insert listener: rehashes a non-empty password, leaves an empty one. */
    method HashPassword(b: Bcrypt)
      modifies this`password
      ensures old(password) != "" ==> password == b.hash(old(password))
      ensures old(password) == "" ==> password == old(password)
    {
      if password != "" {
        SetPassword(b, password);
      }
    }
  }

  /** After `setPassword(p)`, `verifyPassword(p)` holds. */
  method SetThenVerify(u: User, b: Bcrypt, p: string) returns (ok: bool)
    requires Sound(b)
    modifies u`password
    ensures ok
    ensures u.password == b.hash(p)
  {
    u.SetPassword(b, p);
    ok := u.VerifyPassword(b, p);
  }

  /** The role predicates do not exclude each other: an admin who is also a viewer satisfies both. */
  lemma RolePredicatesIndependent(u: User)
    requires u.roles == [Admin, Viewer]
    ensures u.IsAdmin() && u.IsViewer() && !u.IsEditor()
  {
  }

  /** A find's filters: none, or `{ isActive: true, deletedAt: IsNull() }`. Soft-deleted rows are always skipped. */
  predicate Findable(row: UserRow, activeOnly: bool) {
    row.deletedAt.None? && (activeOnly ==> row.isActive)
  }

  predicate EmailsUnique(rows: map<string, UserRow>) {
    forall a, b :: a in rows && b in rows && rows[a].email == rows[b].email ==> a == b
  }

  predicate KeyedById(rows: map<string, UserRow>) {
    forall id :: id in rows ==> rows[id].id == id
  }

  /** The row `create` saves; the insert listener has hashed a non-empty password. */
  function CreatedRow(input: CreateUserInput, freshId: string, b: Bcrypt): (row: UserRow)
    ensures row.id == freshId && row.name == input.name && row.email == input.email
    ensures row.roles == [EffectiveRole(input)]
    ensures input.password != "" ==> row.password == b.hash(input.password)
    ensures input.password == "" ==> row.password == ""
    ensures row.isActive && row.deletedAt.None?
  {
    UserRow(freshId, input.name, input.email,
            if input.password != "" then b.hash(input.password) else input.password,
            [EffectiveRole(input)], true, None)
  }

  /** Inserting a row whose email no stored row has keeps emails unique. */
  lemma InsertKeepsEmailsUnique(rows: map<string, UserRow>, freshId: string, row: UserRow)
    requires EmailsUnique(rows)
    requires forall id :: id in rows ==> rows[id].email != row.email
    ensures EmailsUnique(rows[freshId := row])
  {
  }

  class UsersService {
    var rows: map<string, UserRow>
    const bcrypt: Bcrypt
    /** `i18n.t` in the request's language. */
    const translate: string -> string

    constructor (bcrypt: Bcrypt, translate: string -> string)
      ensures rows == map[] && this.bcrypt == bcrypt && this.translate == translate
    {
      rows := map[];
      this.bcrypt := bcrypt;
      this.translate := translate;
    }

    /** Rows are stored under their ids and no two share an email. */
    predicate Valid()
      reads this
    {
      KeyedById(rows) && EmailsUnique(rows)
    }

    /** `findById(id, filters)`: a missing user is a BadRequest USER_NOT_FOUND, not a NotFound. */
    method FindById(id: string, activeOnly: bool) returns (r: Result<User>)
      ensures r.Err? <==> !(exists k :: k in rows && rows[k].id == id && Findable(rows[k], activeOnly))
      ensures r.Err? ==> r.error == BadRequest(translate(UserNotFound))
      ensures r.Ok? ==> fresh(r.value) && r.value.profile.None? && r.value.Row() in rows.Values &&
                        r.value.id == id && Findable(r.value.Row(), activeOnly)
    {
      if k :| k in rows && rows[k].id == id && Findable(rows[k], activeOnly) {
        var u := new User.Load(rows[k]);
        return Ok(u);
      }
      return Err(BadRequest(translate(UserNotFound)));
    }

    /** `findUserByEmail(email, filters)`: a fresh entity for some findable row with that email, or null. */
    method FindUserByEmail(email: string, activeOnly: bool) returns (r: Option<User>)
      ensures r.None? <==> !(exists k :: k in rows && rows[k].email == email && Findable(rows[k], activeOnly))
      ensures r.Some? ==> fresh(r.value) && r.value.profile.None? && r.value.Row() in rows.Values &&
                          r.value.email == email && Findable(r.value.Row(), activeOnly)
    {
      if k :| k in rows && rows[k].email == email && Findable(rows[k], activeOnly) {
        var u := new User.Load(rows[k]);
        return Some(u);
      }
      return None;
    }

    /** `findActiveUserByEmail(email)`: only an active, not soft-deleted user is returned. */
    method FindActiveUserByEmail(email: string) returns (r: Option<User>)
      ensures r.None? <==> !(exists k :: k in rows && rows[k].email == email && Findable(rows[k], true))
      ensures r.Some? ==> fresh(r.value) && r.value.profile.None? && r.value.Row() in rows.Values &&
                          r.value.email == email && r.value.isActive && r.value.deletedAt.None?
    {
      r := FindUserByEmail(email, true);
    }

    /**
     * `create(dto)`: an email some live user has is a BadRequest USER_ALREADY_EXISTS and writes
     * nothing; otherwise one row with the single role `dto.role ?? VIEWER` is saved, and the returned
     * entity carries the request's profile, or an empty one.
     */
    method Create(input: CreateUserInput, freshId: string) returns (r: Result<User>)
      modifies this
      ensures (exists k :: k in old(rows) && old(rows)[k].email == input.email && Findable(old(rows)[k], false)) ==>
                r == Err(BadRequest(translate(UserAlreadyExists))) && rows == old(rows)
      ensures r.Err? ==> rows == old(rows)
      ensures r.Ok? ==> fresh(r.value) && r.value.Row() == CreatedRow(input, freshId, bcrypt) &&
                        rows == old(rows)[freshId := r.value.Row()] &&
                        r.value.profile == Some(if input.profile.Some? then input.profile.value else EmptyProfile)
      ensures r.Ok? <==> forall k :: k in old(rows) ==> old(rows)[k].email != input.email
      ensures old(Valid()) && freshId !in old(rows) ==> Valid()
    {
      var role := EffectiveRole(input);
      var existing := FindUserByEmail(input.email, false);
      if existing.Some? {
        return Err(BadRequest(translate(UserAlreadyExists)));
      }
      var profile := if input.profile.Some? then input.profile.value else EmptyProfile;
      var user := new User.Load(UserRow(freshId, input.name, input.email, input.password, [role], true, None));
      user.profile := Some(profile);
      user.HashPassword(bcrypt);
      if k :| k in rows && rows[k].email == input.email {
        // a soft-deleted user still holds the email, and the unique column refuses the insert
        return Err(Failure(UniqueEmailViolation));
      }
      rows := rows[freshId := user.Row()];
      if old(Valid()) && freshId !in old(rows) {
        InsertKeepsEmailsUnique(old(rows), freshId, user.Row());
      }
      return Ok(user);
    }

    /** `createAdmin`, `createEditor`, `createViewer`: `create` with the role forced. */
    method CreateAdmin(input: CreateUserInput, freshId: string) returns (r: Result<User>)
      modifies this
      ensures r.Ok? ==> fresh(r.value) && r.value.roles == [Admin] &&
                        rows == old(rows)[freshId := r.value.Row()]
      ensures r.Err? ==> rows == old(rows)
      ensures r.Ok? <==> forall k :: k in old(rows) ==> old(rows)[k].email != input.email
      ensures old(Valid()) && freshId !in old(rows) ==> Valid()
    {
      r := Create(input.(role := Some(Admin)), freshId);
    }

    method CreateEditor(input: CreateUserInput, freshId: string) returns (r: Result<User>)
      modifies this
      ensures r.Ok? ==> fresh(r.value) && r.value.roles == [Editor] &&
                        rows == old(rows)[freshId := r.value.Row()]
      ensures r.Err? ==> rows == old(rows)
      ensures r.Ok? <==> forall k :: k in old(rows) ==> old(rows)[k].email != input.email
      ensures old(Valid()) && freshId !in old(rows) ==> Valid()
    {
      r := Create(input.(role := Some(Editor)), freshId);
    }

    method CreateViewer(input: CreateUserInput, freshId: string) returns (r: Result<User>)
      modifies this
      ensures r.Ok? ==> fresh(r.value) && r.value.roles == [Viewer] &&
                        rows == old(rows)[freshId := r.value.Row()]
      ensures r.Err? ==> rows == old(rows)
      ensures r.Ok? <==> forall k :: k in old(rows) ==> old(rows)[k].email != input.email
      ensures old(Valid()) && freshId !in old(rows) ==> Valid()
    {
      r := Create(input.(role := Some(Viewer)), freshId);
    }
  }
}
