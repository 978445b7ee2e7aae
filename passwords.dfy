/**
 * PasswordService: forgot, reset and change password. Each flow loads a fresh User entity and at
 * most changes that entity's `password`; none of them saves it, so the store is never written.
 * `ResetPasswordCorrected` and `UpdatePasswordCorrected` are the reset and change flows with the
 * save they evidently need.
 */
module Passwords {
  import opened Wrappers
  import opened Roles
  import opened Identity
  import opened Users

  const EmailNotFound := "errors.EMAIL_NOT_FOUND"
  const InvalidCurrentPassword := "errors.INVALID_CURRENT_PASSWORD"
  const PasswordResetEmailSent := "success.PASSWORD_RESET_EMAIL_SENT"
  const PasswordResetSuccess := "success.PASSWORD_RESET_SUCCESS"
  const PasswordChangedSuccessfully := "success.PASSWORD_CHANGED_SUCCESSFULLY"

  datatype SuccessResponse = SuccessResponse(message: string)

  datatype ForgotPasswordDto = ForgotPasswordDto(email: string)

  /** The reset request; `otp` is validated for shape only. */
  datatype ResetPasswordDto = ResetPasswordDto(email: string, otp: string, password: string, confirmPassword: string)

  datatype ChangePasswordDto = ChangePasswordDto(currentPassword: string, newPassword: string, confirmNewPassword: string)

  /** Some active, not soft-deleted user has this email. */
  ghost predicate HasActiveUser(rows: map<string, UserRow>, email: string) {
    exists k :: k in rows && rows[k].email == email && Findable(rows[k], true)
  }

  /** `findById(id)` with no filters finds this row: stored under `id` and not soft-deleted. */
  predicate FindableById(rows: map<string, UserRow>, id: string) {
    id in rows && Findable(rows[id], false)
  }

  class PasswordService {
    const users: UsersService
    /** `i18n.t` in the request's language. */
    const translate: string -> string

    constructor (users: UsersService, translate: string -> string)
      ensures this.users == users && this.translate == translate
    {
      this.users := users;
      this.translate := translate;
    }

    /** `forgotPassword`: the same success message whether or not the email is known; nothing changes. */
    method ForgotPassword(dto: ForgotPasswordDto) returns (r: SuccessResponse)
      ensures r == SuccessResponse(translate(PasswordResetEmailSent))
    {
      var user := users.FindActiveUserByEmail(dto.email);
      r := SuccessResponse(translate(PasswordResetEmailSent));
    }

    /**
     * `resetPassword`: an email no active user has is Unauthorized EMAIL_NOT_FOUND; otherwise the
     * loaded entity is that user's row with the password set to the hash of the new one, and nothing
     * is stored. The contract fixes the outcome from the email and the store alone: `otp` plays no part.
     */
    method ResetPassword(dto: ResetPasswordDto) returns (r: Result<SuccessResponse>, loaded: Option<User>)
      ensures r.Err? <==> !HasActiveUser(users.rows, dto.email)
      ensures r.Err? ==> r.error == Unauthorized(translate(EmailNotFound)) && loaded.None?
      ensures r.Ok? ==> r.value == SuccessResponse(translate(PasswordResetSuccess))
      ensures r.Ok? ==> loaded.Some? && fresh(loaded.value) && loaded.value.profile.None? &&
                        exists k :: k in users.rows && users.rows[k].email == dto.email &&
                          Findable(users.rows[k], true) &&
                          loaded.value.Row() == users.rows[k].(password := users.bcrypt.hash(dto.password))
    {
      var user := users.FindActiveUserByEmail(dto.email);
      if user.None? {
        return Err(Unauthorized(translate(EmailNotFound))), None;
      }
      var u := user.value;
      ghost var k :| k in users.rows && users.rows[k] == u.Row();
      u.SetPassword(users.bcrypt, dto.password);
      return Ok(SuccessResponse(translate(PasswordResetSuccess))), Some(u);
    }

    /**
     * `updatePassword`: an id `findById` cannot find is BadRequest USER_NOT_FOUND before any password
     * is looked at; a current password the stored hash rejects is BadRequest INVALID_CURRENT_PASSWORD
     * with the loaded password untouched; otherwise the loaded entity's password becomes the hash of
     * the new one. The store keeps the old hash in every case.
     */
    method UpdatePassword(authUser: AuthUser, dto: ChangePasswordDto) returns (r: Result<SuccessResponse>, loaded: Option<User>)
      requires users.Valid()
      ensures !FindableById(users.rows, authUser.id) ==>
                r == Err(BadRequest(users.translate(UserNotFound))) && loaded.None?
      ensures FindableById(users.rows, authUser.id) &&
              !users.bcrypt.compare(dto.currentPassword, users.rows[authUser.id].password) ==>
                r == Err(BadRequest(translate(InvalidCurrentPassword))) &&
                loaded.Some? && loaded.value.Row() == users.rows[authUser.id]
      ensures FindableById(users.rows, authUser.id) &&
              users.bcrypt.compare(dto.currentPassword, users.rows[authUser.id].password) ==>
                r == Ok(SuccessResponse(translate(PasswordChangedSuccessfully))) &&
                loaded.Some? &&
                loaded.value.Row() == users.rows[authUser.id].(password := users.bcrypt.hash(dto.newPassword))
      ensures loaded.Some? ==> fresh(loaded.value)
    {
      assert FindableById(users.rows, authUser.id) ==> users.rows[authUser.id].id == authUser.id;
      var found := users.FindById(authUser.id, false);
      if found.Err? {
        return Err(found.error), None;
      }
      var u := found.value;
      StoredUnderId(u.Row());
      var ok := u.VerifyPassword(users.bcrypt, dto.currentPassword);
      if !ok {
        return Err(BadRequest(translate(InvalidCurrentPassword))), Some(u);
      }
      u.SetPassword(users.bcrypt, dto.newPassword);
      return Ok(SuccessResponse(translate(PasswordChangedSuccessfully))), Some(u);
    }

    /**
     * `updatePassword` as evidently intended: the same checks and errors, and on success the new
     * hash is saved, so the store then accepts the new password.
     */
    method UpdatePasswordCorrected(authUser: AuthUser, dto: ChangePasswordDto) returns (r: Result<SuccessResponse>)
      requires users.Valid()
      modifies users
      ensures !FindableById(old(users.rows), authUser.id) ==>
                r == Err(BadRequest(users.translate(UserNotFound))) && users.rows == old(users.rows)
      ensures FindableById(old(users.rows), authUser.id) &&
              !users.bcrypt.compare(dto.currentPassword, old(users.rows)[authUser.id].password) ==>
                r == Err(BadRequest(translate(InvalidCurrentPassword))) && users.rows == old(users.rows)
      ensures FindableById(old(users.rows), authUser.id) &&
              users.bcrypt.compare(dto.currentPassword, old(users.rows)[authUser.id].password) ==>
                r == Ok(SuccessResponse(translate(PasswordChangedSuccessfully))) &&
                users.rows == old(users.rows)[authUser.id :=
                  old(users.rows)[authUser.id].(password := users.bcrypt.hash(dto.newPassword))]
      ensures users.Valid()
      ensures r.Ok? && Sound(users.bcrypt) ==>
                users.bcrypt.compare(dto.newPassword, users.rows[authUser.id].password)
    {
      assert FindableById(users.rows, authUser.id) ==> users.rows[authUser.id].id == authUser.id;
      var found := users.FindById(authUser.id, false);
      if found.Err? {
        return Err(found.error);
      }
      var u := found.value;
      StoredUnderId(u.Row());
      var ok := u.VerifyPassword(users.bcrypt, dto.currentPassword);
      if !ok {
        return Err(BadRequest(translate(InvalidCurrentPassword)));
      }
      u.SetPassword(users.bcrypt, dto.newPassword);
      users.rows := users.rows[u.id := u.Row()];
      r := Ok(SuccessResponse(translate(PasswordChangedSuccessfully)));
    }

    /**
     * `resetPassword` with the save it evidently needs: the same email check and error, and on success
     * the active user with that email is stored with the new hash, so the store then accepts the new
     * password. Like the original, it does not look at the OTP.
     */
    method ResetPasswordCorrected(dto: ResetPasswordDto) returns (r: Result<SuccessResponse>)
      requires users.Valid()
      modifies users
      ensures r.Err? <==> !HasActiveUser(old(users.rows), dto.email)
      ensures r.Err? ==> r.error == Unauthorized(translate(EmailNotFound)) && users.rows == old(users.rows)
      ensures r.Ok? ==> r.value == SuccessResponse(translate(PasswordResetSuccess)) &&
                        exists k :: k in old(users.rows) && old(users.rows)[k].email == dto.email &&
                          Findable(old(users.rows)[k], true) &&
                          users.rows == old(users.rows)[k := old(users.rows)[k].(password := users.bcrypt.hash(dto.password))]
      ensures users.Valid()
      ensures r.Ok? && Sound(users.bcrypt) ==>
                exists k :: k in users.rows && users.rows[k].email == dto.email && Findable(users.rows[k], true) &&
                  users.bcrypt.compare(dto.password, users.rows[k].password)
    {
      var user := users.FindActiveUserByEmail(dto.email);
      if user.None? {
        return Err(Unauthorized(translate(EmailNotFound)));
      }
      var u := user.value;
      StoredUnderId(u.Row());
      ghost var k := u.id;
      u.SetPassword(users.bcrypt, dto.password);
      users.rows := users.rows[u.id := u.Row()];
      r := Ok(SuccessResponse(translate(PasswordResetSuccess)));
      assert users.rows[k].email == dto.email && Findable(users.rows[k], true);
    }

    /** A stored row is stored under its own id. */
    lemma StoredUnderId(row: UserRow)
      requires users.Valid()
      requires row in users.rows.Values
      ensures row.id in users.rows && users.rows[row.id] == row
    {
      var k :| k in users.rows && users.rows[k] == row;
    }
  }

  /**
   * As written, a change of password is lost: for this store and this hash, the current password is
   * right, the entity the flow leaves behind accepts the new password, and the store, which keeps
   * the old hash, still refuses it.
   */
  lemma ChangeIsNotPersisted()
    ensures var b := Bcrypt(p => "$" + p, (p, h) => h == "$" + p);
            var rows := map["u1" := UserRow("u1", "Sara", "sara@example.com", "$old-secret", [Viewer], true, None)];
            Sound(b) && FindableById(rows, "u1") &&
            b.compare("old-secret", rows["u1"].password) &&
            b.compare("new-secret", rows["u1"].(password := b.hash("new-secret")).password) &&
            !b.compare("new-secret", rows["u1"].password)
  {
    var b := Bcrypt(p => "$" + p, (p, h) => h == "$" + p);
    assert "$old-secret" != "$new-secret" by {
      assert "$old-secret"[1] != "$new-secret"[1];
    }
  }
}
