/**
 * The mutating verbs of the mock server, performed in place on the store:
 * each checks, in the source's order, and throws (returns `Err`) before any
 * change; on success it pushes onto, assigns into or splices one collection
 * and records one audit entry. Each method is proved to do exactly what the
 * corresponding function of `Handlers` says.
 */
module MockServer {
  import opened Wrappers
  import opened Records
  import opened Text
  import opened Seqs
  import opened Db
  import opened Api
  import opened Handlers

  /** `mockServer.post`. */
  method Post(db: Store, endpoint: string, body: Body, now: int) returns (r: Response)
    modifies db
    ensures Outcome(r, db.State()) == OnPost(old(db.State()), endpoint, body, now)
  {
    if endpoint == "/users" {
      r := PostUser(db, body, now);
    } else if endpoint == "/roles" {
      r := PostRole(db, body, now);
    } else {
      r := Err(ApiError(BadRequest, BadRequestMessage));
    }
  }

  /** POST /users. */
  method PostUser(db: Store, body: Body, now: int) returns (r: Response)
    modifies db
    ensures Outcome(r, db.State()) == CreateUser(old(db.State()), body, now)
  {
    if !Present(body.name) || !Present(body.email) || !Present(body.roleId) {
      return Err(ApiError(ValidationError, UserFieldsMessage));
    }
    if EmailTaken(db.users, body.email.value) {
      return Err(ApiError(DuplicateEmail, DuplicateEmailMessage));
    }
    if RoleIndex(db.roles, body.roleId) < 0 {
      return Err(ApiError(InvalidRole, InvalidRoleMessage));
    }
    var newUser := CreatedUser(body, now);
    db.users := db.users + [newUser];
    var _ := db.AddAuditLog(Create, UserEntity, newUser.id, UserCreated(newUser.name), None, None, now);
    r := Ok(OneUser(newUser));
  }

  /** POST /roles. */
  method PostRole(db: Store, body: Body, now: int) returns (r: Response)
    modifies db
    ensures Outcome(r, db.State()) == CreateRole(old(db.State()), body, now)
  {
    if !Present(body.name) || body.permissions.None? || |body.permissions.value| == 0 {
      return Err(ApiError(ValidationError, RoleFieldsMessage));
    }
    if RoleNameTaken(db.roles, body.name.value) {
      return Err(ApiError(DuplicateRole, DuplicateRoleMessage));
    }
    var id := db.NewRoleIdCounter();
    var newRole := CreatedRole(id, body, now);
    db.roles := db.roles + [newRole];
    var _ := db.AddAuditLog(Create, RoleEntity, newRole.id, RoleCreated(newRole.name), None, None, now);
    r := Ok(OneRole(newRole));
  }

  /** `mockServer.put`. */
  method Put(db: Store, endpoint: string, body: Body, now: int) returns (r: Response)
    modifies db
    ensures Outcome(r, db.State()) == OnPut(old(db.State()), endpoint, body, now)
  {
    if StartsWith(endpoint, "/users/") {
      r := PutUser(db, PathId(endpoint), body, now);
    } else if StartsWith(endpoint, "/roles/") {
      r := PutRole(db, PathId(endpoint), body, now);
    } else {
      r := Err(ApiError(BadRequest, BadRequestMessage));
    }
  }

  /** PUT /users/{id}. */
  method PutUser(db: Store, userId: Option<string>, body: Body, now: int) returns (r: Response)
    modifies db
    ensures Outcome(r, db.State()) == UpdateUser(old(db.State()), userId, body, now)
  {
    var userIndex := UserIndex(db.users, userId);
    if userIndex == -1 {
      return Err(ApiError(NotFound, UserNotFoundMessage));
    }
    var oldUser := db.users[userIndex];
    if Present(body.email) && body.email.value != oldUser.email {
      if EmailTakenByOther(db.users, body.email.value, userId) {
        return Err(ApiError(DuplicateEmail, DuplicateEmailMessage));
      }
    }
    if Present(body.roleId) && RoleIndex(db.roles, body.roleId) < 0 {
      return Err(ApiError(InvalidRole, InvalidRoleMessage));
    }
    var updatedUser := MergedUser(oldUser, body, now);
    db.users := db.users[userIndex := updatedUser];
    var _ := db.AddAuditLog(Update, UserEntity, userId.value, UserUpdated(updatedUser.name), None, None, now);
    r := Ok(OneUser(updatedUser));
  }

  /** PUT /roles/{id}. */
  method PutRole(db: Store, roleId: Option<string>, body: Body, now: int) returns (r: Response)
    modifies db
    ensures Outcome(r, db.State()) == UpdateRole(old(db.State()), roleId, body, now)
  {
    var roleIndex := RoleIndex(db.roles, roleId);
    if roleIndex == -1 {
      return Err(ApiError(NotFound, RoleNotFoundMessage));
    }
    var oldRole := db.roles[roleIndex];
    if !Present(body.name) || body.permissions.None? || |body.permissions.value| == 0 {
      return Err(ApiError(ValidationError, RoleFieldsMessage));
    }
    if body.name.value != oldRole.name && RoleNameTaken(db.roles, body.name.value) {
      return Err(ApiError(DuplicateRole, DuplicateRoleMessage));
    }
    var updatedRole := ReplacedRole(oldRole, body, now);
    db.roles := db.roles[roleIndex := updatedRole];
    var _ := db.AddAuditLog(Update, RoleEntity, roleId.value, RoleUpdated(updatedRole.name), None, None, now);
    r := Ok(OneRole(updatedRole));
  }

  /** `mockServer.delete`. */
  method Delete(db: Store, endpoint: string, now: int) returns (r: Response)
    modifies db
    ensures Outcome(r, db.State()) == OnDelete(old(db.State()), endpoint, now)
  {
    if StartsWith(endpoint, "/users/") {
      r := DeleteUser(db, PathId(endpoint), now);
    } else if StartsWith(endpoint, "/roles/") {
      r := DeleteRole(db, PathId(endpoint), now);
    } else {
      r := Err(ApiError(BadRequest, BadRequestMessage));
    }
  }

  /** DELETE /users/{id}. */
  method DeleteUser(db: Store, userId: Option<string>, now: int) returns (r: Response)
    modifies db
    ensures Outcome(r, db.State()) == RemoveUser(old(db.State()), userId, now)
  {
    var userIndex := UserIndex(db.users, userId);
    if userIndex == -1 {
      return Err(ApiError(NotFound, UserNotFoundMessage));
    }
    var deletedUser := db.users[userIndex];
    db.users := Splice(db.users, userIndex);
    var _ := db.AddAuditLog(AuditAction.Delete, UserEntity, userId.value, UserDeleted(deletedUser.name), None, None, now);
    r := Ok(Deleted(UserDeletedReply));
  }

  /** DELETE /roles/{id}. */
  method DeleteRole(db: Store, roleId: Option<string>, now: int) returns (r: Response)
    modifies db
    ensures Outcome(r, db.State()) == RemoveRole(old(db.State()), roleId, now)
  {
    var roleIndex := RoleIndex(db.roles, roleId);
    if roleIndex == -1 {
      return Err(ApiError(NotFound, RoleNotFoundMessage));
    }
    if RoleReferenced(db.users, roleId) {
      return Err(ApiError(RoleInUse, RoleInUseMessage));
    }
    var deletedRole := db.roles[roleIndex];
    db.roles := Splice(db.roles, roleIndex);
    var _ := db.AddAuditLog(AuditAction.Delete, RoleEntity, roleId.value, RoleDeleted(deletedRole.name), None, None, now);
    r := Ok(Deleted(RoleDeletedReply));
  }
}
