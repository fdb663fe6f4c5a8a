/**
 * Per-request properties: the order of the checks, the shape of what is
 * stored on success, and the ids handed out.
 */
module RequestProps {
  import opened Wrappers
  import opened Records
  import opened Text
  import opened Seqs
  import opened Db
  import opened Api
  import opened Handlers

  // ---------------------------------------------------------- POST /users

  /**
   * POST /users succeeds exactly when name, e-mail and role id are non-empty,
   * the e-mail is unused and the role exists; otherwise the first failing
   * check, in that order, names the error.
   */
  lemma CreateUserChecks(st: DbState, body: Body, now: int)
    ensures var r := CreateUser(st, body, now).response;
      && (r.Ok? <==> Present(body.name) && Present(body.email) && Present(body.roleId)
                     && !EmailTaken(st.users, body.email.value)
                     && HasRole(st.roles, body.roleId.value))
      && (!Present(body.name) || !Present(body.email) || !Present(body.roleId) ==>
            r == Err(ApiError(ValidationError, UserFieldsMessage)))
      && (Present(body.name) && Present(body.email) && Present(body.roleId)
          && EmailTaken(st.users, body.email.value) ==>
            r == Err(ApiError(DuplicateEmail, DuplicateEmailMessage)))
      && (Present(body.name) && Present(body.email) && Present(body.roleId)
          && !EmailTaken(st.users, body.email.value) && !HasRole(st.roles, body.roleId.value) ==>
            r == Err(ApiError(InvalidRole, InvalidRoleMessage)))
    ensures CreateUser(st, body, now).response.Err? ==> CreateUser(st, body, now).state == st
  {
    if Present(body.roleId) {
      var id := body.roleId.value;
      if HasRole(st.roles, id) {
        var j :| 0 <= j < |st.roles| && st.roles[j].id == id;
        assert RoleIndex(st.roles, body.roleId) != -1;
      }
      if 0 <= RoleIndex(st.roles, body.roleId) {
        assert st.roles[RoleIndex(st.roles, body.roleId)].id == id;
      }
    }
  }

  /**
   * A created user is appended after the existing ones with the body's name,
   * e-mail and role id, active unless the body says otherwise, both timestamps
   * the request time, and the id `StaleUserId`; the roles and the id counters
   * other than the audit-log counter are untouched.
   */
  lemma CreateUserAppends(st: DbState, body: Body, now: int)
    requires CreateUser(st, body, now).response.Ok?
    ensures var o := CreateUser(st, body, now);
      && o.response.payload.OneUser?
      && var u := o.response.payload.user;
      && o.state.users == st.users + [u]
      && u.id == StaleUserId
      && Some(u.name) == body.name && Some(u.email) == body.email && Some(u.roleId) == body.roleId
      && u.isActive == (body.isActive != Some(false))
      && u.createdAt == now && u.updatedAt == now
      && o.state.roles == st.roles
      && o.state.userIdCounter == st.userIdCounter
      && o.state.roleIdCounter == st.roleIdCounter
  {
  }

  /**
   * Two users created one after the other share one id, and the user counter
   * has not moved: user ids are not unique once more than one user is created.
   */
  lemma {:induction false} CreatedUsersShareId(st: DbState, first: Body, second: Body, t1: int, t2: int)
    requires CreateUser(st, first, t1).response.Ok?
    requires CreateUser(CreateUser(st, first, t1).state, second, t2).response.Ok?
    ensures var after := CreateUser(CreateUser(st, first, t1).state, second, t2).state;
      && |after.users| == |st.users| + 2
      && after.users[|st.users|].id == after.users[|st.users| + 1].id
      && !UserIdsUnique(after.users)
      && after.userIdCounter == st.userIdCounter
  {
    var mid := CreateUser(st, first, t1);
    CreateUserAppends(st, first, t1);
    CreateUserAppends(mid.state, second, t2);
    var after := CreateUser(mid.state, second, t2).state;
    var n := |st.users|;
    assert after.users[n] == mid.state.users[n];
    assert after.users[n].id == StaleUserId == after.users[n + 1].id;
  }

  // ---------------------------------------------------------- POST /roles

  /**
   * POST /roles succeeds exactly when the name is non-empty, at least one
   * permission is given and no role has that name. A missing name or an empty
   * permission list is VALIDATION_ERROR, checked before a taken name's
   * DUPLICATE_ROLE; both leave the store as it was. The created role is
   * appended with the body's name, description and permissions, both
   * timestamps the request time; the users and the user counter are kept.
   */
  lemma CreateRoleChecks(st: DbState, body: Body, now: int)
    ensures var o := CreateRole(st, body, now);
      && (o.response.Ok? <==> Present(body.name) && body.permissions.Some? && |body.permissions.value| > 0
                              && !RoleNameTaken(st.roles, body.name.value))
      && (!Present(body.name) || body.permissions.None? || |body.permissions.value| == 0 ==>
            o == Outcome(Err(ApiError(ValidationError, RoleFieldsMessage)), st))
      && (Present(body.name) && body.permissions.Some? && |body.permissions.value| > 0
          && RoleNameTaken(st.roles, body.name.value) ==>
            o == Outcome(Err(ApiError(DuplicateRole, DuplicateRoleMessage)), st))
      && (o.response.Ok? ==>
            && o.response.payload.OneRole?
            && var r := o.response.payload.role;
            && o.state.roles == st.roles + [r]
            && Some(r.name) == body.name && r.description == body.description
            && Some(r.permissions) == body.permissions
            && r.createdAt == now && r.updatedAt == now
            && o.state.users == st.users && o.state.userIdCounter == st.userIdCounter)
  {
  }

  /**
   * POST /roles succeeds exactly when the name is non-empty, at least one
   * permission is given and no role has that name; the new role gets the
   * role counter in decimal, the counter advances, and the id was never
   * handed out before, so it differs from every stored role's id.
   */
  lemma CreateRoleIssuesFreshId(st: DbState, body: Body, now: int)
    requires RoleIdsIssued(st.roles, st.roleIdCounter)
    ensures var o := CreateRole(st, body, now);
      && (o.response.Ok? <==> Present(body.name) && body.permissions.Some? && |body.permissions.value| > 0
                              && !RoleNameTaken(st.roles, body.name.value))
      && (o.response.Ok? ==>
            && o.response.payload.OneRole?
            && var r := o.response.payload.role;
            && o.state.roles == st.roles + [r]
            && r.id == NatToString(st.roleIdCounter)
            && o.state.roleIdCounter == st.roleIdCounter + 1
            && (forall i | 0 <= i < |st.roles| :: st.roles[i].id != r.id)
            && o.state.users == st.users)
  {
    forall i | 0 <= i < |st.roles| ensures st.roles[i].id != NatToString(st.roleIdCounter) {
      IssuedIdIsFresh(st.roles[i].id, st.roleIdCounter);
    }
  }

  // ------------------------------------------------------ PUT /users/{id}

  /**
   * A successful PUT /users/{id} replaces the first user with that id in
   * place: each field the body omits keeps its value, each it gives is taken
   * as given, the id and creation time are kept, the update time is the
   * request time, and no other user changes.
   */
  lemma UpdateUserMerges(st: DbState, userId: Option<string>, body: Body, now: int)
    requires UpdateUser(st, userId, body, now).response.Ok?
    ensures var i := UserIndex(st.users, userId);
      && 0 <= i
      && var o := UpdateUser(st, userId, body, now);
      && var u := o.state.users[i];
      && |o.state.users| == |st.users|
      && (forall j | 0 <= j < |st.users| && j != i :: o.state.users[j] == st.users[j])
      && o.response == Ok(OneUser(u))
      && u.id == st.users[i].id && Some(u.id) == userId
      && u.createdAt == st.users[i].createdAt && u.updatedAt == now
      && (body.name.None? ==> u.name == st.users[i].name) && (body.name.Some? ==> u.name == body.name.value)
      && (body.email.None? ==> u.email == st.users[i].email) && (body.email.Some? ==> u.email == body.email.value)
      && (body.roleId.None? ==> u.roleId == st.users[i].roleId) && (body.roleId.Some? ==> u.roleId == body.roleId.value)
      && (body.isActive.None? ==> u.isActive == st.users[i].isActive)
      && (body.isActive.Some? ==> u.isActive == body.isActive.value)
      && o.state.roles == st.roles
  {
  }

  /**
   * The checks of PUT /users/{id}: an unknown id is USER_NOT_FOUND whatever
   * the body; keeping one's own e-mail is never a duplicate; and an empty
   * e-mail or role id passes both checks and is stored as given.
   */
  lemma UpdateUserChecks(st: DbState, userId: Option<string>, body: Body, now: int)
    ensures UserIndex(st.users, userId) < 0 ==>
              UpdateUser(st, userId, body, now).response == Err(ApiError(NotFound, UserNotFoundMessage))
    ensures var i := UserIndex(st.users, userId);
      0 <= i && body.email == Some(st.users[i].email) && !Present(body.roleId) ==>
        UpdateUser(st, userId, body, now).response.Ok?
    ensures var i := UserIndex(st.users, userId);
      0 <= i && !(Present(body.email) && body.email.value != st.users[i].email
                  && EmailTakenByOther(st.users, body.email.value, userId))
      && Present(body.roleId) && !HasRole(st.roles, body.roleId.value) ==>
        UpdateUser(st, userId, body, now) == Outcome(Err(ApiError(InvalidRole, InvalidRoleMessage)), st)
    ensures var i := UserIndex(st.users, userId);
      UpdateUser(st, userId, body, now).response.Ok? <==>
        && 0 <= i
        && !(Present(body.email) && body.email.value != st.users[i].email
             && EmailTakenByOther(st.users, body.email.value, userId))
        && !(Present(body.roleId) && !HasRole(st.roles, body.roleId.value))
    ensures var i := UserIndex(st.users, userId);
      0 <= i && body.email == Some("") && body.roleId == Some("") ==>
        && UpdateUser(st, userId, body, now).response.Ok?
        && UpdateUser(st, userId, body, now).state.users[i].email == ""
        && UpdateUser(st, userId, body, now).state.users[i].roleId == ""
  {
    var i := UserIndex(st.users, userId);
    if 0 <= i && Present(body.roleId) {
      RoleIndexFinds(st.roles, body.roleId.value);
    }
  }

  /** `RoleIndex` finds a role exactly when some role has the id. */
  lemma RoleIndexFinds(roles: seq<Role>, id: string)
    ensures 0 <= RoleIndex(roles, Some(id)) <==> HasRole(roles, id)
  {
    if HasRole(roles, id) {
      var j :| 0 <= j < |roles| && roles[j].id == id;
      assert Some(roles[j].id) == Some(id);
    }
  }

  /**
   * PUT /users/{id} answers DUPLICATE_EMAIL, changing nothing, exactly when
   * the user exists and the body gives a non-empty e-mail, different from the
   * user's own, that a user with another id holds.
   */
  lemma UpdateUserRefusesTakenEmail(st: DbState, userId: Option<string>, body: Body, now: int)
    ensures var o := UpdateUser(st, userId, body, now);
      var i := UserIndex(st.users, userId);
      && (o.response == Err(ApiError(DuplicateEmail, DuplicateEmailMessage)) <==>
            && 0 <= i && Present(body.email) && body.email.value != st.users[i].email
            && exists k | 0 <= k < |st.users| :: st.users[k].email == body.email.value && Some(st.users[k].id) != userId)
      && (o.response == Err(ApiError(DuplicateEmail, DuplicateEmailMessage)) ==> o.state == st)
  {
  }

  // ------------------------------------------------------ PUT /roles/{id}

  /**
   * The checks of PUT /roles/{id}, in order: an unknown id is ROLE_NOT_FOUND
   * before the body is looked at; a missing name or an empty permission list
   * is VALIDATION_ERROR; DUPLICATE_ROLE comes exactly when the name changes to
   * one some role holds. Every refusal leaves the store as it was.
   */
  lemma UpdateRoleChecks(st: DbState, roleId: Option<string>, body: Body, now: int)
    ensures RoleIndex(st.roles, roleId) < 0 ==>
              UpdateRole(st, roleId, body, now) == Outcome(Err(ApiError(NotFound, RoleNotFoundMessage)), st)
    ensures 0 <= RoleIndex(st.roles, roleId)
            && (!Present(body.name) || body.permissions.None? || |body.permissions.value| == 0) ==>
              UpdateRole(st, roleId, body, now) == Outcome(Err(ApiError(ValidationError, RoleFieldsMessage)), st)
    ensures var i := RoleIndex(st.roles, roleId);
      UpdateRole(st, roleId, body, now).response == Err(ApiError(DuplicateRole, DuplicateRoleMessage)) <==>
        && 0 <= i && Present(body.name) && body.permissions.Some? && |body.permissions.value| > 0
        && body.name.value != st.roles[i].name && RoleNameTaken(st.roles, body.name.value)
    ensures UpdateRole(st, roleId, body, now).response.Err? ==> UpdateRole(st, roleId, body, now).state == st
    ensures var i := RoleIndex(st.roles, roleId);
      0 <= i && body.name == Some(st.roles[i].name) && Present(body.name)
      && body.permissions.Some? && |body.permissions.value| > 0 ==>
        UpdateRole(st, roleId, body, now).response.Ok?
  {
  }

  /**
   * A successful PUT /roles/{id} replaces the first role with that id in
   * place: name, description and permissions are taken from the body as a
   * whole (an omitted description becomes absent), the id and creation time
   * are kept, the update time is the request time, and no other role and no
   * user changes.
   */
  lemma UpdateRoleReplaces(st: DbState, roleId: Option<string>, body: Body, now: int)
    requires UpdateRole(st, roleId, body, now).response.Ok?
    ensures var i := RoleIndex(st.roles, roleId);
      && 0 <= i
      && var o := UpdateRole(st, roleId, body, now);
      && var r := o.state.roles[i];
      && |o.state.roles| == |st.roles|
      && (forall j | 0 <= j < |st.roles| && j != i :: o.state.roles[j] == st.roles[j])
      && o.response == Ok(OneRole(r))
      && r.id == st.roles[i].id && Some(r.id) == roleId
      && r.createdAt == st.roles[i].createdAt && r.updatedAt == now
      && Some(r.name) == body.name && r.description == body.description
      && Some(r.permissions) == body.permissions
      && o.state.users == st.users
  {
  }

  // --------------------------------------------------------------- DELETE

  /**
   * DELETE /users/{id} removes the first user with that id and keeps the
   * order of the rest; when ids are distinct no user with that id remains.
   */
  lemma RemoveUserRemovesOne(st: DbState, userId: Option<string>, now: int)
    requires RemoveUser(st, userId, now).response.Ok?
    ensures var i := UserIndex(st.users, userId);
      && 0 <= i
      && var users := RemoveUser(st, userId, now).state.users;
      && users == st.users[..i] + st.users[i + 1..]
      && multiset(users) + multiset{st.users[i]} == multiset(st.users)
      && (UserIdsUnique(st.users) ==> forall j | 0 <= j < |users| :: Some(users[j].id) != userId)
  {
    var i := UserIndex(st.users, userId);
    var users := RemoveUser(st, userId, now).state.users;
    assert st.users == st.users[..i] + [st.users[i]] + st.users[i + 1..];
    if UserIdsUnique(st.users) {
      forall j | 0 <= j < |users| ensures Some(users[j].id) != userId {
        if j >= i {
          assert users[j] == st.users[j + 1];
          assert st.users[i].id != st.users[j + 1].id;
        }
      }
    }
  }

  /** DELETE /users/{id}: an unknown id is USER_NOT_FOUND and changes nothing; a known one succeeds. */
  lemma RemoveUserChecks(st: DbState, userId: Option<string>, now: int)
    ensures UserIndex(st.users, userId) < 0 ==>
              RemoveUser(st, userId, now) == Outcome(Err(ApiError(NotFound, UserNotFoundMessage)), st)
    ensures 0 <= UserIndex(st.users, userId) ==> RemoveUser(st, userId, now).response == Ok(Deleted(UserDeletedReply))
  {
  }

  /**
   * DELETE /roles/{id}: an unknown id is ROLE_NOT_FOUND, and a role any user
   * refers to is ROLE_IN_USE, both changing nothing; otherwise the first role
   * with that id is spliced out, the others keep their order, no user
   * changes, and with distinct role ids no role with that id remains.
   */
  lemma RemoveRoleGuarded(st: DbState, roleId: Option<string>, now: int)
    ensures RoleIndex(st.roles, roleId) < 0 ==>
              RemoveRole(st, roleId, now) == Outcome(Err(ApiError(NotFound, RoleNotFoundMessage)), st)
    ensures 0 <= RoleIndex(st.roles, roleId) && RoleReferenced(st.users, roleId) ==>
              RemoveRole(st, roleId, now) == Outcome(Err(ApiError(RoleInUse, RoleInUseMessage)), st)
    ensures RemoveRole(st, roleId, now).response.Ok? <==>
              0 <= RoleIndex(st.roles, roleId) && !RoleReferenced(st.users, roleId)
    ensures RemoveRole(st, roleId, now).response.Ok? ==>
              var i := RoleIndex(st.roles, roleId);
              && RemoveRole(st, roleId, now).state.roles == st.roles[..i] + st.roles[i + 1..]
              && RemoveRole(st, roleId, now).state.users == st.users
    ensures RemoveRole(st, roleId, now).response.Ok? && RoleIdsUnique(st.roles) ==>
              forall j | 0 <= j < |RemoveRole(st, roleId, now).state.roles| ::
                Some(RemoveRole(st, roleId, now).state.roles[j].id) != roleId
  {
    if RemoveRole(st, roleId, now).response.Ok? && RoleIdsUnique(st.roles) {
      var i := RoleIndex(st.roles, roleId);
      var roles := RemoveRole(st, roleId, now).state.roles;
      forall j | 0 <= j < |roles| ensures Some(roles[j].id) != roleId {
        if j >= i {
          assert roles[j] == st.roles[j + 1];
          assert st.roles[i].id != st.roles[j + 1].id;
        }
      }
    }
  }
}
