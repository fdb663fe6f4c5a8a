/**
 * The request handlers of the mock server as functions of the store's value:
 * each maps the store before a request to the response and the store after
 * it. `MockServer` performs the same steps in place on a `Db.Store`.
 *
 * Routing: an exact "/users" or "/roles" (and "/audit-logs" for GET) selects a
 * collection, a "/users/" or "/roles/" prefix a single record whose id is the
 * third "/"-separated segment of the path.
 */
module Handlers {
  import opened Wrappers
  import opened Records
  import opened Text
  import opened Seqs
  import opened Db
  import opened Api
  import opened Listing

  datatype Outcome = Outcome(response: Response, state: DbState)

  /**
   * The id every created user gets: the create handler converts the counter
   * function itself to a string instead of calling it, so every created user
   * gets this one string as id and the user counter never moves. The text is
   * the function as written; at run time it is whatever text the build gives
   * the function, and only its being the same for every user matters here.
   */
  const StaleUserId: string := "() => userIdCounter++"

  /** `endpoint.split("/")[2]`; `None` is the `undefined` of an index past the end. */
  function PathId(endpoint: string): (id: Option<string>)
    ensures id.Some? ==> '/' !in id.value
  {
    var parts := Split(endpoint, '/');
    if |parts| > 2 then Some(parts[2]) else None
  }

  /** A thrown error: the store is left as it was. */
  function Fail(st: DbState, code: ErrorCode, message: string): Outcome
  {
    Outcome(Err(ApiError(code, message)), st)
  }

  // Audit messages.
  function UserCreated(name: string): string { "사용자 " + name + "이(가) 생성되었습니다." }
  function UserUpdated(name: string): string { "사용자 " + name + "이(가) 수정되었습니다." }
  function UserDeleted(name: string): string { "사용자 " + name + "이(가) 삭제되었습니다." }
  function RoleCreated(name: string): string { "역할 " + name + "이(가) 생성되었습니다." }
  function RoleUpdated(name: string): string { "역할 " + name + "이(가) 수정되었습니다." }
  function RoleDeleted(name: string): string { "역할 " + name + "이(가) 삭제되었습니다." }

  // -------------------------------------------------------------- records

  /** The user POST /users builds: the stale id, active unless `false` is sent. */
  function CreatedUser(body: Body, now: int): User
    requires body.name.Some? && body.email.Some? && body.roleId.Some?
  {
    User(StaleUserId, body.name.value, body.email.value, body.roleId.value,
         body.isActive.GetOr(true), now, now)
  }

  /** The role POST /roles builds from the drawn counter value `id`. */
  function CreatedRole(id: nat, body: Body, now: int): Role
    requires body.name.Some? && body.permissions.Some?
  {
    Role(NatToString(id), body.name.value, body.description, body.permissions.value, now, now)
  }

  /** `{ ...prev, ...}` of PUT /users/{id}: each field the body holds (`??`) replaces the old one. */
  function MergedUser(prev: User, body: Body, now: int): User
  {
    prev.(
      name := body.name.GetOr(prev.name),
      email := body.email.GetOr(prev.email),
      roleId := body.roleId.GetOr(prev.roleId),
      isActive := body.isActive.GetOr(prev.isActive),
      updatedAt := now)
  }

  /** `{ ...prev, ...}` of PUT /roles/{id}: name, description and permissions replaced wholesale. */
  function ReplacedRole(prev: Role, body: Body, now: int): Role
    requires body.name.Some? && body.permissions.Some?
  {
    prev.(
      name := body.name.value,
      description := body.description,
      permissions := body.permissions.value,
      updatedAt := now)
  }

  // ------------------------------------------------------------------ GET

  /** `mockServer.get`: reads the store and never changes it. */
  function OnGet(st: DbState, endpoint: string, params: Params): (r: Response)
    ensures r.Err? ==> r.error.code == NotFound
    ensures r.Ok? && r.payload.OneUser? ==> r.payload.user in st.users && PathId(endpoint) == Some(r.payload.user.id)
    ensures r.Ok? && r.payload.OneRole? ==> r.payload.role in st.roles && PathId(endpoint) == Some(r.payload.role.id)
  {
    if endpoint == "/users" then
      Ok(UserList(ListUsers(st.users, params)))
    else if StartsWith(endpoint, "/users/") then
      var i := UserIndex(st.users, PathId(endpoint));
      if i < 0 then Err(ApiError(NotFound, UserNotFoundMessage)) else Ok(OneUser(st.users[i]))
    else if endpoint == "/roles" then
      Ok(RoleList(ListRoles(st.roles, params)))
    else if StartsWith(endpoint, "/roles/") then
      var i := RoleIndex(st.roles, PathId(endpoint));
      if i < 0 then Err(ApiError(NotFound, RoleNotFoundMessage)) else Ok(OneRole(st.roles[i]))
    else if endpoint == "/audit-logs" then
      Ok(AuditLogList(ListAuditLogs(st.auditLogs, params)))
    else
      Err(ApiError(NotFound, EndpointNotFoundMessage))
  }

  // ----------------------------------------------------------------- POST

  /** POST /users. */
  function CreateUser(st: DbState, body: Body, now: int): (o: Outcome)
    ensures o.response.Err? ==> o.state == st
    ensures o.response.Ok? ==>
              && o.response.payload.OneUser?
              && o.state.users == st.users + [o.response.payload.user]
              && |o.state.auditLogs| == |st.auditLogs| + 1
  {
    if !Present(body.name) || !Present(body.email) || !Present(body.roleId) then
      Fail(st, ValidationError, UserFieldsMessage)
    else if EmailTaken(st.users, body.email.value) then
      Fail(st, DuplicateEmail, DuplicateEmailMessage)
    else if RoleIndex(st.roles, body.roleId) < 0 then
      Fail(st, InvalidRole, InvalidRoleMessage)
    else
      var user := CreatedUser(body, now);
      var pushed := st.(users := st.users + [user]);
      Outcome(Ok(OneUser(user)), Logged(pushed, Create, UserEntity, user.id, UserCreated(user.name), None, None, now))
  }

  /** POST /roles. */
  function CreateRole(st: DbState, body: Body, now: int): (o: Outcome)
    ensures o.response.Err? ==> o.state == st
    ensures o.response.Ok? ==>
              && o.response.payload.OneRole?
              && o.state.roles == st.roles + [o.response.payload.role]
              && |o.state.auditLogs| == |st.auditLogs| + 1
  {
    if !Present(body.name) || body.permissions.None? || |body.permissions.value| == 0 then
      Fail(st, ValidationError, RoleFieldsMessage)
    else if RoleNameTaken(st.roles, body.name.value) then
      Fail(st, DuplicateRole, DuplicateRoleMessage)
    else
      var role := CreatedRole(st.roleIdCounter, body, now);
      var pushed := st.(roles := st.roles + [role], roleIdCounter := st.roleIdCounter + 1);
      Outcome(Ok(OneRole(role)), Logged(pushed, Create, RoleEntity, role.id, RoleCreated(role.name), None, None, now))
  }

  /** `mockServer.post`. */
  function OnPost(st: DbState, endpoint: string, body: Body, now: int): (o: Outcome)
    ensures o.response.Err? ==> o.state == st
    ensures o.response.Ok? ==> endpoint == "/users" || endpoint == "/roles"
  {
    if endpoint == "/users" then CreateUser(st, body, now)
    else if endpoint == "/roles" then CreateRole(st, body, now)
    else Fail(st, BadRequest, BadRequestMessage)
  }

  // ------------------------------------------------------------------ PUT

  /**
   * PUT /users/{id}: a partial update. The checks test truthiness, the merge
   * tests for null/undefined, so an empty e-mail or role id skips its check
   * and is still stored.
   */
  function UpdateUser(st: DbState, userId: Option<string>, body: Body, now: int): (o: Outcome)
    ensures o.response.Err? ==> o.state == st
    ensures o.response.Ok? ==>
              && o.response.payload.OneUser?
              && Some(o.response.payload.user.id) == userId
              && |o.state.users| == |st.users|
              && o.response.payload.user in o.state.users
              && |o.state.auditLogs| == |st.auditLogs| + 1
  {
    var i := UserIndex(st.users, userId);
    if i < 0 then
      Fail(st, NotFound, UserNotFoundMessage)
    else
      var prev := st.users[i];
      if Present(body.email) && body.email.value != prev.email
         && EmailTakenByOther(st.users, body.email.value, userId) then
        Fail(st, DuplicateEmail, DuplicateEmailMessage)
      else if Present(body.roleId) && RoleIndex(st.roles, body.roleId) < 0 then
        Fail(st, InvalidRole, InvalidRoleMessage)
      else
        var updated := MergedUser(prev, body, now);
        var replaced := st.(users := st.users[i := updated]);
        assert replaced.users[i] == updated;
        Outcome(Ok(OneUser(updated)),
                Logged(replaced, Update, UserEntity, userId.value, UserUpdated(updated.name), None, None, now))
  }

  /** PUT /roles/{id}: name, description and permissions replaced wholesale. */
  function UpdateRole(st: DbState, roleId: Option<string>, body: Body, now: int): (o: Outcome)
    ensures o.response.Err? ==> o.state == st
    ensures o.response.Ok? ==>
              && o.response.payload.OneRole?
              && Some(o.response.payload.role.id) == roleId
              && |o.state.roles| == |st.roles|
              && o.response.payload.role in o.state.roles
              && |o.state.auditLogs| == |st.auditLogs| + 1
  {
    var i := RoleIndex(st.roles, roleId);
    if i < 0 then
      Fail(st, NotFound, RoleNotFoundMessage)
    else
      var prev := st.roles[i];
      if !Present(body.name) || body.permissions.None? || |body.permissions.value| == 0 then
        Fail(st, ValidationError, RoleFieldsMessage)
      else if body.name.value != prev.name && RoleNameTaken(st.roles, body.name.value) then
        Fail(st, DuplicateRole, DuplicateRoleMessage)
      else
        var updated := ReplacedRole(prev, body, now);
        var replaced := st.(roles := st.roles[i := updated]);
        assert replaced.roles[i] == updated;
        Outcome(Ok(OneRole(updated)),
                Logged(replaced, Update, RoleEntity, roleId.value, RoleUpdated(updated.name), None, None, now))
  }

  /** `mockServer.put`. */
  function OnPut(st: DbState, endpoint: string, body: Body, now: int): (o: Outcome)
    ensures o.response.Err? ==> o.state == st
    ensures o.response.Ok? ==> StartsWith(endpoint, "/users/") || StartsWith(endpoint, "/roles/")
  {
    if StartsWith(endpoint, "/users/") then UpdateUser(st, PathId(endpoint), body, now)
    else if StartsWith(endpoint, "/roles/") then UpdateRole(st, PathId(endpoint), body, now)
    else Fail(st, BadRequest, BadRequestMessage)
  }

  // --------------------------------------------------------------- DELETE

  /** DELETE /users/{id}. */
  function RemoveUser(st: DbState, userId: Option<string>, now: int): (o: Outcome)
    ensures o.response.Err? ==> o.state == st && o.response.error.code == NotFound
    ensures o.response.Ok? ==>
              && |o.state.users| == |st.users| - 1
              && o.state.roles == st.roles
              && |o.state.auditLogs| == |st.auditLogs| + 1
  {
    var i := UserIndex(st.users, userId);
    if i < 0 then
      Fail(st, NotFound, UserNotFoundMessage)
    else
      var deleted := st.users[i];
      var spliced := st.(users := Splice(st.users, i));
      Outcome(Ok(Deleted(UserDeletedReply)),
              Logged(spliced, Delete, UserEntity, userId.value, UserDeleted(deleted.name), None, None, now))
  }

  /** DELETE /roles/{id}: refused while any user refers to the role. */
  function RemoveRole(st: DbState, roleId: Option<string>, now: int): (o: Outcome)
    ensures o.response.Err? ==> o.state == st
    ensures o.response.Ok? ==>
              && |o.state.roles| == |st.roles| - 1
              && o.state.users == st.users
              && (forall u | u in st.users :: Some(u.roleId) != roleId)
              && |o.state.auditLogs| == |st.auditLogs| + 1
  {
    var i := RoleIndex(st.roles, roleId);
    if i < 0 then
      Fail(st, NotFound, RoleNotFoundMessage)
    else if RoleReferenced(st.users, roleId) then
      Fail(st, RoleInUse, RoleInUseMessage)
    else
      var deleted := st.roles[i];
      var spliced := st.(roles := Splice(st.roles, i));
      Outcome(Ok(Deleted(RoleDeletedReply)),
              Logged(spliced, Delete, RoleEntity, roleId.value, RoleDeleted(deleted.name), None, None, now))
  }

  /** `mockServer.delete`. */
  function OnDelete(st: DbState, endpoint: string, now: int): (o: Outcome)
    ensures o.response.Err? ==> o.state == st
    ensures o.response.Ok? ==> StartsWith(endpoint, "/users/") || StartsWith(endpoint, "/roles/")
  {
    if StartsWith(endpoint, "/users/") then RemoveUser(st, PathId(endpoint), now)
    else if StartsWith(endpoint, "/roles/") then RemoveRole(st, PathId(endpoint), now)
    else Fail(st, BadRequest, BadRequestMessage)
  }
}
