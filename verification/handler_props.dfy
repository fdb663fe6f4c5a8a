/**
 * What the request handlers promise, stated over `Handlers`: a failed request
 * leaves the store alone, a successful mutation appends exactly one audit
 * entry of its own kind, the checks run in the source's order, unmatched
 * routes are refused, and the path id is the record segment of the path.
 */
module HandlerProps {
  import opened Wrappers
  import opened Records
  import opened Text
  import opened Seqs
  import opened Db
  import opened Api
  import opened Handlers

  /** `after` holds the entries of `before` and one more, of the given kind, about record `entityId`. */
  predicate AppendsOneEntry(before: DbState, after: DbState, action: AuditAction, entity: AuditEntity, entityId: string)
  {
    && |after.auditLogs| == |before.auditLogs| + 1
    && after.auditLogs[..|before.auditLogs|] == before.auditLogs
    && after.auditLogs[|before.auditLogs|].action == action
    && after.auditLogs[|before.auditLogs|].entity == entity
    && after.auditLogs[|before.auditLogs|].entityId == entityId
    && after.auditLogs[|before.auditLogs|].id == NatToString(before.auditLogIdCounter)
    && after.auditLogIdCounter == before.auditLogIdCounter + 1
  }

  /** The audited entity of a record path. */
  function EntityOf(endpoint: string): AuditEntity
  {
    if StartsWith(endpoint, "/users") then UserEntity else RoleEntity
  }

  lemma LoggedAppends(st: DbState, action: AuditAction, entity: AuditEntity, entityId: string,
                      message: string, now: int)
    ensures AppendsOneEntry(st, Logged(st, action, entity, entityId, message, None, None, now), action, entity, entityId)
  {
    var after := Logged(st, action, entity, entityId, message, None, None, now);
    assert after.auditLogs == st.auditLogs + [after.auditLogs[|st.auditLogs|]];
  }

  // ------------------------------------------------- errors and audit entries

  /** The id of the record a response carries. */
  function PayloadId(r: Response): string
  {
    if r.Ok? && r.payload.OneUser? then r.payload.user.id
    else if r.Ok? && r.payload.OneRole? then r.payload.role.id
    else ""
  }

  /**
   * A refused POST leaves the store as it was; an accepted one appends one
   * CREATE entry about the record it created.
   */
  lemma PostAuditsOnce(st: DbState, endpoint: string, body: Body, now: int)
    ensures OnPost(st, endpoint, body, now).response.Err? ==> OnPost(st, endpoint, body, now).state == st
    ensures var o := OnPost(st, endpoint, body, now);
      o.response.Ok? ==> AppendsOneEntry(st, o.state, Create, EntityOf(endpoint), PayloadId(o.response))
  {
    if endpoint == "/users" && CreateUser(st, body, now).response.Ok? {
      var user := CreatedUser(body, now);
      LoggedAppends(st.(users := st.users + [user]), Create, UserEntity, user.id, UserCreated(user.name), now);
    }
    if endpoint == "/roles" && CreateRole(st, body, now).response.Ok? {
      var role := CreatedRole(st.roleIdCounter, body, now);
      var pushed := st.(roles := st.roles + [role], roleIdCounter := st.roleIdCounter + 1);
      LoggedAppends(pushed, Create, RoleEntity, role.id, RoleCreated(role.name), now);
    }
  }

  lemma UsersPrefix(endpoint: string)
    requires StartsWith(endpoint, "/users/")
    ensures StartsWith(endpoint, "/users")
  {
    assert endpoint[..6] == endpoint[..7][..6];
  }

  lemma RolesPrefix(endpoint: string)
    requires StartsWith(endpoint, "/roles/")
    ensures !StartsWith(endpoint, "/users") && !StartsWith(endpoint, "/users/")
  {
    assert endpoint[1] == 'r';
  }

  /**
   * A refused PUT leaves the store as it was; an accepted one appends one
   * UPDATE entry about the record the path names.
   */
  lemma PutAuditsOnce(st: DbState, endpoint: string, body: Body, now: int)
    ensures OnPut(st, endpoint, body, now).response.Err? ==> OnPut(st, endpoint, body, now).state == st
    ensures OnPut(st, endpoint, body, now).response.Ok? ==>
              && PathId(endpoint).Some?
              && AppendsOneEntry(st, OnPut(st, endpoint, body, now).state, Update, EntityOf(endpoint),
                                 PathId(endpoint).value)
  {
    var id := PathId(endpoint);
    if StartsWith(endpoint, "/users/") {
      UsersPrefix(endpoint);
      if UpdateUser(st, id, body, now).response.Ok? {
        var i := UserIndex(st.users, id);
        var prev := st.users[i];
        var updated := MergedUser(prev, body, now);
        LoggedAppends(st.(users := st.users[i := updated]), Update, UserEntity, id.value, UserUpdated(updated.name), now);
      }
    } else if StartsWith(endpoint, "/roles/") {
      RolesPrefix(endpoint);
      if UpdateRole(st, id, body, now).response.Ok? {
        var i := RoleIndex(st.roles, id);
        var prev := st.roles[i];
        var updated := ReplacedRole(prev, body, now);
        LoggedAppends(st.(roles := st.roles[i := updated]), Update, RoleEntity, id.value, RoleUpdated(updated.name), now);
      }
    }
  }

  /**
   * A refused DELETE leaves the store as it was; an accepted one appends one
   * DELETE entry about the record the path names.
   */
  lemma DeleteAuditsOnce(st: DbState, endpoint: string, now: int)
    ensures OnDelete(st, endpoint, now).response.Err? ==> OnDelete(st, endpoint, now).state == st
    ensures OnDelete(st, endpoint, now).response.Ok? ==>
              && PathId(endpoint).Some?
              && AppendsOneEntry(st, OnDelete(st, endpoint, now).state, AuditAction.Delete, EntityOf(endpoint),
                                 PathId(endpoint).value)
  {
    var id := PathId(endpoint);
    if StartsWith(endpoint, "/users/") {
      UsersPrefix(endpoint);
      if RemoveUser(st, id, now).response.Ok? {
        var i := UserIndex(st.users, id);
        LoggedAppends(st.(users := Splice(st.users, i)), AuditAction.Delete, UserEntity, id.value,
                      UserDeleted(st.users[i].name), now);
      }
    } else if StartsWith(endpoint, "/roles/") {
      RolesPrefix(endpoint);
      if RemoveRole(st, id, now).response.Ok? {
        var i := RoleIndex(st.roles, id);
        LoggedAppends(st.(roles := Splice(st.roles, i)), AuditAction.Delete, RoleEntity, id.value,
                      RoleDeleted(st.roles[i].name), now);
      }
    }
  }

  // -------------------------------------------------------------- routing

  /** The id segment of "/collection/id" and of "/collection/id/rest". */
  lemma RecordPathId(collection: string, id: string, rest: string)
    requires '/' !in collection && '/' !in id
    ensures PathId("/" + collection + "/" + id) == Some(id)
    ensures PathId("/" + collection + "/" + id + "/" + rest) == Some(id)
  {
    var tail := collection + "/" + id;
    assert "/" + collection + "/" + id == [] + ['/'] + tail;
    SplitAtFirstSeparator([], '/', tail);
    SplitAtFirstSeparator(collection, '/', id);
    SplitWithoutSeparator(id, '/');
    var longTail := collection + "/" + (id + "/" + rest);
    assert "/" + collection + "/" + id + "/" + rest == [] + ['/'] + longTail;
    SplitAtFirstSeparator([], '/', longTail);
    SplitAtFirstSeparator(collection, '/', id + "/" + rest);
    SplitAtFirstSeparator(id, '/', rest);
  }

  /** Every path under "/users/" or "/roles/" has an id segment, possibly empty. */
  lemma PrefixedPathHasId(endpoint: string)
    requires StartsWith(endpoint, "/users/") || StartsWith(endpoint, "/roles/")
    ensures PathId(endpoint).Some?
  {
    var collection := endpoint[1..6];
    assert '/' !in collection;
    var rest := endpoint[7..];
    assert endpoint == [] + ['/'] + (collection + ['/'] + rest);
    SplitAtFirstSeparator([], '/', collection + ['/'] + rest);
    SplitAtFirstSeparator(collection, '/', rest);
  }

  /** A PUT or DELETE to "/users/{id}" reaches the user handlers with that id. */
  lemma UserRoute(st: DbState, id: string, body: Body, now: int)
    requires '/' !in id
    ensures OnPut(st, "/users/" + id, body, now) == UpdateUser(st, Some(id), body, now)
    ensures OnDelete(st, "/users/" + id, now) == RemoveUser(st, Some(id), now)
  {
    assert "/users/" + id == "/" + "users" + "/" + id;
    RecordPathId("users", id, "");
    assert StartsWith("/users/" + id, "/users/");
  }

  /** A PUT or DELETE to "/roles/{id}" reaches the role handlers with that id. */
  lemma RoleRoute(st: DbState, id: string, body: Body, now: int)
    requires '/' !in id
    ensures OnPut(st, "/roles/" + id, body, now) == UpdateRole(st, Some(id), body, now)
    ensures OnDelete(st, "/roles/" + id, now) == RemoveRole(st, Some(id), now)
  {
    assert "/roles/" + id == "/" + "roles" + "/" + id;
    RecordPathId("roles", id, "");
    assert StartsWith("/roles/" + id, "/roles/");
    RolesPrefix("/roles/" + id);
  }

  /** GET /users/{id} answers with a stored user carrying that id, or USER_NOT_FOUND when there is none. */
  lemma GetUserById(st: DbState, id: string, params: Params)
    requires '/' !in id
    ensures var r := OnGet(st, "/users/" + id, params);
      && (r.Ok? <==> exists i | 0 <= i < |st.users| :: st.users[i].id == id)
      && (r.Ok? ==> r.payload.OneUser? && r.payload.user in st.users && r.payload.user.id == id)
      && (r.Err? ==> r.error == ApiError(NotFound, UserNotFoundMessage))
  {
    var path := "/users/" + id;
    assert path == "/" + "users" + "/" + id;
    RecordPathId("users", id, "");
    assert StartsWith(path, "/users/") && path != "/users";
    var i := UserIndex(st.users, Some(id));
    if i < 0 {
      assert forall j | 0 <= j < |st.users| :: st.users[j].id != id;
    }
  }

  /** GET /roles/{id} answers with a stored role carrying that id, or ROLE_NOT_FOUND when there is none. */
  lemma GetRoleById(st: DbState, id: string, params: Params)
    requires '/' !in id
    ensures var r := OnGet(st, "/roles/" + id, params);
      && (r.Ok? <==> exists i | 0 <= i < |st.roles| :: st.roles[i].id == id)
      && (r.Ok? ==> r.payload.OneRole? && r.payload.role in st.roles && r.payload.role.id == id)
      && (r.Err? ==> r.error == ApiError(NotFound, RoleNotFoundMessage))
  {
    var path := "/roles/" + id;
    assert path == "/" + "roles" + "/" + id;
    RecordPathId("roles", id, "");
    assert StartsWith(path, "/roles/") && path != "/roles" && path != "/users";
    assert !StartsWith(path, "/users/") by { assert path[1] == 'r'; }
    var i := RoleIndex(st.roles, Some(id));
    if i < 0 {
      assert forall j | 0 <= j < |st.roles| :: st.roles[j].id != id;
    }
  }

  /**
   * A route no handler matches: GET answers 404 NOT_FOUND, while POST, PUT and
   * DELETE fall through to 400 BAD_REQUEST; none of them changes the store.
   */
  lemma UnmatchedRoutes(st: DbState, endpoint: string, params: Params, body: Body, now: int)
    ensures endpoint !in {"/users", "/roles", "/audit-logs"}
            && !StartsWith(endpoint, "/users/") && !StartsWith(endpoint, "/roles/") ==>
              && OnGet(st, endpoint, params) == Err(ApiError(NotFound, EndpointNotFoundMessage))
              && OnGet(st, endpoint, params).error.Status() == 404
              && CodeName(OnGet(st, endpoint, params).error.code) == "NOT_FOUND"
    ensures endpoint != "/users" && endpoint != "/roles" ==>
              && OnPost(st, endpoint, body, now) == Outcome(Err(ApiError(BadRequest, BadRequestMessage)), st)
              && OnPost(st, endpoint, body, now).response.error.Status() == 400
              && CodeName(OnPost(st, endpoint, body, now).response.error.code) == "BAD_REQUEST"
    ensures !StartsWith(endpoint, "/users/") && !StartsWith(endpoint, "/roles/") ==>
              && OnPut(st, endpoint, body, now) == Outcome(Err(ApiError(BadRequest, BadRequestMessage)), st)
              && OnDelete(st, endpoint, now) == Outcome(Err(ApiError(BadRequest, BadRequestMessage)), st)
              && OnPut(st, endpoint, body, now).response.error.Status() == 400
  {
  }

  /** "/audit-logs" is read-only: only GET serves it. */
  lemma AuditLogsReadOnly(st: DbState, params: Params, body: Body, now: int)
    ensures OnGet(st, "/audit-logs", params).Ok?
    ensures OnPost(st, "/audit-logs", body, now).response == Err(ApiError(BadRequest, BadRequestMessage))
    ensures OnPut(st, "/audit-logs", body, now).response == Err(ApiError(BadRequest, BadRequestMessage))
    ensures OnDelete(st, "/audit-logs", now).response == Err(ApiError(BadRequest, BadRequestMessage))
  {
    assert !StartsWith("/audit-logs", "/users/") by { assert "/audit-logs"[1] == 'a'; }
    assert !StartsWith("/audit-logs", "/roles/") by { assert "/audit-logs"[1] == 'a'; }
  }
}
