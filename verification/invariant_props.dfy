/**
 * The store invariants under each mutating request: unique e-mails, unique
 * role names, resolvable role references, non-empty permission lists, and
 * role and audit-log ids that are distinct and were issued by their counters.
 */
module InvariantProps {
  import opened Wrappers
  import opened Records
  import opened Text
  import opened Seqs
  import opened Db
  import opened Api
  import opened Handlers

  // ------------------------------------------- the invariants, piece by piece

  lemma EmailsUniqueAppend(users: seq<User>, u: User)
    requires EmailsUnique(users) && !EmailTaken(users, u.email)
    ensures EmailsUnique(users + [u])
  {
    var s := users + [u];
    forall i, j | 0 <= i < j < |s| ensures s[i].email != s[j].email {
      if j == |users| {
        assert s[i] == users[i];
      } else {
        assert s[i] == users[i] && s[j] == users[j];
      }
    }
  }

  lemma RoleRefsAppendUser(users: seq<User>, roles: seq<Role>, u: User)
    requires RoleRefsResolve(users, roles) && HasRole(roles, u.roleId)
    ensures RoleRefsResolve(users + [u], roles)
  {
    var s := users + [u];
    forall i | 0 <= i < |s| ensures HasRole(roles, s[i].roleId) {
      if i < |users| {
        assert s[i] == users[i];
      }
    }
  }

  lemma RoleRefsAppendRole(users: seq<User>, roles: seq<Role>, r: Role)
    requires RoleRefsResolve(users, roles)
    ensures RoleRefsResolve(users, roles + [r])
  {
    forall i | 0 <= i < |users| ensures HasRole(roles + [r], users[i].roleId) {
      assert HasRole(roles, users[i].roleId);
      var j :| 0 <= j < |roles| && roles[j].id == users[i].roleId;
      assert (roles + [r])[j] == roles[j];
    }
  }

  /** Replacing one user keeps e-mails distinct if the new e-mail is the old one or unused by others. */
  lemma EmailsUniqueReplace(users: seq<User>, i: nat, u: User)
    requires EmailsUnique(users) && UserIdsUnique(users) && i < |users|
    requires u.email == users[i].email || !EmailTakenByOther(users, u.email, Some(users[i].id))
    ensures EmailsUnique(users[i := u])
  {
    var s := users[i := u];
    forall a, b | 0 <= a < b < |s| ensures s[a].email != s[b].email {
      if a == i || b == i {
        var j := if a == i then b else a;
        assert s[j] == users[j];
        if u.email != users[i].email {
          assert users[j].id != users[i].id by {
            if j < i { assert users[j].id != users[i].id; }
            else { assert users[i].id != users[j].id; }
          }
        } else {
          if j < i { assert users[j].email != users[i].email; }
          else { assert users[i].email != users[j].email; }
        }
      } else {
        assert s[a] == users[a] && s[b] == users[b];
      }
    }
  }

  lemma RoleRefsReplaceUser(users: seq<User>, roles: seq<Role>, i: nat, u: User)
    requires RoleRefsResolve(users, roles) && HasRole(roles, u.roleId) && i < |users|
    ensures RoleRefsResolve(users[i := u], roles)
  {
    var s := users[i := u];
    forall k | 0 <= k < |s| ensures HasRole(roles, s[k].roleId) {
      if k != i {
        assert s[k] == users[k];
      }
    }
  }

  /** Removing one user keeps e-mails distinct and role references resolvable. */
  lemma SpliceUserKeeps(users: seq<User>, roles: seq<Role>, i: nat)
    requires EmailsUnique(users) && RoleRefsResolve(users, roles) && i < |users|
    ensures EmailsUnique(Splice(users, i)) && RoleRefsResolve(Splice(users, i), roles)
  {
    var s := Splice(users, i);
    forall a, b | 0 <= a < b < |s| ensures s[a].email != s[b].email {
      var a', b' := if a < i then a else a + 1, if b < i then b else b + 1;
      assert s[a] == users[a'] && s[b] == users[b'];
    }
    forall k | 0 <= k < |s| ensures HasRole(roles, s[k].roleId) {
      var k' := if k < i then k else k + 1;
      assert s[k] == users[k'];
    }
  }

  /** Removing one role that no user refers to keeps every role invariant. */
  lemma SpliceRoleKeeps(st: DbState, i: nat)
    requires Invariant(st) && i < |st.roles|
    requires forall u | 0 <= u < |st.users| :: st.users[u].roleId != st.roles[i].id
    ensures Invariant(st.(roles := Splice(st.roles, i)))
  {
    var roles := Splice(st.roles, i);
    forall a, b | 0 <= a < b < |roles|
      ensures roles[a].name != roles[b].name && roles[a].id != roles[b].id
    {
      var a', b' := if a < i then a else a + 1, if b < i then b else b + 1;
      assert roles[a] == st.roles[a'] && roles[b] == st.roles[b'];
    }
    forall k | 0 <= k < |roles|
      ensures |roles[k].permissions| > 0 && IssuedBelow(roles[k].id, st.roleIdCounter)
    {
      var k' := if k < i then k else k + 1;
      assert roles[k] == st.roles[k'];
    }
    forall u | 0 <= u < |st.users| ensures HasRole(roles, st.users[u].roleId) {
      var j :| 0 <= j < |st.roles| && st.roles[j].id == st.users[u].roleId;
      assert j != i;
      var j' := if j < i then j else j - 1;
      assert roles[j'] == st.roles[j];
    }
  }

  /** Replacing one role by one with the same id, a fresh or unchanged name and some permissions keeps every invariant. */
  lemma ReplaceRoleKeeps(st: DbState, i: nat, r: Role)
    requires Invariant(st) && i < |st.roles|
    requires r.id == st.roles[i].id && |r.permissions| > 0
    requires r.name == st.roles[i].name || !RoleNameTaken(st.roles, r.name)
    ensures Invariant(st.(roles := st.roles[i := r]))
  {
    var roles := st.roles[i := r];
    forall a, b | 0 <= a < b < |roles|
      ensures roles[a].name != roles[b].name && roles[a].id != roles[b].id
    {
      if a != i && b != i {
        assert roles[a] == st.roles[a] && roles[b] == st.roles[b];
      } else {
        var j := if a == i then b else a;
        assert roles[j] == st.roles[j];
        if j < i {
          assert st.roles[j].name != st.roles[i].name && st.roles[j].id != st.roles[i].id;
        } else {
          assert st.roles[i].name != st.roles[j].name && st.roles[i].id != st.roles[j].id;
        }
      }
    }
    forall k | 0 <= k < |st.users| ensures HasRole(roles, st.users[k].roleId) {
      var j :| 0 <= j < |st.roles| && st.roles[j].id == st.users[k].roleId;
      assert roles[j].id == st.roles[j].id;
    }
    forall k | 0 <= k < |roles| ensures IssuedBelow(roles[k].id, st.roleIdCounter) {
      assert roles[k].id == st.roles[k].id;
    }
  }

  /** Replacing one user by one with the same id, a resolvable role and an unchanged or unused e-mail keeps every invariant. */
  lemma ReplaceUserKeeps(st: DbState, i: nat, u: User)
    requires Invariant(st) && UserIdsUnique(st.users) && i < |st.users|
    requires u.id == st.users[i].id && HasRole(st.roles, u.roleId)
    requires u.email == st.users[i].email || !EmailTakenByOther(st.users, u.email, Some(st.users[i].id))
    ensures Invariant(st.(users := st.users[i := u])) && UserIdsUnique(st.users[i := u])
  {
    var users := st.users[i := u];
    EmailsUniqueReplace(st.users, i, u);
    RoleRefsReplaceUser(st.users, st.roles, i, u);
    WithUsers(st, users);
    forall a, b | 0 <= a < b < |users| ensures users[a].id != users[b].id {
      assert users[a].id == st.users[a].id && users[b].id == st.users[b].id;
    }
  }

  /** New users that keep e-mails distinct and roles resolvable keep the whole invariant. */
  lemma WithUsers(st: DbState, users: seq<User>)
    requires Invariant(st)
    requires EmailsUnique(users) && RoleRefsResolve(users, st.roles)
    ensures Invariant(st.(users := users))
  {
  }

  /** A role found by `RoleIndex` is a role the id resolves to. */
  lemma FoundRoleResolves(roles: seq<Role>, id: string)
    requires 0 <= RoleIndex(roles, Some(id))
    ensures HasRole(roles, id)
  {
    var k := RoleIndex(roles, Some(id));
    assert roles[k].id == id;
  }

  // ---------------------------------------------------------------- POST

  /** POST /users keeps the invariants: its duplicate and role checks guard the push. */
  lemma CreateUserKeepsInvariant(st: DbState, body: Body, now: int)
    requires Invariant(st)
    ensures Invariant(CreateUser(st, body, now).state)
  {
    if CreateUser(st, body, now).response.Ok? {
      var user := CreatedUser(body, now);
      var pushed := st.(users := st.users + [user]);
      EmailsUniqueAppend(st.users, user);
      FoundRoleResolves(st.roles, body.roleId.value);
      RoleRefsAppendUser(st.users, st.roles, user);
      assert Invariant(pushed);
      LoggedKeepsInvariant(pushed, Create, UserEntity, user.id, UserCreated(user.name), None, None, now);
    }
  }

  /** POST /roles keeps the invariants; the new role's id was never issued before. */
  lemma CreateRoleKeepsInvariant(st: DbState, body: Body, now: int)
    requires Invariant(st)
    ensures Invariant(CreateRole(st, body, now).state)
  {
    if CreateRole(st, body, now).response.Ok? {
      var role := CreatedRole(st.roleIdCounter, body, now);
      var roles := st.roles + [role];
      var pushed := st.(roles := roles, roleIdCounter := st.roleIdCounter + 1);
      forall i | 0 <= i < |st.roles|
        ensures roles[i].id != role.id && IssuedBelow(roles[i].id, st.roleIdCounter + 1)
        ensures roles[i].name != role.name
      {
        IssuedIdIsFresh(st.roles[i].id, st.roleIdCounter);
      }
      assert IssuedBelow(role.id, st.roleIdCounter + 1);
      RoleRefsAppendRole(st.users, st.roles, role);
      assert Invariant(pushed);
      LoggedKeepsInvariant(pushed, Create, RoleEntity, role.id, RoleCreated(role.name), None, None, now);
    }
  }

  // ----------------------------------------------------------------- PUT

  /**
   * PUT /users/{id} keeps the invariants when the user ids are distinct and
   * the request does not set the e-mail or the role id to the empty string:
   * those skip their checks and are stored anyway.
   */
  lemma UpdateUserKeepsInvariant(st: DbState, userId: Option<string>, body: Body, now: int)
    requires Invariant(st) && UserIdsUnique(st.users)
    requires body.email != Some("") && body.roleId != Some("")
    ensures Invariant(UpdateUser(st, userId, body, now).state)
    ensures UserIdsUnique(UpdateUser(st, userId, body, now).state.users)
  {
    if UpdateUser(st, userId, body, now).response.Ok? {
      var i := UserIndex(st.users, userId);
      var prev := st.users[i];
      var updated := MergedUser(prev, body, now);
      var replaced := st.(users := st.users[i := updated]);
      assert HasRole(st.roles, updated.roleId) by {
        if body.roleId.Some? {
          FoundRoleResolves(st.roles, body.roleId.value);
        } else {
          assert HasRole(st.roles, st.users[i].roleId);
        }
      }
      ReplaceUserKeeps(st, i, updated);
      LoggedKeepsInvariant(replaced, Update, UserEntity, userId.value, UserUpdated(updated.name), None, None, now);
    }
  }

  /** PUT /roles/{id} keeps the invariants: the id is kept, a new name is checked. */
  lemma UpdateRoleKeepsInvariant(st: DbState, roleId: Option<string>, body: Body, now: int)
    requires Invariant(st)
    ensures Invariant(UpdateRole(st, roleId, body, now).state)
  {
    if UpdateRole(st, roleId, body, now).response.Ok? {
      var i := RoleIndex(st.roles, roleId);
      var prev := st.roles[i];
      var updated := ReplacedRole(prev, body, now);
      var replaced := st.(roles := st.roles[i := updated]);
      ReplaceRoleKeeps(st, i, updated);
      LoggedKeepsInvariant(replaced, Update, RoleEntity, roleId.value, RoleUpdated(updated.name), None, None, now);
    }
  }

  // -------------------------------------------------------------- DELETE

  /** DELETE /users/{id} keeps the invariants. */
  lemma RemoveUserKeepsInvariant(st: DbState, userId: Option<string>, now: int)
    requires Invariant(st)
    ensures Invariant(RemoveUser(st, userId, now).state)
  {
    if RemoveUser(st, userId, now).response.Ok? {
      var i := UserIndex(st.users, userId);
      var users := Splice(st.users, i);
      var spliced := st.(users := users);
      SpliceUserKeeps(st.users, st.roles, i);
      WithUsers(st, users);
      LoggedKeepsInvariant(spliced, AuditAction.Delete, UserEntity, userId.value,
                           UserDeleted(st.users[i].name), None, None, now);
    }
  }

  /** DELETE /roles/{id} keeps the invariants: a role in use is never removed. */
  lemma RemoveRoleKeepsInvariant(st: DbState, roleId: Option<string>, now: int)
    requires Invariant(st)
    ensures Invariant(RemoveRole(st, roleId, now).state)
  {
    if RemoveRole(st, roleId, now).response.Ok? {
      var i := RoleIndex(st.roles, roleId);
      forall u | 0 <= u < |st.users| ensures st.users[u].roleId != st.roles[i].id {
        assert Some(st.users[u].roleId) != roleId;
      }
      SpliceRoleKeeps(st, i);
      LoggedKeepsInvariant(st.(roles := Splice(st.roles, i)), AuditAction.Delete, RoleEntity, roleId.value,
                           RoleDeleted(st.roles[i].name), None, None, now);
    }
  }

  // --------------------------------------------------------------- verbs

  /** Every POST keeps the invariants. */
  lemma PostKeepsInvariant(st: DbState, endpoint: string, body: Body, now: int)
    requires Invariant(st)
    ensures Invariant(OnPost(st, endpoint, body, now).state)
  {
    if endpoint == "/users" {
      CreateUserKeepsInvariant(st, body, now);
    } else if endpoint == "/roles" {
      CreateRoleKeepsInvariant(st, body, now);
    }
  }

  /**
   * Every PUT that does not set an empty e-mail or role id keeps the
   * invariants, provided the user ids are distinct.
   */
  lemma PutKeepsInvariant(st: DbState, endpoint: string, body: Body, now: int)
    requires Invariant(st) && UserIdsUnique(st.users)
    requires body.email != Some("") && body.roleId != Some("")
    ensures Invariant(OnPut(st, endpoint, body, now).state)
  {
    if StartsWith(endpoint, "/users/") {
      UpdateUserKeepsInvariant(st, PathId(endpoint), body, now);
    } else if StartsWith(endpoint, "/roles/") {
      UpdateRoleKeepsInvariant(st, PathId(endpoint), body, now);
    }
  }

  /** Every DELETE keeps the invariants. */
  lemma DeleteKeepsInvariant(st: DbState, endpoint: string, now: int)
    requires Invariant(st)
    ensures Invariant(OnDelete(st, endpoint, now).state)
  {
    if StartsWith(endpoint, "/users/") {
      RemoveUserKeepsInvariant(st, PathId(endpoint), now);
    } else if StartsWith(endpoint, "/roles/") {
      RemoveRoleKeepsInvariant(st, PathId(endpoint), now);
    }
  }

  // ------------------------------------------ one invariant at a time

  /**
   * POST /users never makes two users share an e-mail: its duplicate check
   * guards the push whatever else the store holds.
   */
  lemma CreateUserKeepsEmailsUnique(st: DbState, body: Body, now: int)
    requires EmailsUnique(st.users)
    ensures EmailsUnique(CreateUser(st, body, now).state.users)
  {
    if CreateUser(st, body, now).response.Ok? {
      EmailsUniqueAppend(st.users, CreatedUser(body, now));
    }
  }

  /** DELETE /users/{id} never makes two users share an e-mail. */
  lemma RemoveUserKeepsEmailsUnique(st: DbState, userId: Option<string>, now: int)
    requires EmailsUnique(st.users)
    ensures EmailsUnique(RemoveUser(st, userId, now).state.users)
  {
    if RemoveUser(st, userId, now).response.Ok? {
      var i := UserIndex(st.users, userId);
      var s := Splice(st.users, i);
      forall a, b | 0 <= a < b < |s| ensures s[a].email != s[b].email {
        var a', b' := if a < i then a else a + 1, if b < i then b else b + 1;
        assert s[a] == st.users[a'] && s[b] == st.users[b'];
      }
    }
  }

  /** POST /roles never makes two roles share a name. */
  lemma CreateRoleKeepsRoleNamesUnique(st: DbState, body: Body, now: int)
    requires RoleNamesUnique(st.roles)
    ensures RoleNamesUnique(CreateRole(st, body, now).state.roles)
  {
    if CreateRole(st, body, now).response.Ok? {
      var roles := CreateRole(st, body, now).state.roles;
      var n := |st.roles|;
      forall a, b | 0 <= a < b < |roles| ensures roles[a].name != roles[b].name {
        assert roles[a] == st.roles[a];
        if b < n {
          assert roles[b] == st.roles[b];
        }
      }
    }
  }

  /** PUT /roles/{id} never makes two roles share a name: a changed name is checked. */
  lemma UpdateRoleKeepsRoleNamesUnique(st: DbState, roleId: Option<string>, body: Body, now: int)
    requires RoleNamesUnique(st.roles)
    ensures RoleNamesUnique(UpdateRole(st, roleId, body, now).state.roles)
  {
    if UpdateRole(st, roleId, body, now).response.Ok? {
      var i := RoleIndex(st.roles, roleId);
      var roles := UpdateRole(st, roleId, body, now).state.roles;
      assert roles == st.roles[i := ReplacedRole(st.roles[i], body, now)];
      forall a, b | 0 <= a < b < |roles| ensures roles[a].name != roles[b].name {
        if a != i && b != i {
          assert roles[a] == st.roles[a] && roles[b] == st.roles[b];
        } else {
          var j := if a == i then b else a;
          assert roles[j] == st.roles[j];
          if j < i {
            assert st.roles[j].name != st.roles[i].name;
          } else {
            assert st.roles[i].name != st.roles[j].name;
          }
        }
      }
    }
  }

  /** DELETE /roles/{id} never makes two roles share a name. */
  lemma RemoveRoleKeepsRoleNamesUnique(st: DbState, roleId: Option<string>, now: int)
    requires RoleNamesUnique(st.roles)
    ensures RoleNamesUnique(RemoveRole(st, roleId, now).state.roles)
  {
    if RemoveRole(st, roleId, now).response.Ok? {
      var i := RoleIndex(st.roles, roleId);
      var s := Splice(st.roles, i);
      forall a, b | 0 <= a < b < |s| ensures s[a].name != s[b].name {
        var a', b' := if a < i then a else a + 1, if b < i then b else b + 1;
        assert s[a] == st.roles[a'] && s[b] == st.roles[b'];
      }
    }
  }

  /** Every POST, PUT and DELETE keeps role names distinct, with no other assumption on the store. */
  lemma RequestsKeepRoleNamesUnique(st: DbState, endpoint: string, body: Body, now: int)
    requires RoleNamesUnique(st.roles)
    ensures RoleNamesUnique(OnPost(st, endpoint, body, now).state.roles)
    ensures RoleNamesUnique(OnPut(st, endpoint, body, now).state.roles)
    ensures RoleNamesUnique(OnDelete(st, endpoint, now).state.roles)
  {
    CreateRoleKeepsRoleNamesUnique(st, body, now);
    UpdateRoleKeepsRoleNamesUnique(st, PathId(endpoint), body, now);
    RemoveRoleKeepsRoleNamesUnique(st, PathId(endpoint), now);
  }

  // ------------------------------------------------- runs from the seed

  /** One mutating request. */
  datatype Request =
    | PostRequest(endpoint: string, body: Body, now: int)
    | PutRequest(endpoint: string, body: Body, now: int)
    | DeleteRequest(endpoint: string, now: int)

  /** The store after serving one request. */
  function Step(st: DbState, r: Request): DbState
  {
    match r
    case PostRequest(e, b, t) => OnPost(st, e, b, t).state
    case PutRequest(e, b, t) => OnPut(st, e, b, t).state
    case DeleteRequest(e, t) => OnDelete(st, e, t).state
  }

  /** The store after `reqs`, served one after the other from `st`. */
  function Run(st: DbState, reqs: seq<Request>): DbState
    decreases |reqs|
  {
    if reqs == [] then st else Run(Step(st, reqs[0]), reqs[1..])
  }

  /**
   * Role names stay distinct along any run, even one whose requests break
   * e-mail uniqueness or role references.
   */
  lemma {:induction false} RoleNamesUniqueAlways(st: DbState, reqs: seq<Request>)
    requires RoleNamesUnique(st.roles)
    ensures RoleNamesUnique(Run(st, reqs).roles)
    decreases |reqs|
  {
    if reqs != [] {
      var r := reqs[0];
      match r {
        case PostRequest(e, b, t) => RequestsKeepRoleNamesUnique(st, e, b, t);
        case PutRequest(e, b, t) => RequestsKeepRoleNamesUnique(st, e, b, t);
        case DeleteRequest(e, t) => RemoveRoleKeepsRoleNamesUnique(st, PathId(e), t);
      }
      RoleNamesUniqueAlways(Step(st, r), reqs[1..]);
    }
  }

  /** From the seed, role names are distinct after any sequence of requests. */
  lemma SeedRoleNamesUniqueAlways(reqs: seq<Request>)
    ensures RoleNamesUnique(Run(Seed, reqs).roles)
  {
    SeedDistinct();
    RoleNamesUniqueAlways(Seed, reqs);
  }
}
