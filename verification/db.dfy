/**
 * The in-memory record store: three collections (roles, users, audit-log
 * entries), three post-increment id counters, the seed data the store
 * starts with, and the audit recorder `AddAuditLog`.
 *
 * `DbState` is the value of the whole store; `Store` is the mutable object
 * the request handlers change in place, and `Store.State()` reads its value.
 */
module Db {
  import opened Wrappers
  import opened Records
  import opened Text
  import opened Seqs

  datatype DbState = DbState(
    roles: seq<Role>,
    users: seq<User>,
    auditLogs: seq<AuditLog>,
    userIdCounter: nat,
    roleIdCounter: nat,
    auditLogIdCounter: nat)

  // ------------------------------------------------------------ seed data

  /** The super administrator's name, also the default actor of audit entries. */
  const SuperAdminName: string := "최고관리자"
  const DefaultActorId: string := "1"

  /** The value every id counter starts with, one above the seed ids "1" to "3". */
  const FirstCounter: nat := 4

  // Seed dates in milliseconds since the epoch.
  const Jan10: int := 1704844800000
  const Jan15: int := 1705276800000
  const Jan20: int := 1705708800000
  const Feb01: int := 1706745600000
  const Feb08At0915: int := 1707383700000
  const Feb09At1430: int := 1707489000000
  const Feb10At1000: int := 1707559200000

  const SeedRoles: seq<Role> := [
    Role("1", SuperAdminName, Some("모든 권한"), ["read", "create", "update", "delete", "audit"], Jan10, Jan10),
    Role("2", "부관리자", Some("기본 관리 권한"), ["read", "create", "update"], Jan10, Jan10),
    Role("3", "조회자", Some("조회만 가능"), ["read"], Jan10, Jan10)
  ]

  const SeedUsers: seq<User> := [
    User("1", SuperAdminName, "admin@example.com", "1", true, Jan15, Jan15),
    User("2", "홍길동", "hong@example.com", "2", true, Jan20, Jan20),
    User("3", "김철수", "kim@example.com", "3", true, Feb01, Feb01)
  ]

  const SeedAuditLogs: seq<AuditLog> := [
    AuditLog("1", Login, UserEntity, "1", "1", SuperAdminName, "최고관리자가 로그인했습니다.", Feb10At1000),
    AuditLog("2", Create, UserEntity, "2", "1", SuperAdminName, "사용자 홍길동이 생성되었습니다.", Feb09At1430),
    AuditLog("3", Update, RoleEntity, "2", "1", SuperAdminName, "역할 부관리자가 수정되었습니다.", Feb08At0915)
  ]

  const Seed: DbState := DbState(SeedRoles, SeedUsers, SeedAuditLogs, FirstCounter, FirstCounter, FirstCounter)

  // -------------------------------------------------------------- lookups

  /** `usersDB.findIndex(u => u.id === id)`; an undefined id matches nothing. */
  function UserIndex(users: seq<User>, id: Option<string>): (i: int)
    ensures -1 <= i < |users|
    ensures 0 <= i ==> id == Some(users[i].id) && forall j :: 0 <= j < i ==> id != Some(users[j].id)
    ensures i == -1 <==> forall j :: 0 <= j < |users| ==> id != Some(users[j].id)
  {
    FindIndex(users, (u: User) => Some(u.id) == id)
  }

  /** `rolesDB.findIndex(r => r.id === id)`; also what `rolesDB.find` finds. */
  function RoleIndex(roles: seq<Role>, id: Option<string>): (i: int)
    ensures -1 <= i < |roles|
    ensures 0 <= i ==> id == Some(roles[i].id) && forall j :: 0 <= j < i ==> id != Some(roles[j].id)
    ensures i == -1 <==> forall j :: 0 <= j < |roles| ==> id != Some(roles[j].id)
  {
    FindIndex(roles, (r: Role) => Some(r.id) == id)
  }

  /** `usersDB.some(u => u.email === email)`. */
  predicate EmailTaken(users: seq<User>, email: string)
  {
    exists i | 0 <= i < |users| :: users[i].email == email
  }

  /** `usersDB.some(u => u.email === email && u.id !== id)`. */
  predicate EmailTakenByOther(users: seq<User>, email: string, id: Option<string>)
  {
    exists i | 0 <= i < |users| :: users[i].email == email && Some(users[i].id) != id
  }

  /** `rolesDB.some(r => r.name === name)`. */
  predicate RoleNameTaken(roles: seq<Role>, name: string)
  {
    exists i | 0 <= i < |roles| :: roles[i].name == name
  }

  /** `usersDB.some(u => u.roleId === id)`. */
  predicate RoleReferenced(users: seq<User>, id: Option<string>)
  {
    exists i | 0 <= i < |users| :: Some(users[i].roleId) == id
  }

  // ----------------------------------------------------------- invariants

  predicate EmailsUnique(users: seq<User>)
  {
    forall i, j | 0 <= i < j < |users| :: users[i].email != users[j].email
  }

  predicate UserIdsUnique(users: seq<User>)
  {
    forall i, j | 0 <= i < j < |users| :: users[i].id != users[j].id
  }

  predicate RoleNamesUnique(roles: seq<Role>)
  {
    forall i, j | 0 <= i < j < |roles| :: roles[i].name != roles[j].name
  }

  predicate RoleIdsUnique(roles: seq<Role>)
  {
    forall i, j | 0 <= i < j < |roles| :: roles[i].id != roles[j].id
  }

  predicate LogIdsUnique(logs: seq<AuditLog>)
  {
    forall i, j | 0 <= i < j < |logs| :: logs[i].id != logs[j].id
  }

  predicate HasRole(roles: seq<Role>, id: string)
  {
    exists j | 0 <= j < |roles| :: roles[j].id == id
  }

  /** Every user's `roleId` names a stored role. */
  predicate RoleRefsResolve(users: seq<User>, roles: seq<Role>)
  {
    forall i | 0 <= i < |users| :: HasRole(roles, users[i].roleId)
  }

  predicate PermissionsNonEmpty(roles: seq<Role>)
  {
    forall i | 0 <= i < |roles| :: |roles[i].permissions| > 0
  }

  /** `id` is the decimal form of a counter value already handed out. */
  predicate IssuedBelow(id: string, counter: nat)
  {
    exists k: nat | k < counter :: id == NatToString(k)
  }

  predicate RoleIdsIssued(roles: seq<Role>, counter: nat)
  {
    forall i | 0 <= i < |roles| :: IssuedBelow(roles[i].id, counter)
  }

  predicate LogIdsIssued(logs: seq<AuditLog>, counter: nat)
  {
    forall i | 0 <= i < |logs| :: IssuedBelow(logs[i].id, counter)
  }

  /** The invariants the store's handlers are meant to keep. */
  predicate Invariant(st: DbState)
  {
    && EmailsUnique(st.users)
    && RoleNamesUnique(st.roles)
    && RoleRefsResolve(st.users, st.roles)
    && PermissionsNonEmpty(st.roles)
    && RoleIdsIssued(st.roles, st.roleIdCounter)
    && RoleIdsUnique(st.roles)
    && LogIdsIssued(st.auditLogs, st.auditLogIdCounter)
    && LogIdsUnique(st.auditLogs)
  }

  /** An id handed out earlier differs from the next one, and stays handed out. */
  lemma IssuedIdIsFresh(id: string, counter: nat)
    requires IssuedBelow(id, counter)
    ensures id != NatToString(counter)
    ensures IssuedBelow(id, counter + 1)
  {
    var k: nat :| k < counter && id == NatToString(k);
    if id == NatToString(counter) {
      NatToStringInjective(k, counter);
    }
  }

  /** The seed satisfies every invariant, and its user ids are distinct. */
  lemma SeedSatisfiesInvariant()
    ensures Invariant(Seed)
    ensures UserIdsUnique(Seed.users)
  {
    SeedIdsIssued();
    SeedRefsResolve();
    SeedDistinct();
  }

  lemma SeedIdsIssued()
    ensures RoleIdsIssued(SeedRoles, FirstCounter) && LogIdsIssued(SeedAuditLogs, FirstCounter)
  {
    assert NatToString(1) == "1" && NatToString(2) == "2" && NatToString(3) == "3";
    assert IssuedBelow("1", FirstCounter) && IssuedBelow("2", FirstCounter) && IssuedBelow("3", FirstCounter);
  }

  lemma SeedDistinct()
    ensures EmailsUnique(SeedUsers) && UserIdsUnique(SeedUsers)
    ensures RoleNamesUnique(SeedRoles) && RoleIdsUnique(SeedRoles) && PermissionsNonEmpty(SeedRoles)
    ensures LogIdsUnique(SeedAuditLogs)
  {
  }

  lemma SeedRefsResolve()
    ensures RoleRefsResolve(SeedUsers, SeedRoles)
  {
    assert HasRole(SeedRoles, SeedUsers[0].roleId) by { assert SeedRoles[0].id == "1"; }
    assert HasRole(SeedRoles, SeedUsers[1].roleId) by { assert SeedRoles[1].id == "2"; }
    assert HasRole(SeedRoles, SeedUsers[2].roleId) by { assert SeedRoles[2].id == "3"; }
  }

  // --------------------------------------------------------- audit recorder

  /** The entry `addAuditLog` builds; an omitted actor is the super administrator. */
  function AuditEntry(
    id: nat, action: AuditAction, entity: AuditEntity, entityId: string, message: string,
    actorId: Option<string>, actorName: Option<string>, now: int): AuditLog
  {
    AuditLog(NatToString(id), action, entity, entityId,
             actorId.GetOr(DefaultActorId), actorName.GetOr(SuperAdminName), message, now)
  }

  /** The store after `addAuditLog`: one entry appended, the log counter advanced. */
  function Logged(
    st: DbState, action: AuditAction, entity: AuditEntity, entityId: string, message: string,
    actorId: Option<string>, actorName: Option<string>, now: int): DbState
  {
    var entry := AuditEntry(st.auditLogIdCounter, action, entity, entityId, message, actorId, actorName, now);
    st.(auditLogs := st.auditLogs + [entry], auditLogIdCounter := st.auditLogIdCounter + 1)
  }

  /**
   * `addAuditLog` appends exactly one entry and leaves the earlier ones and the
   * rest of the store untouched; the entry's id is the previous counter in
   * decimal, its fields are stored as passed, and the actor defaults to "1",
   * the super administrator.
   */
  lemma LoggedAppendsOne(
    st: DbState, action: AuditAction, entity: AuditEntity, entityId: string, message: string,
    actorId: Option<string>, actorName: Option<string>, now: int)
    ensures var st' := Logged(st, action, entity, entityId, message, actorId, actorName, now);
      && |st'.auditLogs| == |st.auditLogs| + 1
      && st'.auditLogs[..|st.auditLogs|] == st.auditLogs
      && st'.auditLogIdCounter == st.auditLogIdCounter + 1
      && st'.roles == st.roles && st'.users == st.users
      && st'.userIdCounter == st.userIdCounter && st'.roleIdCounter == st.roleIdCounter
    ensures var e := Logged(st, action, entity, entityId, message, actorId, actorName, now).auditLogs[|st.auditLogs|];
      && e.id == NatToString(st.auditLogIdCounter)
      && e.action == action && e.entity == entity && e.entityId == entityId
      && e.message == message && e.timestamp == now
      && (actorId.None? ==> e.actorId == "1")
      && (actorName.None? ==> e.actorName == "최고관리자")
  {
  }

  /** Appending an audit entry keeps every invariant: its id is fresh. */
  lemma LoggedKeepsInvariant(
    st: DbState, action: AuditAction, entity: AuditEntity, entityId: string, message: string,
    actorId: Option<string>, actorName: Option<string>, now: int)
    requires Invariant(st)
    ensures Invariant(Logged(st, action, entity, entityId, message, actorId, actorName, now))
  {
    var logs := Logged(st, action, entity, entityId, message, actorId, actorName, now).auditLogs;
    var n := |st.auditLogs|;
    forall i | 0 <= i < n
      ensures logs[i].id != logs[n].id && IssuedBelow(logs[i].id, st.auditLogIdCounter + 1)
    {
      IssuedIdIsFresh(st.auditLogs[i].id, st.auditLogIdCounter);
    }
    assert IssuedBelow(logs[n].id, st.auditLogIdCounter + 1);
  }

  // ---------------------------------------------------------------- store

  class Store {
    var roles: seq<Role>
    var users: seq<User>
    var auditLogs: seq<AuditLog>
    var userIdCounter: nat
    var roleIdCounter: nat
    var auditLogIdCounter: nat

    /** The value of the whole store. */
    function State(): DbState
      reads this
    {
      DbState(roles, users, auditLogs, userIdCounter, roleIdCounter, auditLogIdCounter)
    }

    /** The store as loaded: the seed records, every counter at 4. */
    constructor ()
      ensures State() == Seed
    {
      roles := SeedRoles;
      users := SeedUsers;
      auditLogs := SeedAuditLogs;
      userIdCounter := FirstCounter;
      roleIdCounter := FirstCounter;
      auditLogIdCounter := FirstCounter;
    }

    /** `newUserIdCounter()`: the current value, then the counter moves up by one. */
    method NewUserIdCounter() returns (n: nat)
      modifies this
      ensures n == old(userIdCounter)
      ensures State() == old(State()).(userIdCounter := n + 1)
    {
      n := userIdCounter;
      userIdCounter := userIdCounter + 1;
    }

    /** `newRoleIdCounter()`: the current value, then the counter moves up by one. */
    method NewRoleIdCounter() returns (n: nat)
      modifies this
      ensures n == old(roleIdCounter)
      ensures State() == old(State()).(roleIdCounter := n + 1)
    {
      n := roleIdCounter;
      roleIdCounter := roleIdCounter + 1;
    }

    /** `newAuditLogIdCounter()`: the current value, then the counter moves up by one. */
    method NewAuditLogIdCounter() returns (n: nat)
      modifies this
      ensures n == old(auditLogIdCounter)
      ensures State() == old(State()).(auditLogIdCounter := n + 1)
    {
      n := auditLogIdCounter;
      auditLogIdCounter := auditLogIdCounter + 1;
    }

    /** `addAuditLog`: appends the new entry and returns it. */
    method AddAuditLog(
      action: AuditAction, entity: AuditEntity, entityId: string, message: string,
      actorId: Option<string>, actorName: Option<string>, now: int)
      returns (log: AuditLog)
      modifies this
      ensures auditLogs == old(auditLogs) + [log]
      ensures log == AuditEntry(old(auditLogIdCounter), action, entity, entityId, message, actorId, actorName, now)
      ensures State() == Logged(old(State()), action, entity, entityId, message, actorId, actorName, now)
    {
      var id := auditLogIdCounter;
      auditLogIdCounter := auditLogIdCounter + 1;
      log := AuditLog(NatToString(id), action, entity, entityId,
                      actorId.GetOr(DefaultActorId), actorName.GetOr(SuperAdminName), message, now);
      auditLogs := auditLogs + [log];
    }
  }
}
