/**
 * Concrete request sequences, starting from the seeded store, that show where
 * the handlers do not keep the store's intended invariants: the PUT checks
 * test truthiness and so wave empty strings through, and every created user
 * gets the same id.
 */
module QuirkExamples {
  import opened Wrappers
  import opened Records
  import opened Text
  import opened Db
  import opened Api
  import opened Handlers
  import InvariantProps
  import RequestProps

  function EmailOnly(email: string): Body
  {
    Body(None, Some(email), None, None, None, None)
  }

  function RoleIdOnly(roleId: string): Body
  {
    Body(None, None, Some(roleId), None, None, None)
  }

  function NewUser(name: string, email: string, roleId: string): Body
  {
    Body(Some(name), Some(email), Some(roleId), None, None, None)
  }

  /** Blanking a user's e-mail through PUT /users/{id} is accepted and stored. */
  lemma BlankEmailAccepted(st: DbState, i: nat, id: string)
    requires i < |st.users| && st.users[i].id == id
    requires forall j | 0 <= j < i :: st.users[j].id != id
    ensures var o := UpdateUser(st, Some(id), EmailOnly(""), 0);
      && o.response.Ok?
      && |o.state.users| == |st.users|
      && o.state.users[i].email == ""
      && forall j | 0 <= j < |st.users| && j != i :: o.state.users[j] == st.users[j]
  {
    assert UserIndex(st.users, Some(id)) == i;
    RequestProps.UpdateUserMerges(st, Some(id), EmailOnly(""), 0);
  }

  /**
   * Two PUTs that blank the e-mails of users 1 and 2 leave two users with the
   * e-mail "" (`HandlerProps.UserRoute`: PUT "/users/1" is `UpdateUser` with id "1").
   */
  lemma EmptyEmailBreaksUniqueness()
    ensures var s1 := UpdateUser(Seed, Some("1"), EmailOnly(""), 0);
      var s2 := UpdateUser(s1.state, Some("2"), EmailOnly(""), 0);
      && Invariant(Seed)
      && s1.response.Ok? && s2.response.Ok?
      && !EmailsUnique(s2.state.users)
  {
    SeedSatisfiesInvariant();
    BlankEmailAccepted(Seed, 0, "1");
    var s1 := UpdateUser(Seed, Some("1"), EmailOnly(""), 0);
    assert s1.state.users[1] == SeedUsers[1];
    BlankEmailAccepted(s1.state, 1, "2");
    var s2 := UpdateUser(s1.state, Some("2"), EmailOnly(""), 0);
    assert s2.state.users[0].email == "" == s2.state.users[1].email;
  }

  /** A PUT that sets user 1's role id to "" leaves a user whose role does not exist. */
  lemma EmptyRoleIdBreaksReferences()
    ensures var s1 := UpdateUser(Seed, Some("1"), RoleIdOnly(""), 0);
      && Invariant(Seed)
      && s1.response.Ok?
      && !RoleRefsResolve(s1.state.users, s1.state.roles)
  {
    SeedSatisfiesInvariant();
    assert UserIndex(Seed.users, Some("1")) == 0;
    RequestProps.UpdateUserMerges(Seed, Some("1"), RoleIdOnly(""), 0);
    var s1 := UpdateUser(Seed, Some("1"), RoleIdOnly(""), 0);
    assert s1.state.users[0].roleId == "";
    assert !HasRole(SeedRoles, "");
  }

  /**
   * With two users sharing an id, a PUT to that id reaches only the first of
   * them, and giving it the second one's e-mail passes the duplicate check,
   * which skips users carrying the same id.
   */
  lemma SharedIdEmailTakeover(st: DbState, i: nat, k: nat, email: string)
    requires i < k < |st.users| && st.users[i].id == st.users[k].id
    requires forall j | 0 <= j < i :: st.users[j].id != st.users[i].id
    requires st.users[k].email == email && st.users[i].email != email
    requires forall j | 0 <= j < |st.users| && st.users[j].email == email :: j == k
    ensures var o := UpdateUser(st, Some(st.users[i].id), EmailOnly(email), 2);
      && o.response.Ok?
      && o.state.users[i].email == email == o.state.users[k].email
      && !EmailsUnique(o.state.users)
  {
    var id := Some(st.users[i].id);
    assert UserIndex(st.users, id) == i;
    assert !EmailTakenByOther(st.users, email, id);
    RequestProps.UpdateUserMerges(st, id, EmailOnly(email), 2);
  }

  /**
   * Two POST /users requests create two users with the same id, and a PUT to
   * that id then leaves two users with one e-mail.
   */
  lemma SharedIdBreaksEmailUniqueness()
    ensures var p1 := CreateUser(Seed, NewUser("Lee", "lee@example.com", "2"), 0);
      var p2 := CreateUser(p1.state, NewUser("Park", "park@example.com", "2"), 1);
      var s := UpdateUser(p2.state, Some(StaleUserId), EmailOnly("park@example.com"), 2);
      && p1.response.Ok? && p2.response.Ok? && s.response.Ok?
      && EmailsUnique(p2.state.users)
      && !EmailsUnique(s.state.users)
  {
    var p1 := CreatedFromSeed(NewUser("Lee", "lee@example.com", "2"));
    var p2 := CreatedAfter(p1, NewUser("Park", "park@example.com", "2"));
    SharedIdEmailTakeover(p2.state, 3, 4, "park@example.com");
  }

  /** The first POST of the sequence above: a fourth user with the stale id. */
  lemma CreatedFromSeed(lee: Body) returns (p1: Outcome)
    requires lee == NewUser("Lee", "lee@example.com", "2")
    ensures p1 == CreateUser(Seed, lee, 0)
    ensures p1.response.Ok? && EmailsUnique(p1.state.users)
    ensures |p1.state.users| == 4 && p1.state.users[..3] == SeedUsers && p1.state.roles == SeedRoles
    ensures p1.state.users[3].id == StaleUserId && p1.state.users[3].email == "lee@example.com"
  {
    SeedDistinct();
    assert RoleIndex(SeedRoles, Some("2")) == 1;
    assert !EmailTaken(Seed.users, "lee@example.com");
    p1 := CreateUser(Seed, lee, 0);
    RequestProps.CreateUserAppends(Seed, lee, 0);
    InvariantProps.EmailsUniqueAppend(SeedUsers, p1.response.payload.user);
  }

  /** The second POST: a fifth user with the same stale id. */
  lemma CreatedAfter(p1: Outcome, park: Body) returns (p2: Outcome)
    requires park == NewUser("Park", "park@example.com", "2")
    requires p1.response.Ok? && EmailsUnique(p1.state.users)
    requires |p1.state.users| == 4 && p1.state.users[..3] == SeedUsers && p1.state.roles == SeedRoles
    requires p1.state.users[3].id == StaleUserId && p1.state.users[3].email == "lee@example.com"
    ensures p2 == CreateUser(p1.state, park, 1)
    ensures p2.response.Ok? && EmailsUnique(p2.state.users)
    ensures |p2.state.users| == 5
    ensures p2.state.users[3].id == StaleUserId && p2.state.users[4].id == StaleUserId
    ensures p2.state.users[3].email == "lee@example.com" && p2.state.users[4].email == "park@example.com"
    ensures forall j | 0 <= j < |p2.state.users| && p2.state.users[j].email == "park@example.com" :: j == 4
  {
    var users := p1.state.users;
    assert SeedRoles[0].id == "1" && SeedRoles[1].id == "2";
    assert RoleIndex(SeedRoles, Some("2")) == 1;
    assert !EmailTaken(users, "park@example.com") by {
      forall i | 0 <= i < 4 ensures users[i].email != "park@example.com" {
        if i < 3 {
          assert users[i] == users[..3][i] == SeedUsers[i];
          assert SeedUsers[i].email in {"admin@example.com", "hong@example.com", "kim@example.com"};
        }
      }
    }
    p2 := CreateUser(p1.state, park, 1);
    RequestProps.CreateUserAppends(p1.state, park, 1);
    InvariantProps.EmailsUniqueAppend(users, p2.response.payload.user);
    forall j | 0 <= j < 3 ensures p2.state.users[j].email != "park@example.com" {
      assert p2.state.users[j] == users[..3][j] == SeedUsers[j];
    }
  }
}
