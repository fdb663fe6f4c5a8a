/**
 * The read-only GET handlers over the store's collections: user, role and
 * audit-log listings. Each works on a copy of a collection, filters it (and,
 * for audit logs, sorts it newest first) and returns the copy.
 */
module Listing {
  import opened Records
  import opened Text
  import opened Seqs
  import opened Api

  // ---------------------------------------------------------------- users

  /** The lower-cased name or e-mail of `u` contains `query`. */
  predicate MatchesQuery(u: User, query: string)
  {
    Includes(Lower(u.name), query) || Includes(Lower(u.email), query)
  }

  /** `params.isActive === "true" || params.isActive === true`. */
  predicate IsTrueParam(p: Param)
  {
    p == Str("true") || p == Bool(true)
  }

  function QueryTest(query: string): User -> bool
  {
    (u: User) => MatchesQuery(u, query)
  }

  function RoleIdTest(roleId: string): User -> bool
  {
    (u: User) => u.roleId == roleId
  }

  function ActiveTest(active: bool): User -> bool
  {
    (u: User) => u.isActive == active
  }

  /** GET /users: the search filter, then the role filter, then the active-state filter. */
  function ListUsers(users: seq<User>, params: Params): seq<User>
  {
    var byQuery :=
      if Given(params, "q") then Filter(users, QueryTest(Lower(ParamString(params["q"])))) else users;
    var byRole :=
      if Given(params, "roleId") then Filter(byQuery, RoleIdTest(ParamString(params["roleId"]))) else byQuery;
    if "isActive" in params then Filter(byRole, ActiveTest(IsTrueParam(params["isActive"]))) else byRole
  }

  /**
   * The user-list conditions as one test: every supplied filter holds. A falsy
   * `q` or `roleId` imposes nothing; `isActive` applies whenever it is given.
   */
  predicate UserSelected(params: Params, u: User)
  {
    && (Given(params, "q") ==> MatchesQuery(u, Lower(ParamString(params["q"]))))
    && (Given(params, "roleId") ==> u.roleId == ParamString(params["roleId"]))
    && ("isActive" in params ==> u.isActive == IsTrueParam(params["isActive"]))
  }

  function SelectedTest(params: Params): User -> bool
  {
    (u: User) => UserSelected(params, u)
  }

  /** GET /users returns, in stored order, exactly the users that pass every filter. */
  lemma ListUsersSelects(users: seq<User>, params: Params)
    ensures ListUsers(users, params) == Filter(users, SelectedTest(params))
  {
    var qOn, rOn, aOn := Given(params, "q"), Given(params, "roleId"), "isActive" in params;
    var p1 := (u: User) => qOn ==> MatchesQuery(u, Lower(ParamString(params["q"])));
    var p2 := (u: User) => p1(u) && (rOn ==> u.roleId == ParamString(params["roleId"]));
    var p3 := (u: User) => p2(u) && (aOn ==> u.isActive == IsTrueParam(params["isActive"]));
    var s1 := if qOn then Filter(users, QueryTest(Lower(ParamString(params["q"])))) else users;
    assert s1 == Filter(users, p1) by {
      if qOn {
        FilterSameTest(users, QueryTest(Lower(ParamString(params["q"]))), p1);
      } else {
        FilterKeepsAll(users, p1);
      }
    }
    var s2 := if rOn then Filter(s1, RoleIdTest(ParamString(params["roleId"]))) else s1;
    assert s2 == Filter(users, p2) by {
      if rOn {
        FilterFilter(users, p1, RoleIdTest(ParamString(params["roleId"])), p2);
      } else {
        FilterSameTest(users, p1, p2);
      }
    }
    var s3 := if aOn then Filter(s2, ActiveTest(IsTrueParam(params["isActive"]))) else s2;
    assert s3 == Filter(users, p3) by {
      if aOn {
        FilterFilter(users, p2, ActiveTest(IsTrueParam(params["isActive"])), p3);
      } else {
        FilterSameTest(users, p2, p3);
      }
    }
    FilterSameTest(users, p3, SelectedTest(params));
  }

  /**
   * The active-state filter: "true" or true selects the active users, any
   * other given value (such as "false" or false) the inactive ones.
   */
  lemma ListUsersByActiveState(users: seq<User>, params: Params)
    requires "isActive" in params
    ensures forall u :: u in ListUsers(users, params) ==>
              u.isActive == (params["isActive"] == Str("true") || params["isActive"] == Bool(true))
    ensures params["isActive"] in {Str("false"), Bool(false)} ==>
              forall u :: u in ListUsers(users, params) ==> !u.isActive
  {
    ListUsersSelects(users, params);
  }

  /** The search is case-insensitive in the query: a query and its lower case list the same users. */
  lemma ListUsersIgnoresQueryCase(users: seq<User>, params: Params, q: string)
    ensures ListUsers(users, params["q" := Str(q)]) == ListUsers(users, params["q" := Str(Lower(q))])
  {
    LowerAt(q);
    LowerIdempotent(q);
    var a, b := params["q" := Str(q)], params["q" := Str(Lower(q))];
    assert Given(a, "roleId") == Given(b, "roleId") && Given(a, "q") == Given(b, "q");
  }

  // ---------------------------------------------------------------- roles

  function RoleQueryTest(query: string): Role -> bool
  {
    (r: Role) => Includes(Lower(r.name), query)
  }

  /**
   * GET /roles: the stored roles whose lower-cased name contains the
   * lower-cased `q`, in stored order; all of them when `q` is falsy.
   */
  function ListRoles(roles: seq<Role>, params: Params): (r: seq<Role>)
    ensures !Given(params, "q") ==> r == roles
    ensures Given(params, "q") ==> r == Filter(roles, RoleQueryTest(Lower(ParamString(params["q"]))))
    ensures Given(params, "q") ==>
              && (forall i :: 0 <= i < |r| ==> r[i] in roles && Includes(Lower(r[i].name), Lower(ParamString(params["q"]))))
              && (forall i :: 0 <= i < |roles| && Includes(Lower(roles[i].name), Lower(ParamString(params["q"]))) ==> roles[i] in r)
  {
    if Given(params, "q") then Filter(roles, RoleQueryTest(Lower(ParamString(params["q"])))) else roles
  }

  // ----------------------------------------------------------- audit logs

  /** Newest first: timestamps never increase along the sequence. */
  predicate NewestFirstOrder(s: seq<AuditLog>)
  {
    forall i, j | 0 <= i < j < |s| :: s[i].timestamp >= s[j].timestamp
  }

  /** Inserts `x` after every entry at least as new, keeping the order newest first. */
  function InsertByTime(sorted: seq<AuditLog>, x: AuditLog): seq<AuditLog>
  {
    if sorted == [] then [x]
    else if x.timestamp > sorted[0].timestamp then [x] + sorted
    else [sorted[0]] + InsertByTime(sorted[1..], x)
  }

  /**
   * `[...logs].sort((a, b) => b.timestamp - a.timestamp)`: JavaScript's sort is
   * stable, so entries with equal timestamps keep their stored order.
   */
  function NewestFirst(logs: seq<AuditLog>): seq<AuditLog>
  {
    if logs == [] then [] else InsertByTime(NewestFirst(logs[..|logs| - 1]), logs[|logs| - 1])
  }

  function AtTime(t: int): AuditLog -> bool
  {
    (l: AuditLog) => l.timestamp == t
  }

  lemma {:induction false} InsertByTimeElements(s: seq<AuditLog>, x: AuditLog)
    ensures multiset(InsertByTime(s, x)) == multiset(s) + multiset{x}
  {
    if s != [] && x.timestamp <= s[0].timestamp {
      InsertByTimeElements(s[1..], x);
      assert s == [s[0]] + s[1..];
    }
  }

  /** An entry no older than every entry of a newest-first sequence may go in front. */
  lemma ConsNewestFirst(a: AuditLog, r: seq<AuditLog>)
    requires NewestFirstOrder(r)
    requires forall j :: 0 <= j < |r| ==> r[j].timestamp <= a.timestamp
    ensures NewestFirstOrder([a] + r)
  {
    var s := [a] + r;
    forall i, j | 0 <= i < j < |s| ensures s[i].timestamp >= s[j].timestamp {
      if i > 0 {
        assert s[i] == r[i - 1] && s[j] == r[j - 1];
      } else {
        assert s[j] == r[j - 1];
      }
    }
  }

  lemma {:induction false} InsertByTimeSorted(s: seq<AuditLog>, x: AuditLog)
    requires NewestFirstOrder(s)
    ensures NewestFirstOrder(InsertByTime(s, x))
  {
    if s == [] {
    } else if x.timestamp > s[0].timestamp {
      forall j | 0 <= j < |s| ensures s[j].timestamp <= x.timestamp {
        assert s[j].timestamp <= s[0].timestamp;
      }
      ConsNewestFirst(x, s);
    } else {
      var rest := InsertByTime(s[1..], x);
      InsertByTimeSorted(s[1..], x);
      InsertByTimeElements(s[1..], x);
      forall j | 0 <= j < |rest| ensures rest[j].timestamp <= s[0].timestamp {
        var y := rest[j];
        assert y in multiset(rest);
        if y != x {
          assert y in multiset(s[1..]);
          var k :| 0 <= k < |s[1..]| && s[1..][k] == y;
          assert s[k + 1] == y;
        }
      }
      ConsNewestFirst(s[0], rest);
    }
  }

  lemma NewestFirstTail(s: seq<AuditLog>)
    requires s != [] && NewestFirstOrder(s)
    ensures NewestFirstOrder(s[1..])
  {
    forall i, j | 0 <= i < j < |s[1..]| ensures s[1..][i].timestamp >= s[1..][j].timestamp {
      assert s[1..][i] == s[i + 1] && s[1..][j] == s[j + 1];
    }
  }

  /** An entry newer than all others goes in front without reordering any timestamp group. */
  lemma InsertInFrontStable(s: seq<AuditLog>, x: AuditLog, t: int)
    requires s != [] && NewestFirstOrder(s) && x.timestamp > s[0].timestamp
    ensures Filter([x] + s, AtTime(t)) == Filter(s, AtTime(t)) + Filter([x], AtTime(t))
  {
    var p := AtTime(t);
    FilterAppend([x], s, p);
    if x.timestamp == t {
      forall i | 0 <= i < |s| ensures !p(s[i]) {
        assert s[i].timestamp <= s[0].timestamp;
      }
      FilterNone(s, p);
    } else {
      FilterNone([x], p);
    }
  }

  /** An entry that goes behind the head keeps each timestamp group in order if it does so in the tail. */
  lemma InsertBehindStable(s: seq<AuditLog>, x: AuditLog, t: int)
    requires s != [] && x.timestamp <= s[0].timestamp
    requires Filter(InsertByTime(s[1..], x), AtTime(t)) == Filter(s[1..], AtTime(t)) + Filter([x], AtTime(t))
    ensures Filter(InsertByTime(s, x), AtTime(t)) == Filter(s, AtTime(t)) + Filter([x], AtTime(t))
  {
    var head, tail := [s[0]], s[1..];
    var rest := InsertByTime(tail, x);
    assert InsertByTime(s, x) == head + rest;
    assert head + tail == s;
    FilterPrefixShift(head, tail, rest, Filter([x], AtTime(t)), AtTime(t));
  }

  /** Inserting keeps, for each timestamp, the entries with that timestamp in arrival order. */
  lemma {:induction false} InsertByTimeStable(s: seq<AuditLog>, x: AuditLog, t: int)
    requires NewestFirstOrder(s)
    ensures Filter(InsertByTime(s, x), AtTime(t)) == Filter(s, AtTime(t)) + Filter([x], AtTime(t))
  {
    if s == [] {
      assert Filter(s, AtTime(t)) == [];
    } else if x.timestamp > s[0].timestamp {
      InsertInFrontStable(s, x, t);
    } else {
      NewestFirstTail(s);
      InsertByTimeStable(s[1..], x, t);
      InsertBehindStable(s, x, t);
    }
  }

  /** The listing order is newest first and holds exactly the stored entries. */
  lemma {:induction false} NewestFirstSorts(logs: seq<AuditLog>)
    ensures NewestFirstOrder(NewestFirst(logs))
    ensures multiset(NewestFirst(logs)) == multiset(logs)
  {
    if logs != [] {
      var init, last := logs[..|logs| - 1], logs[|logs| - 1];
      NewestFirstSorts(init);
      InsertByTimeSorted(NewestFirst(init), last);
      InsertByTimeElements(NewestFirst(init), last);
      assert logs == init + [last];
    }
  }

  /** The sort is stable: entries sharing a timestamp keep their stored order. */
  lemma {:induction false} NewestFirstStable(logs: seq<AuditLog>, t: int)
    ensures Filter(NewestFirst(logs), AtTime(t)) == Filter(logs, AtTime(t))
  {
    if logs != [] {
      var init, last := logs[..|logs| - 1], logs[|logs| - 1];
      var sorted := NewestFirst(init);
      assert NewestFirst(logs) == InsertByTime(sorted, last);
      NewestFirstStable(init, t);
      NewestFirstSorts(init);
      InsertByTimeStable(sorted, last, t);
      assert logs == init + [last];
      FilterAppend(init, [last], AtTime(t));
    }
  }

  /** Filtering a newest-first sequence leaves it newest first. */
  lemma {:induction false} FilterKeepsNewestFirst(s: seq<AuditLog>, p: AuditLog -> bool)
    requires NewestFirstOrder(s)
    ensures NewestFirstOrder(Filter(s, p))
  {
    if s != [] {
      NewestFirstTail(s);
      FilterKeepsNewestFirst(s[1..], p);
      var rest := Filter(s[1..], p);
      if p(s[0]) {
        forall j | 0 <= j < |rest| ensures rest[j].timestamp <= s[0].timestamp {
          assert rest[j] in s[1..];
          var k :| 0 <= k < |s[1..]| && s[1..][k] == rest[j];
          assert s[k + 1] == rest[j];
        }
        ConsNewestFirst(s[0], rest);
        assert Filter(s, p) == [s[0]] + rest;
      } else {
        assert Filter(s, p) == rest;
      }
    }
  }

  function MessageTest(query: string): AuditLog -> bool
  {
    (l: AuditLog) => Includes(Lower(l.message), query)
  }

  function ActionTest(action: string): AuditLog -> bool
  {
    (l: AuditLog) => ActionName(l.action) == action
  }

  function EntityTest(entity: string): AuditLog -> bool
  {
    (l: AuditLog) => EntityName(l.entity) == entity
  }

  /** GET /audit-logs: sorted newest first, then filtered by message, action and entity. */
  function ListAuditLogs(logs: seq<AuditLog>, params: Params): seq<AuditLog>
  {
    var sorted := NewestFirst(logs);
    var byQuery :=
      if Given(params, "q") then Filter(sorted, MessageTest(Lower(ParamString(params["q"])))) else sorted;
    var byAction :=
      if Given(params, "action") then Filter(byQuery, ActionTest(ParamString(params["action"]))) else byQuery;
    if Given(params, "entity") then Filter(byAction, EntityTest(ParamString(params["entity"]))) else byAction
  }

  /** The audit-log conditions as one test: every supplied filter holds. */
  predicate LogSelected(params: Params, l: AuditLog)
  {
    && (Given(params, "q") ==> Includes(Lower(l.message), Lower(ParamString(params["q"]))))
    && (Given(params, "action") ==> ActionName(l.action) == ParamString(params["action"]))
    && (Given(params, "entity") ==> EntityName(l.entity) == ParamString(params["entity"]))
  }

  function LogSelectedTest(params: Params): AuditLog -> bool
  {
    (l: AuditLog) => LogSelected(params, l)
  }

  /** GET /audit-logs is one filter, by every supplied condition, of the newest-first order. */
  lemma ListAuditLogsFilters(logs: seq<AuditLog>, params: Params)
    ensures ListAuditLogs(logs, params) == Filter(NewestFirst(logs), LogSelectedTest(params))
  {
    var sorted := NewestFirst(logs);
    var qOn, aOn, eOn := Given(params, "q"), Given(params, "action"), Given(params, "entity");
    var p1 := (l: AuditLog) => qOn ==> Includes(Lower(l.message), Lower(ParamString(params["q"])));
    var p2 := (l: AuditLog) => p1(l) && (aOn ==> ActionName(l.action) == ParamString(params["action"]));
    var p3 := (l: AuditLog) => p2(l) && (eOn ==> EntityName(l.entity) == ParamString(params["entity"]));
    var s1 := if qOn then Filter(sorted, MessageTest(Lower(ParamString(params["q"])))) else sorted;
    assert s1 == Filter(sorted, p1) by {
      if qOn {
        FilterSameTest(sorted, MessageTest(Lower(ParamString(params["q"]))), p1);
      } else {
        FilterKeepsAll(sorted, p1);
      }
    }
    var s2 := if aOn then Filter(s1, ActionTest(ParamString(params["action"]))) else s1;
    assert s2 == Filter(sorted, p2) by {
      if aOn {
        FilterFilter(sorted, p1, ActionTest(ParamString(params["action"])), p2);
      } else {
        FilterSameTest(sorted, p1, p2);
      }
    }
    var s3 := if eOn then Filter(s2, EntityTest(ParamString(params["entity"]))) else s2;
    assert s3 == Filter(sorted, p3) by {
      if eOn {
        FilterFilter(sorted, p2, EntityTest(ParamString(params["entity"])), p3);
      } else {
        FilterSameTest(sorted, p2, p3);
      }
    }
    FilterSameTest(sorted, p3, LogSelectedTest(params));
  }

  /**
   * GET /audit-logs lists, newest first, exactly the stored entries that pass
   * every filter; the stored log itself is not touched.
   */
  lemma ListAuditLogsSelects(logs: seq<AuditLog>, params: Params)
    ensures NewestFirstOrder(ListAuditLogs(logs, params))
    ensures forall l :: l in ListAuditLogs(logs, params) <==> l in logs && LogSelected(params, l)
  {
    var sorted := NewestFirst(logs);
    NewestFirstSorts(logs);
    ListAuditLogsFilters(logs, params);
    FilterKeepsNewestFirst(sorted, LogSelectedTest(params));
    var r := ListAuditLogs(logs, params);
    forall l ensures l in r <==> l in logs && LogSelected(params, l) {
      if l in r {
        var i :| 0 <= i < |r| && r[i] == l;
        assert l in multiset(sorted);
      }
      if l in logs && LogSelected(params, l) {
        assert l in multiset(sorted);
        var i :| 0 <= i < |sorted| && sorted[i] == l;
      }
    }
  }
}
