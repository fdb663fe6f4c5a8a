# Admin console mock back end, in Dafny

This project models the in-memory back end of an admin console. The back end
keeps three collections: roles, users and an audit log. A mock server answers
REST-style requests against them:

- GET lists or finds records.
- POST creates a user or a role.
- PUT updates one.
- DELETE removes one.

Every accepted mutation appends one audit-log entry. The model also covers
the two form validators that the console runs before it sends a user or a
role to the server.

The model's layers:

- **Records, store and seed** (`records.dfy`, `db.dfy`).
  - The store is a class `Db.Store`. Its fields are the three collections
    and the three id counters.
  - `AddAuditLog` and the counter methods update these fields in place.
  - `Db.DbState` is the value of the whole store.
  - `Db.Invariant` states what the handlers are meant to keep:
    - e-mails are unique;
    - role names are unique;
    - every user's role exists;
    - every role has at least one permission;
    - role ids and audit-log ids are unique and were issued by their counters.
- **Handlers as functions** (`handlers.dfy`, `listing.dfy`).
  - Each request is a function from the store before the request to the
    response and the store after it.
  - GET only reads the store, so it is a plain function of it.
- **Handlers in place** (`mock_server.dfy`).
  - POST, PUT and DELETE are methods on a `Db.Store`.
  - Each method checks in the source's order and returns an error before any
    change.
  - On success it pushes onto, assigns into or splices one collection and
    calls `AddAuditLog`.
  - Each method's postcondition ties the response and the new store to the
    handler function applied to the old store.
- **Properties** (`handler_props.dfy`, `request_props.dfy`,
  `invariant_props.dfy`, `quirk_examples.dfy`). Lemmas about the handler
  functions.
- **Validators** (`user_schema.dfy`, `role_schema.dfy`).
  - The password rule, the create and edit user forms, and the role form.
  - The e-mail format check belongs to the validation library and is a
    parameter `isEmail`.

Behaviours of the source that the model keeps as written:

- **Every created user gets the same id.** The create handler writes
  `String(newUserIdCounter)`: it converts the counter function to a string
  and never calls it. So the user counter never advances, and every created
  user gets the same id. The model writes that id as `Handlers.StaleUserId`,
  the function as written in the source. At run time the string is the
  function's compiled text, which a build may change; the model claims only
  that the id is the same for every created user.
  - `RequestProps.CreatedUsersShareId` proves two created users share an id.
  - `QuirkExamples.SharedIdBreaksEmailUniqueness` shows the result: a later
    PUT reaches only the first of them, and its duplicate check skips users
    with the same id. Two users then hold one e-mail.
- **Empty strings pass the PUT checks.** PUT /users tests `email` and `roleId`
  for truthiness but merges them with `??`. An empty e-mail or role id skips
  its check and is still stored (`QuirkExamples.EmptyEmailBreaksUniqueness`,
  `QuirkExamples.EmptyRoleIdBreaksReferences`). For this reason
  `InvariantProps.UpdateUserKeepsInvariant` assumes distinct user ids and a
  non-empty e-mail and role id.
- **Unmatched routes answer differently by method.** A GET to an unknown
  route answers 404 NOT_FOUND. POST, PUT and DELETE answer 400 BAD_REQUEST.
- **Audit timestamps are not in order.** Entries are appended in call order,
  but their timestamps are not in insertion order: the seed entries are
  stored newest first. Only the GET listing sorts them. The sort is stable,
  as JavaScript's `Array.prototype.sort` is.

## Model

| member | source | states |
|---|---|---|
| Db.Store.constructor | src/mocks/db.ts:15-110 | the store starts with the three seeded roles, users and audit entries and every id counter at 4 |
| Db.SeedSatisfiesInvariant | src/mocks/db.ts:15-105 | the seed data has unique e-mails, role names, role ids, log ids and user ids; every seeded user's role exists; every role has a permission; the seed ids are below the counters |
| Db.Store.NewUserIdCounter | src/mocks/db.ts:112 | returns the counter's value and leaves it one higher, nothing else changes |
| Db.Store.NewRoleIdCounter | src/mocks/db.ts:113 | returns the counter's value and leaves it one higher, nothing else changes |
| Db.Store.NewAuditLogIdCounter | src/mocks/db.ts:114 | returns the counter's value and leaves it one higher, nothing else changes |
| Db.Store.AddAuditLog | src/mocks/db.ts:119-139 | appends exactly the returned entry to the log. The entry's id is the previous log counter in decimal, the counter advances by one, and the actor defaults to "1" / 최고관리자 |
| Db.AuditEntry | src/mocks/db.ts:119-135 | the definition of the entry `addAuditLog` builds: the id is the log counter in decimal, and an omitted actor is "1" / 최고관리자 (its properties are in `Db.LoggedAppendsOne`) |
| Db.Logged | src/mocks/db.ts:127-138 | the definition of the store after `addAuditLog`: the entry appended and the log counter advanced (its properties are in `Db.LoggedAppendsOne` and `Db.LoggedKeepsInvariant`) |
| Db.LoggedAppendsOne | src/mocks/db.ts:119-139 | adding an audit entry keeps the earlier entries, roles, users and other counters. It adds one entry whose fields are the arguments |
| Db.IssuedIdIsFresh | src/mocks/db.ts:128 | an id issued from a counter earlier differs from the counter's current value in decimal |
| Db.LoggedKeepsInvariant | src/mocks/db.ts:127-137 | adding an audit entry keeps every store invariant; the new entry's id is unique |
| Db.UserIndex | src/mocks/mockServer.ts:269 | the index of the first user with the id, or -1 exactly when no user has it |
| Db.RoleIndex | src/mocks/mockServer.ts:327 | the index of the first role with the id, or -1 exactly when no role has it |
| Handlers.PathId | src/mocks/mockServer.ts:78 | the id read from a path (`endpoint.split("/")[2]`) never contains "/" |
| Text.JoinSplit | src/mocks/mockServer.ts:78 | splitting a path at "/" loses nothing: joining the parts with "/" gives back the path |
| Handlers.OnGet | src/mocks/mockServer.ts:42-149 | GET fails only with NOT_FOUND. A single user or role it returns is stored and carries the id in the path |
| Listing.ListUsers | src/mocks/mockServer.ts:49-74 | the definition of GET /users: the search, role and active-state filters applied in turn to the stored users (no contract of its own; its meaning is `Listing.ListUsersSelects`) |
| Listing.ListUsersSelects | src/mocks/mockServer.ts:49-74 | GET /users returns, in stored order, exactly the users passing every supplied filter (search, role, active state) |
| Listing.ListUsersByActiveState | src/mocks/mockServer.ts:67-71 | with `isActive` given, "true" or true lists active users only, and "false" or false inactive users only |
| Listing.ListUsersIgnoresQueryCase | src/mocks/mockServer.ts:53-59 | a search query and its lower-cased form list the same users |
| Listing.ListRoles | src/mocks/mockServer.ts:91-100 | GET /roles returns all roles without a query. With one it returns, in stored order, exactly the stored roles whose lower-cased name contains the lower-cased query |
| Listing.NewestFirst | src/mocks/mockServer.ts:118-120 | the definition of the audit sort, an insertion sort by descending timestamp (no contract of its own; its meaning is `Listing.NewestFirstSorts` and `Listing.NewestFirstStable`) |
| Listing.NewestFirstSorts | src/mocks/mockServer.ts:118-120 | the audit sort orders entries newest first and is a permutation of the stored log |
| Listing.NewestFirstStable | src/mocks/mockServer.ts:118-120 | the audit sort is stable: entries sharing a timestamp keep their stored order |
| Listing.ListAuditLogs | src/mocks/mockServer.ts:117-142 | the definition of GET /audit-logs: the sorted copy filtered by message, action and entity in turn (no contract of its own; its meaning is `Listing.ListAuditLogsSelects`) |
| Listing.ListAuditLogsFilters | src/mocks/mockServer.ts:117-142 | GET /audit-logs is the newest-first order filtered by the message query, the action and the entity together |
| Listing.ListAuditLogsSelects | src/mocks/mockServer.ts:117-142 | the audit listing is newest first and holds exactly the stored entries that pass every supplied filter |
| HandlerProps.RecordPathId | src/mocks/mockServer.ts:78 | the third "/"-separated segment of "/collection/id" and of "/collection/id/rest" is the id |
| HandlerProps.PrefixedPathHasId | src/mocks/mockServer.ts:77-78 | every path under "/users/" or "/roles/" has a (possibly empty) id segment |
| HandlerProps.GetUserById | src/mocks/mockServer.ts:76-88 | GET /users/{id} succeeds exactly when a user has the id and returns such a stored user; otherwise NOT_FOUND with the user message |
| HandlerProps.GetRoleById | src/mocks/mockServer.ts:102-114 | GET /roles/{id} succeeds exactly when a role has the id and returns such a stored role; otherwise NOT_FOUND with the role message |
| HandlerProps.UnmatchedRoutes | src/mocks/mockServer.ts:144-148 | each verb judged on its own routes: GET on a path it does not serve is NOT_FOUND with status 404; POST to anything but "/users" or "/roles" (so also "/users/1"), and PUT or DELETE to anything outside "/users/" and "/roles/" (so also "/users"), are BAD_REQUEST with status 400 and the store unchanged (lines 253-257, 380-384, 454-458) |
| HandlerProps.AuditLogsReadOnly | src/mocks/mockServer.ts:117-142 | "/audit-logs" is served by GET only; POST, PUT and DELETE to it are BAD_REQUEST |
| HandlerProps.UserRoute | src/mocks/mockServer.ts:267-269 | a PUT or DELETE to "/users/{id}" reaches the user handlers with that id |
| HandlerProps.RoleRoute | src/mocks/mockServer.ts:325-327 | a PUT or DELETE to "/roles/{id}" reaches the role handlers with that id |
| HandlerProps.PostAuditsOnce | src/mocks/mockServer.ts:154-258 | a refused request changes nothing. An accepted one appends exactly one CREATE entry for the entity, about the created record (its id is the returned record's), with the next log id, keeping the earlier entries |
| HandlerProps.PutAuditsOnce | src/mocks/mockServer.ts:263-385 | a refused request changes nothing. An accepted one appends exactly one UPDATE entry for the entity, about the record whose id the path gives, with the next log id, keeping the earlier entries |
| HandlerProps.DeleteAuditsOnce | src/mocks/mockServer.ts:390-459 | a refused request changes nothing. An accepted one appends exactly one DELETE entry for the entity, about the record whose id the path gives, with the next log id, keeping the earlier entries |
| Handlers.CreatedUser | src/mocks/mockServer.ts:188-196 | the definition of the user POST /users builds: the stale id, the body's fields, active unless false is sent (its properties are in `RequestProps.CreateUserAppends`) |
| Handlers.CreatedRole | src/mocks/mockServer.ts:232-239 | the definition of the role POST /roles builds from the drawn counter value (its properties are in `RequestProps.CreateRoleChecks` and `RequestProps.CreateRoleIssuesFreshId`) |
| Handlers.MergedUser | src/mocks/mockServer.ts:302-310 | the definition of the PUT /users merge: each field the body holds replaces the old one (its properties are in `RequestProps.UpdateUserMerges`) |
| Handlers.ReplacedRole | src/mocks/mockServer.ts:360-366 | the definition of the PUT /roles replacement: name, description and permissions from the body (its properties are in `RequestProps.UpdateRoleReplaces`) |
| Handlers.CreateUser | src/mocks/mockServer.ts:158-209 | POST /users as a function of the store: a refusal leaves the store as it was; a success appends the returned user and one audit entry |
| Handlers.CreateRole | src/mocks/mockServer.ts:212-251 | POST /roles as a function of the store: a refusal leaves the store as it was; a success appends the returned role and one audit entry |
| Handlers.OnPost | src/mocks/mockServer.ts:154-258 | POST dispatch: a refusal leaves the store as it was, and only "/users" and "/roles" can succeed |
| Handlers.UpdateUser | src/mocks/mockServer.ts:267-322 | PUT /users/{id} as a function of the store: a refusal leaves the store as it was; a success returns a stored user with the requested id, keeps the number of users and appends one audit entry |
| Handlers.UpdateRole | src/mocks/mockServer.ts:325-378 | PUT /roles/{id} as a function of the store: a refusal leaves the store as it was; a success returns a stored role with the requested id, keeps the number of roles and appends one audit entry |
| Handlers.OnPut | src/mocks/mockServer.ts:263-385 | PUT dispatch: a refusal leaves the store as it was, and only paths under "/users/" or "/roles/" can succeed |
| Handlers.RemoveUser | src/mocks/mockServer.ts:394-417 | DELETE /users/{id} as a function of the store: a refusal is NOT_FOUND and leaves the store as it was; a success removes one user, keeps the roles and appends one audit entry |
| Handlers.RemoveRole | src/mocks/mockServer.ts:420-452 | DELETE /roles/{id} as a function of the store: a refusal leaves the store as it was; a success removes one role that no user referred to, keeps the users and appends one audit entry |
| Handlers.OnDelete | src/mocks/mockServer.ts:390-459 | DELETE dispatch: a refusal leaves the store as it was, and only paths under "/users/" or "/roles/" can succeed |
| MockServer.Post | src/mocks/mockServer.ts:154-258 | in place, POST produces the response and store that `Handlers.OnPost` gives for the old store |
| MockServer.PostUser | src/mocks/mockServer.ts:158-209 | in place, POST /users matches `Handlers.CreateUser`: checks in order, push, one audit entry |
| MockServer.PostRole | src/mocks/mockServer.ts:212-251 | in place, POST /roles matches `Handlers.CreateRole`, drawing the id from the role counter |
| MockServer.Put | src/mocks/mockServer.ts:263-385 | in place, PUT matches `Handlers.OnPut` |
| MockServer.PutUser | src/mocks/mockServer.ts:267-322 | in place, PUT /users/{id} matches `Handlers.UpdateUser`: checks in order, assignment at the found index, one audit entry |
| MockServer.PutRole | src/mocks/mockServer.ts:325-378 | in place, PUT /roles/{id} matches `Handlers.UpdateRole` |
| MockServer.Delete | src/mocks/mockServer.ts:390-459 | in place, DELETE matches `Handlers.OnDelete` |
| MockServer.DeleteUser | src/mocks/mockServer.ts:394-417 | in place, DELETE /users/{id} matches `Handlers.RemoveUser`: splice at the found index, one audit entry |
| MockServer.DeleteRole | src/mocks/mockServer.ts:420-452 | in place, DELETE /roles/{id} matches `Handlers.RemoveRole`, refusing a role in use |
| RequestProps.CreateUserChecks | src/mocks/mockServer.ts:161-186 | POST /users succeeds exactly when name, e-mail and role id are non-empty, the e-mail is unused and the role exists. Missing fields are VALIDATION_ERROR, then a taken e-mail is DUPLICATE_EMAIL, then a role id no role has is INVALID_ROLE; every refusal leaves the store as it was |
| RequestProps.CreateUserAppends | src/mocks/mockServer.ts:188-198 | the created user is appended with the body's fields, active unless false is sent, timestamps now, id `StaleUserId`. Roles and the user and role counters are unchanged |
| RequestProps.CreatedUsersShareId | src/mocks/mockServer.ts:189 | two successive creations give two users the same id and leave the user counter where it was |
| RequestProps.CreateRoleChecks | src/mocks/mockServer.ts:214-241 | POST /roles succeeds exactly when the name is non-empty, a permission is given and the name is unused. A missing name or empty permission list is VALIDATION_ERROR, then a taken name is DUPLICATE_ROLE, both leaving the store as it was. The created role is appended with the body's name, description and permissions and both timestamps now; users are kept |
| RequestProps.CreateRoleIssuesFreshId | src/mocks/mockServer.ts:214-241 | POST /roles succeeds exactly when the name is non-empty, a permission is given and the name is unused. The new id is the role counter in decimal, differs from every stored role id, and the counter advances |
| RequestProps.UpdateUserMerges | src/mocks/mockServer.ts:302-312 | a successful user PUT replaces only the found user. Omitted fields keep their values, given ones are taken, and the id and creation time are kept |
| RequestProps.UpdateUserChecks | src/mocks/mockServer.ts:271-300 | a user PUT succeeds exactly when the id is known, the e-mail check passes and a non-empty role id names a role. An unknown id is NOT_FOUND whatever the body; a role id no role has is INVALID_ROLE with the store unchanged; keeping one's own e-mail passes; an empty e-mail and role id pass both checks and are stored |
| RequestProps.UpdateUserRefusesTakenEmail | src/mocks/mockServer.ts:283-291 | a user PUT is DUPLICATE_EMAIL exactly when the user exists and the body's non-empty e-mail differs from the user's own and is held by a user with another id; the store is then unchanged |
| RequestProps.UpdateRoleChecks | src/mocks/mockServer.ts:329-358 | an unknown role id is NOT_FOUND before the body is checked; then a missing name or empty permission list is VALIDATION_ERROR; DUPLICATE_ROLE comes exactly when a valid body changes the name to one some role holds. Every refusal leaves the store as it was, and a valid body keeping the role's own name succeeds |
| RequestProps.UpdateRoleReplaces | src/mocks/mockServer.ts:360-368 | a successful role PUT replaces only the found role: name, description and permissions come from the body, id and creation time are kept, the update time is now; no other role and no user changes |
| RequestProps.RemoveUserRemovesOne | src/mocks/mockServer.ts:396-407 | DELETE /users/{id} removes exactly the first matching user, keeping the others' order. With distinct ids none with that id remains |
| RequestProps.RemoveUserChecks | src/mocks/mockServer.ts:397-404 | DELETE /users/{id} of an unknown id is NOT_FOUND with the store unchanged; a known id succeeds |
| RequestProps.RemoveRoleGuarded | src/mocks/mockServer.ts:423-442 | DELETE /roles/{id} of an unknown id is NOT_FOUND, and of a role still referenced by a user ROLE_IN_USE, both with the store unchanged; otherwise it succeeds. A removal splices out exactly the found role, keeps the others' order and every user, and with distinct ids leaves none with that id |
| InvariantProps.CreateUserKeepsInvariant | src/mocks/mockServer.ts:158-209 | POST /users keeps every store invariant |
| InvariantProps.CreateRoleKeepsInvariant | src/mocks/mockServer.ts:212-251 | POST /roles keeps every store invariant, including fresh role ids |
| InvariantProps.UpdateUserKeepsInvariant | src/mocks/mockServer.ts:267-322 | PUT /users/{id} keeps every invariant and distinct user ids, given distinct ids and no empty e-mail or role id in the body |
| InvariantProps.UpdateRoleKeepsInvariant | src/mocks/mockServer.ts:325-378 | PUT /roles/{id} keeps every store invariant |
| InvariantProps.RemoveUserKeepsInvariant | src/mocks/mockServer.ts:394-417 | DELETE /users/{id} keeps every store invariant |
| InvariantProps.RemoveRoleKeepsInvariant | src/mocks/mockServer.ts:420-452 | DELETE /roles/{id} keeps every store invariant; no user is left without its role |
| InvariantProps.PostKeepsInvariant | src/mocks/mockServer.ts:154-258 | every POST keeps every store invariant |
| InvariantProps.PutKeepsInvariant | src/mocks/mockServer.ts:263-385 | every PUT keeps every store invariant, given distinct user ids and no empty e-mail or role id in the body |
| InvariantProps.DeleteKeepsInvariant | src/mocks/mockServer.ts:390-459 | every DELETE keeps every store invariant |
| InvariantProps.CreateUserKeepsEmailsUnique | src/mocks/mockServer.ts:170-177 | POST /users keeps e-mails distinct in any store whose e-mails are distinct, whatever else it holds |
| InvariantProps.RemoveUserKeepsEmailsUnique | src/mocks/mockServer.ts:394-417 | DELETE /users/{id} keeps e-mails distinct in any store whose e-mails are distinct |
| InvariantProps.CreateRoleKeepsRoleNamesUnique | src/mocks/mockServer.ts:222-229 | POST /roles keeps role names distinct in any store whose role names are distinct |
| InvariantProps.UpdateRoleKeepsRoleNamesUnique | src/mocks/mockServer.ts:349-358 | PUT /roles/{id} keeps role names distinct in any store whose role names are distinct |
| InvariantProps.RemoveRoleKeepsRoleNamesUnique | src/mocks/mockServer.ts:420-452 | DELETE /roles/{id} keeps role names distinct in any store whose role names are distinct |
| InvariantProps.RequestsKeepRoleNamesUnique | src/mocks/mockServer.ts:154-459 | every POST, PUT and DELETE keeps role names distinct, assuming nothing else about the store |
| InvariantProps.RoleNamesUniqueAlways | src/mocks/mockServer.ts:154-459 | along any sequence of POST, PUT and DELETE requests, role names stay distinct, even when other invariants have been broken |
| InvariantProps.SeedRoleNamesUniqueAlways | src/mocks/db.ts:15-40 | in every store reachable from the seed by any requests, role names are distinct |
| QuirkExamples.BlankEmailAccepted | src/mocks/mockServer.ts:283-305 | a PUT with e-mail "" is accepted and stores "" on the found user only |
| QuirkExamples.EmptyEmailBreaksUniqueness | src/mocks/mockServer.ts:283-305 | from the seed, blanking the e-mails of users 1 and 2 succeeds and leaves two users with one e-mail |
| QuirkExamples.EmptyRoleIdBreaksReferences | src/mocks/mockServer.ts:294-306 | from the seed, setting user 1's role id to "" succeeds and leaves a user whose role does not exist |
| QuirkExamples.SharedIdEmailTakeover | src/mocks/mockServer.ts:282-312 | with two users sharing an id, a PUT to it gives the first the second's e-mail, passing the duplicate check |
| QuirkExamples.SharedIdBreaksEmailUniqueness | src/mocks/mockServer.ts:282-291 | from the seed, two POSTs and one PUT with a non-empty e-mail break e-mail uniqueness, which held before the PUT |
| UserSchema.PasswordOk | src/features/users/schema.ts:4-12 | the definition of the password rule: at least 8 characters, an upper-case letter, a digit and one of !@#$%^&* (its properties are in `UserSchema.StrongPasswordNotBlank`, `UserSchema.PasswordOkEmbedded` and `UserSchema.PasswordExamples`) |
| UserSchema.CreateUserValid | src/features/users/schema.ts:17-29 | the definition of the create form's rule (its properties are in `UserSchema.CreateRejectsMismatch`, `UserSchema.CreateValidIsUpdateValid` and `UserSchema.ValidCreateFormPassesServerCheck`) |
| UserSchema.UpdateUserValid | src/features/users/schema.ts:34-55 | the definition of the edit form's rule (its meaning is `UserSchema.UpdateUserValidExactly`) |
| UserSchema.PasswordExamples | src/features/users/schema.ts:4-12 | sample passwords: one with all four properties passes; each lacking an upper-case letter, a digit, a special character or length fails |
| UserSchema.PasswordOkEmbedded | src/features/users/schema.ts:4-12 | the length minimum and the three unanchored patterns are kept by any text added before or after an accepted password |
| UserSchema.StrongPasswordNotBlank | src/features/users/schema.ts:43-50 | a password the rule accepts is never blank after trimming |
| UserSchema.UpdateUserValidExactly | src/features/users/schema.ts:34-55 | the edit form is valid exactly when the shared fields pass and the password is absent, empty, or valid and equal to its confirmation |
| UserSchema.CreateRejectsMismatch | src/features/users/schema.ts:26-29 | the create form is refused whenever the password and its confirmation differ |
| UserSchema.UpdateAcceptsBlankPassword | src/features/users/schema.ts:38-39 | an absent or empty password passes the edit form whatever the confirmation holds |
| UserSchema.CreateValidIsUpdateValid | src/features/users/schema.ts:17-55 | a valid create form, seen as an edit form, is valid |
| UserSchema.ValidCreateFormPassesServerCheck | src/features/users/schema.ts:17-29 | a valid create form never meets the server's VALIDATION_ERROR, given that the e-mail check refuses "". Only DUPLICATE_EMAIL or INVALID_ROLE remain |
| RoleSchema.RoleFormValid | src/features/roles/schema.ts:3-7 | the definition of the role form's rule: a name of at least 2 characters and at least one permission (its meaning is `RoleSchema.RoleFormRules`) |
| RoleSchema.RoleFormRules | src/features/roles/schema.ts:3-7 | only the name length (at least 2) and a non-empty permission list decide. The description and the permission strings are free |
| RoleSchema.ValidRoleFormPassesServerCheck | src/features/roles/schema.ts:3-7 | a valid role form never meets the server's VALIDATION_ERROR on create or update |
| RoleSchema.ServerTakesShortName | src/features/roles/schema.ts:4 | the server accepts a one-character role name that the form refuses |

## Left out

- The simulated network delay and the asynchronous `Promise` interface: each request is one atomic step, and concurrent requests are not modelled.
- `new Date()`: the clock is a parameter `now`. Seed dates are milliseconds since the epoch, and the seed audit times are read as UTC; only their order matters here.
- One request reads the clock once. The source calls `new Date()` separately for `createdAt`, `updatedAt` and the audit entry's `timestamp` (src/mocks/mockServer.ts:194-195, 236-237 and src/mocks/db.ts:135), so these can differ by a few milliseconds. In the model they are equal: `RequestProps.CreateUserAppends` and `RequestProps.CreateRoleChecks` imply `createdAt == updatedAt`, which the source does not guarantee.
- `toLowerCase` is modelled on ASCII letters only. Other scripts, such as the Korean names and messages, are left unchanged, which matches JavaScript for Hangul.
- Query parameters that are non-integral numbers are not modelled. `String(n)` is modelled as plain decimal for every integer. JavaScript numbers stop being exact beyond 2^53, and `String` prints magnitudes of 10^21 and more in exponent form. So the model's decimal ids and parameters match the source only below those bounds. The id counters start at 4 and advance by one per request, so they stay far below them.
- String lengths are counted in characters, not in UTF-16 code units. They differ only outside the Basic Multilingual Plane.
- A PUT /users body with `isActive: null`: the source stores `null`, while the model reads a null field as absent and keeps the old value.
- A request with no body at all: reading a field of `undefined` throws a TypeError in the source. Body fields of the wrong JSON type are also not modelled; the model types every field.
- The optional `changes` field of an audit entry, which the mock server never writes.
- The validation library's error messages, issue paths, and the format rule of its `.email()` check. The check is the parameter `isEmail`.
- The api and http wrapper modules and the React pages that call the server; `src/lib/api/http.ts` is not part of this model.
- InvariantProps.UpdateUserKeepsInvariant: requires distinct user ids and no empty e-mail or role id in the body, because without them PUT /users breaks the invariant (see QuirkExamples).
- InvariantProps.PutKeepsInvariant: requires the same three conditions, for the same reason.
