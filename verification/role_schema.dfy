/** The role form validator. */
module RoleSchema {
  import opened Wrappers
  import opened Db
  import opened Api
  import opened Handlers

  datatype RoleForm = RoleForm(name: string, description: Option<string>, permissions: seq<string>)

  /** `roleSchema`: a name of at least 2 characters and at least one permission. */
  predicate RoleFormValid(f: RoleForm)
  {
    |f.name| >= 2 && |f.permissions| >= 1
  }

  /**
   * The description may be anything or absent, and the permissions are any
   * non-empty list of strings: only the name length and the list's length
   * decide.
   */
  lemma RoleFormRules(f: RoleForm, description: Option<string>, permissions: seq<string>)
    ensures RoleFormValid(f.(description := description)) == RoleFormValid(f)
    ensures |permissions| >= 1 ==> (RoleFormValid(f.(permissions := permissions)) <==> |f.name| >= 2)
    ensures RoleFormValid(f.(permissions := [])) == false
  {
  }

  /** The request body the role form sends. */
  function RoleBody(f: RoleForm): Body
  {
    Body(Some(f.name), None, None, None, f.description, Some(f.permissions))
  }

  /**
   * A valid role form passes the server's VALIDATION_ERROR check on create and
   * on update: the server may still refuse a taken name (or, on update, an
   * unknown id).
   */
  lemma ValidRoleFormPassesServerCheck(f: RoleForm, st: DbState, roleId: Option<string>, now: int)
    requires RoleFormValid(f)
    ensures CreateRole(st, RoleBody(f), now).response.Err? ==>
      CreateRole(st, RoleBody(f), now).response.error.code == DuplicateRole
    ensures UpdateRole(st, roleId, RoleBody(f), now).response.Err? ==>
      UpdateRole(st, roleId, RoleBody(f), now).response.error.code in {NotFound, DuplicateRole}
  {
  }

  /** The server is laxer than the form: it takes a one-character name the form refuses. */
  lemma ServerTakesShortName(st: DbState, now: int)
    requires !RoleNameTaken(st.roles, "a")
    ensures !RoleFormValid(RoleForm("a", None, ["read"]))
    ensures CreateRole(st, RoleBody(RoleForm("a", None, ["read"])), now).response.Ok?
  {
  }
}
