/**
 * The user form validators: the password rule, the create form (password
 * required and confirmed) and the update form (password optional, confirmed
 * only when it is not blank). The e-mail format check belongs to the
 * validation library and is a parameter `isEmail`.
 */
module UserSchema {
  import opened Wrappers
  import opened Text
  import opened Db
  import opened Api
  import opened Handlers

  /** The characters of `[!@#$%^&*]`. */
  const SpecialChars: string := "!@#$%^&*"

  predicate HasUppercase(p: string) { exists i | 0 <= i < |p| :: 'A' <= p[i] <= 'Z' }
  predicate HasDigit(p: string) { exists i | 0 <= i < |p| :: '0' <= p[i] <= '9' }
  predicate HasSpecial(p: string) { exists i | 0 <= i < |p| :: p[i] in SpecialChars }

  /** `passwordSchema`: at least 8 characters with an upper-case letter, a digit and a special character. */
  predicate PasswordOk(p: string)
  {
    |p| >= 8 && HasUppercase(p) && HasDigit(p) && HasSpecial(p)
  }

  /**
   * The three patterns are unanchored searches, so text added before or after
   * an accepted password never makes it fail.
   */
  lemma PasswordOkEmbedded(pre: string, p: string, post: string)
    requires PasswordOk(p)
    ensures PasswordOk(pre + p + post)
  {
    var s := pre + p + post;
    var u :| 0 <= u < |p| && 'A' <= p[u] <= 'Z';
    var d :| 0 <= d < |p| && '0' <= p[d] <= '9';
    var c :| 0 <= c < |p| && p[c] in SpecialChars;
    assert s[|pre| + u] == p[u] && s[|pre| + d] == p[d] && s[|pre| + c] == p[c];
  }

  /** The fields of the create form; `isActive` is a boolean by its type. */
  datatype CreateUserForm = CreateUserForm(
    name: string, email: string, password: string, confirmPassword: string, roleId: string, isActive: bool)

  /** The fields of the edit form; an absent password or confirmation is `None`. */
  datatype UpdateUserForm = UpdateUserForm(
    name: string, email: string, password: Option<string>, confirmPassword: Option<string>,
    roleId: string, isActive: bool)

  /** The name, e-mail and role rules both forms share. */
  predicate CommonFieldsOk(name: string, email: string, roleId: string, isEmail: string -> bool)
  {
    |name| >= 2 && isEmail(email) && |roleId| >= 1
  }

  /** `createUserSchema`: the field rules, then the password must equal its confirmation. */
  predicate CreateUserValid(f: CreateUserForm, isEmail: string -> bool)
  {
    && CommonFieldsOk(f.name, f.email, f.roleId, isEmail)
    && PasswordOk(f.password)
    && f.password == f.confirmPassword
  }

  /** `passwordSchema.optional().or(z.literal(""))`. */
  predicate OptionalPasswordOk(p: Option<string>)
  {
    p.None? || p.value == "" || PasswordOk(p.value)
  }

  /** The refinement of `updateUserSchema`: a password that is non-empty after trimming must be confirmed. */
  predicate UpdateConfirmed(f: UpdateUserForm)
  {
    f.password.Some? && f.password.value != "" && Trim(f.password.value) != "" ==>
      f.confirmPassword == f.password
  }

  /** `updateUserSchema`. */
  predicate UpdateUserValid(f: UpdateUserForm, isEmail: string -> bool)
  {
    && CommonFieldsOk(f.name, f.email, f.roleId, isEmail)
    && OptionalPasswordOk(f.password)
    && UpdateConfirmed(f)
  }

  // ------------------------------------------------------------- lemmas

  /** A password the rule accepts is never blank: its upper-case letter survives trimming. */
  lemma StrongPasswordNotBlank(p: string)
    requires PasswordOk(p)
    ensures Trim(p) != ""
  {
    var i :| 0 <= i < |p| && 'A' <= p[i] <= 'Z';
    assert !IsJsWhitespace(p[i]);
    TrimEmpty(p);
  }

  /**
   * Under the field rule the trim guard of the update refinement never
   * matters: a valid update form either leaves the password empty or absent,
   * or confirms it exactly.
   */
  lemma UpdateUserValidExactly(f: UpdateUserForm, isEmail: string -> bool)
    ensures UpdateUserValid(f, isEmail) <==>
      && CommonFieldsOk(f.name, f.email, f.roleId, isEmail)
      && (f.password.None? || f.password == Some("")
          || (PasswordOk(f.password.value) && f.confirmPassword == f.password))
  {
    if f.password.Some? && PasswordOk(f.password.value) {
      StrongPasswordNotBlank(f.password.value);
    }
  }

  /** The create form is refused whenever the two passwords differ, whatever else holds. */
  lemma CreateRejectsMismatch(f: CreateUserForm, isEmail: string -> bool)
    requires f.password != f.confirmPassword
    ensures !CreateUserValid(f, isEmail)
  {
  }

  /** Leaving the password empty or absent on the edit form passes whatever the confirmation holds. */
  lemma UpdateAcceptsBlankPassword(f: UpdateUserForm, isEmail: string -> bool)
    requires CommonFieldsOk(f.name, f.email, f.roleId, isEmail)
    requires f.password == None || f.password == Some("")
    ensures UpdateUserValid(f, isEmail)
  {
  }

  /** The form a valid create form fills in for editing is a valid update form. */
  function AsUpdate(f: CreateUserForm): UpdateUserForm
  {
    UpdateUserForm(f.name, f.email, Some(f.password), Some(f.confirmPassword), f.roleId, f.isActive)
  }

  lemma CreateValidIsUpdateValid(f: CreateUserForm, isEmail: string -> bool)
    ensures CreateUserValid(f, isEmail) ==> UpdateUserValid(AsUpdate(f), isEmail)
  {
  }

  /** The request body the create form sends; the server does not read the password. */
  function CreateBody(f: CreateUserForm): Body
  {
    Body(Some(f.name), Some(f.email), Some(f.roleId), Some(f.isActive), None, None)
  }

  /**
   * A create form that passes validation also passes the server's own
   * VALIDATION_ERROR check, provided the e-mail check refuses "": what the
   * server may still refuse is a taken e-mail or an unknown role.
   */
  lemma ValidCreateFormPassesServerCheck(f: CreateUserForm, isEmail: string -> bool, st: DbState, now: int)
    requires !isEmail("")
    requires CreateUserValid(f, isEmail)
    ensures CreateUser(st, CreateBody(f), now).response.Err? ==>
      CreateUser(st, CreateBody(f), now).response.error.code in {DuplicateEmail, InvalidRole}
  {
    assert f.email != "";
  }

  /** Sample passwords against the rule. */
  lemma PasswordExamples()
    ensures PasswordOk("Passw0rd!")
    ensures !PasswordOk("passw0rd!")
    ensures !PasswordOk("Password!")
    ensures !PasswordOk("Passw0rd")
    ensures !PasswordOk("Pa0!")
  {
    assert 'P' <= "Passw0rd!"[0] <= 'Z';
    assert '0' <= "Passw0rd!"[5] <= '9';
    assert "Passw0rd!"[8] in SpecialChars;
    assert forall i | 0 <= i < |"passw0rd!"| :: !('A' <= "passw0rd!"[i] <= 'Z');
    assert forall i | 0 <= i < |"Password!"| :: !('0' <= "Password!"[i] <= '9');
    assert forall i | 0 <= i < |"Passw0rd"| :: "Passw0rd"[i] !in SpecialChars;
  }
}
