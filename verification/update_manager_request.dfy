/**
 * app/Http/Requests/Manager/UpdateManagerRequest.php: the rules for updating a user from the
 * managers screen. Name, email, role and is_active are each optional; a submitted email must be
 * unique among the other users, a role must be one of the three backing values and is_active
 * must be a boolean. No other field, the password in particular, can be validated.
 */
module UpdateManagerRequest {
  import opened Wrappers
  import opened Roles
  import opened Php
  import opened Models
  import opened Validator

  /** `authorize()`: always true; the controller consults the policy. */
  function Authorize(actor: User): (allowed: bool)
    ensures allowed
  {
    true
  }

  /** The fields that have rules. */
  const Fields: set<string> := {"name", "email", "role", "is_active"}

  /** `rules()` for the user with id `managerId`. */
  function Rules(managerId: int, users: map<int, User>): (rules: Rules)
    ensures rules.Keys == Fields
  {
    map[
      "name" := [Sometimes, IsString, Max(255)],
      "email" := [Sometimes, Email, Unique(UserEmails(users, Some(managerId)))],
      "role" := [Sometimes, In(RoleValues)],
      "is_active" := [Sometimes, IsBoolean]]
  }

  predicate NameOk(input: Input) {
    "name" !in input || input["name"] == Str("")
    || (input["name"].Str? && |input["name"].s| <= 255)
  }

  predicate EmailOk(input: Input, managerId: int, users: map<int, User>, isEmail: string -> bool) {
    "email" !in input || input["email"] == Str("")
    || (input["email"].Str? && isEmail(input["email"].s)
        && forall k :: k in users && k != managerId ==> users[k].email != input["email"].s)
  }

  /** A role that passes: absent, empty, or the backing value of one of the three roles. */
  predicate RoleOk(input: Input) {
    "role" !in input || input["role"] == Str("")
    || (input["role"].Str? && TryFrom(input["role"].s).Some?)
  }

  /** A flag that passes: absent, empty, or one of true, false, 0, 1, "0", "1". */
  predicate ActiveOk(input: Input) {
    "is_active" !in input || input["is_active"] == Str("")
    || input["is_active"].Bool? || input["is_active"] in {Int(0), Int(1), Str("0"), Str("1")}
  }

  lemma NameField(input: Input, isEmail: string -> bool)
    ensures FieldPasses(input, "name", [Sometimes, IsString, Max(255)], isEmail) <==> NameOk(input)
  {
    ThreeRules(input, "name", Sometimes, IsString, Max(255), isEmail);
  }

  lemma RoleField(input: Input, isEmail: string -> bool)
    ensures FieldPasses(input, "role", [Sometimes, In(RoleValues)], isEmail) <==> RoleOk(input)
  {
    TwoRules(input, "role", Sometimes, In(RoleValues), isEmail);
  }

  lemma ActiveField(input: Input, isEmail: string -> bool)
    ensures FieldPasses(input, "is_active", [Sometimes, IsBoolean], isEmail) <==> ActiveOk(input)
  {
    TwoRules(input, "is_active", Sometimes, IsBoolean, isEmail);
  }

  lemma EmailField(input: Input, managerId: int, users: map<int, User>, isEmail: string -> bool)
    ensures FieldPasses(input, "email", [Sometimes, Email, Unique(UserEmails(users, Some(managerId)))], isEmail)
            <==> EmailOk(input, managerId, users, isEmail)
  {
    var taken := UserEmails(users, Some(managerId));
    ThreeRules(input, "email", Sometimes, Email, Unique(taken), isEmail);
    if FieldPasses(input, "email", [Sometimes, Email, Unique(taken)], isEmail) && Runs(input, "email") {
      forall k | k in users && k != managerId ensures users[k].email != input["email"].s {
        assert users[k].email in taken;
      }
    }
  }

  /** The outcome of validating an update of the user with id `managerId`. */
  function Validate(input: Input, managerId: int, users: map<int, User>, isEmail: string -> bool): (r: Validation)
    ensures r.Passed? <==>
      NameOk(input) && EmailOk(input, managerId, users, isEmail) && RoleOk(input) && ActiveOk(input)
    ensures r.Failed? ==>
      (("name" in r.errors <==> !NameOk(input))
       && ("email" in r.errors <==> !EmailOk(input, managerId, users, isEmail))
       && ("role" in r.errors <==> !RoleOk(input))
       && ("is_active" in r.errors <==> !ActiveOk(input))
       && r.errors <= Fields)
    ensures r.Passed? ==> r.validated.Keys == input.Keys * Fields
    ensures r.Passed? ==> forall k :: k in r.validated ==> r.validated[k] == input[k]
  {
    NameField(input, isEmail);
    EmailField(input, managerId, users, isEmail);
    RoleField(input, isEmail);
    ActiveField(input, isEmail);
    Validator.Validate(input, Rules(managerId, users), isEmail)
  }

  /** The password, and every other field without a rule, never reaches the validated data. */
  lemma OnlyRuledFieldsValidated(input: Input, managerId: int, users: map<int, User>, isEmail: string -> bool)
    requires Validate(input, managerId, users, isEmail).Passed?
    ensures Validate(input, managerId, users, isEmail).validated.Keys <= Fields
    ensures "password" !in Validate(input, managerId, users, isEmail).validated
  {
  }

  /** A role outside the enumeration, such as "superadmin", fails on `role`. */
  lemma UnknownRoleRejected(input: Input, managerId: int, users: map<int, User>, isEmail: string -> bool)
    requires "role" in input && input["role"].Str? && input["role"].s !in RoleValues && input["role"].s != ""
    ensures Validate(input, managerId, users, isEmail).Failed?
    ensures "role" in Validate(input, managerId, users, isEmail).errors
  {
  }

  /**
   * Validated data, on input that has been through `ConvertEmptyStringsToNull`, always fits the
   * user record: the fill that follows cannot fail.
   */
  lemma ValidatedFills(input: Input, managerId: int, users: map<int, User>, isEmail: string -> bool, u: User)
    requires Normalized(input)
    requires Validate(input, managerId, users, isEmail).Passed?
    ensures FillUser(u, Validate(input, managerId, users, isEmail).validated).Some?
  {
    var data := Validate(input, managerId, users, isEmail).validated;
    if "role" in data {
      assert input["role"] != Str("");
    }
    if "is_active" in data {
      assert input["is_active"] != Null;
    }
  }
}
