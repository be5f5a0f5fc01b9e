/**
 * app/Http/Requests/Client/UpdateClientRequest.php: the rules for updating a client. Name and
 * email are optional; a submitted email must be unique among the other clients, so a client may
 * keep its own. The `manager_id` rule is guarded by a loose `in_array` of the enum-cast role
 * against plain strings, which never holds, so the rule is never added and `manager_id` never
 * reaches the validated data.
 */
module UpdateClientRequest {
  import opened Wrappers
  import opened Roles
  import opened Php
  import opened Models
  import opened Validator

  /** `authorize()`: always true; the controller consults the policy. */
  function Authorize(actor: User): (allowed: bool)
    ensures allowed
  {
    true
  }

  /**
   * The guard of the `manager_id` rule: `in_array($this->user()->role, [SUPER_MANAGER->value,
   * ADMIN->value])`. The role is the enum case, the haystack holds strings, so it is false for
   * every actor, super_manager and admin included.
   */
  function ManagerIdRuleAdded(actor: User): (added: bool)
    ensures !added
  {
    CaseNeverInPrivilegedValues(actor.role);
    InArray(Case(actor.role), PrivilegedValues())
  }

  /** The `manager_id` rule the guard would add: optional, and naming a user whose role is manager. */
  function ManagerIdRule(users: map<int, User>): seq<Rule> {
    [Sometimes, Exists(IdsWithRole(users, {Manager}))]
  }

  /** The rule map, given whether the `manager_id` rule is added. */
  function RulesWith(added: bool, clientId: int, clients: map<int, Client>, users: map<int, User>): (rules: Rules)
    ensures rules.Keys == {"name", "email"} + (if added then {"manager_id"} else {})
  {
    var base := map[
      "name" := [Sometimes, IsString, Max(255)],
      "email" := [Sometimes, Email, Unique(ClientEmails(clients, Some(clientId)))]];
    if added then base["manager_id" := ManagerIdRule(users)] else base
  }

  /** `rules()` for the client with id `clientId`. */
  function Rules(actor: User, clientId: int, clients: map<int, Client>, users: map<int, User>): (rules: Rules)
    ensures rules.Keys == {"name", "email"}
  {
    RulesWith(ManagerIdRuleAdded(actor), clientId, clients, users)
  }

  /** A name that passes: absent, empty, or a string of at most 255 characters. */
  predicate NameOk(input: Input) {
    "name" !in input || input["name"] == Str("")
    || (input["name"].Str? && |input["name"].s| <= 255)
  }

  /** An email that passes: absent, empty, or well-formed and held by no other client. */
  predicate EmailOk(input: Input, clientId: int, clients: map<int, Client>, isEmail: string -> bool) {
    "email" !in input || input["email"] == Str("")
    || (input["email"].Str? && isEmail(input["email"].s)
        && forall k :: k in clients && k != clientId ==> clients[k].email != input["email"].s)
  }

  lemma NameField(input: Input, isEmail: string -> bool)
    ensures FieldPasses(input, "name", [Sometimes, IsString, Max(255)], isEmail) <==> NameOk(input)
  {
    ThreeRules(input, "name", Sometimes, IsString, Max(255), isEmail);
  }

  lemma EmailField(input: Input, clientId: int, clients: map<int, Client>, isEmail: string -> bool)
    ensures FieldPasses(input, "email", [Sometimes, Email, Unique(ClientEmails(clients, Some(clientId)))], isEmail)
            <==> EmailOk(input, clientId, clients, isEmail)
  {
    var taken := ClientEmails(clients, Some(clientId));
    ThreeRules(input, "email", Sometimes, Email, Unique(taken), isEmail);
    if FieldPasses(input, "email", [Sometimes, Email, Unique(taken)], isEmail) && Runs(input, "email") {
      forall k | k in clients && k != clientId ensures clients[k].email != input["email"].s {
        assert clients[k].email in taken;
      }
    }
  }

  /** The outcome of validating an update of the client with id `clientId`. */
  function Validate(actor: User, input: Input, clientId: int, clients: map<int, Client>,
                    users: map<int, User>, isEmail: string -> bool): (r: Validation)
    ensures r.Passed? <==> NameOk(input) && EmailOk(input, clientId, clients, isEmail)
    ensures r.Failed? ==>
      (("name" in r.errors <==> !NameOk(input))
       && ("email" in r.errors <==> !EmailOk(input, clientId, clients, isEmail))
       && r.errors <= {"name", "email"})
    ensures r.Passed? ==> r.validated.Keys == input.Keys * {"name", "email"}
    ensures r.Passed? ==> forall k :: k in r.validated ==> r.validated[k] == input[k]
  {
    NameField(input, isEmail);
    EmailField(input, clientId, clients, isEmail);
    Validator.Validate(input, Rules(actor, clientId, clients, users), isEmail)
  }

  /** Whatever the actor, `manager_id` never reaches the validated data of an update. */
  lemma ManagerIdNeverValidated(actor: User, input: Input, clientId: int, clients: map<int, Client>,
                                users: map<int, User>, isEmail: string -> bool)
    requires Validate(actor, input, clientId, clients, users, isEmail).Passed?
    ensures "manager_id" !in Validate(actor, input, clientId, clients, users, isEmail).validated
  {
  }

  /** With no name and no email submitted, nothing is checked and nothing is validated. */
  lemma AbsentFieldsUnchecked(actor: User, input: Input, clientId: int, clients: map<int, Client>,
                              users: map<int, User>, isEmail: string -> bool)
    requires "name" !in input && "email" !in input
    ensures Validate(actor, input, clientId, clients, users, isEmail) == Passed(map[])
  {
    var r := Validate(actor, input, clientId, clients, users, isEmail);
    assert r.validated.Keys == {};
  }

  /**
   * Re-submitting a client's own email passes the uniqueness check, provided no other client
   * holds it.
   */
  lemma OwnEmailAccepted(actor: User, clientId: int, clients: map<int, Client>,
                         users: map<int, User>, isEmail: string -> bool)
    requires clientId in clients && UniqueClientEmails(clients)
    requires isEmail(clients[clientId].email)
    ensures Validate(actor, map["email" := Str(clients[clientId].email)], clientId, clients, users, isEmail).Passed?
  {
  }

  /**
   * Were the `manager_id` rule added, a submitted non-empty `manager_id` would have to be the id
   * of an existing user whose role is manager.
   */
  lemma IfAddedManagerIdMustBeManager(input: Input, clientId: int, clients: map<int, Client>,
                                      users: map<int, User>, isEmail: string -> bool)
    requires Validator.Validate(input, RulesWith(true, clientId, clients, users), isEmail).Passed?
    requires Runs(input, "manager_id")
    ensures input["manager_id"].Int? && input["manager_id"].i in users
    ensures users[input["manager_id"].i].role == Manager
  {
    var rules := RulesWith(true, clientId, clients, users);
    assert FieldPasses(input, "manager_id", rules["manager_id"], isEmail);
    assert RulePasses(input, "manager_id", rules["manager_id"][1], isEmail);
  }
}
