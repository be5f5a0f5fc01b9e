/**
 * app/Http/Requests/Client/StoreClientRequest.php: the rules for creating a client. Name and email
 * are always required; `manager_id` is required, and must name a user whose role is exactly
 * manager, only when the actor is a super_manager or an admin.
 */
module StoreClientRequest {
  import opened Wrappers
  import opened Roles
  import opened Php
  import opened Models
  import opened Validator

  /** `authorize()`: always true; the controller consults the policy. */
  function Authorize(actor: User): (allowed: bool)
    ensures allowed
  {
    true
  }

  /** The users a privileged actor may name as owner: `exists:users,id` where role is manager. */
  function Assignable(users: map<int, User>): (ids: set<int>)
    ensures forall k :: k in ids <==> k in users && users[k].role == Manager
  {
    IdsWithRole(users, {Manager})
  }

  /** `rules()`. */
  function Rules(actor: User, clients: map<int, Client>, users: map<int, User>): (rules: Rules)
    ensures rules.Keys == {"name", "email"} + (if IsPrivileged(actor.role) then {"manager_id"} else {})
  {
    var base := map[
      "name" := [Required, IsString, Max(255)],
      "email" := [Required, Email, Unique(ClientEmails(clients, None))]];
    if IsPrivileged(actor.role) then
      base["manager_id" := [Required, Exists(Assignable(users))]]
    else
      base
  }

  /** A name that passes: a non-empty string of at most 255 characters. */
  predicate NameOk(input: Input) {
    "name" in input && input["name"].Str? && input["name"].s != "" && |input["name"].s| <= 255
  }

  /** An email that passes: a non-empty well-formed string that no client has yet. */
  predicate EmailOk(input: Input, clients: map<int, Client>, isEmail: string -> bool) {
    "email" in input && input["email"].Str? && input["email"].s != ""
    && isEmail(input["email"].s)
    && forall k :: k in clients ==> clients[k].email != input["email"].s
  }

  /** A `manager_id` that passes: the id of an existing user whose role is manager. */
  predicate ManagerIdOk(input: Input, users: map<int, User>) {
    "manager_id" in input && input["manager_id"].Int?
    && input["manager_id"].i in users && users[input["manager_id"].i].role == Manager
  }

  lemma NameField(input: Input, isEmail: string -> bool)
    ensures FieldPasses(input, "name", [Required, IsString, Max(255)], isEmail) <==> NameOk(input)
  {
    ThreeRules(input, "name", Required, IsString, Max(255), isEmail);
  }

  lemma EmailField(input: Input, clients: map<int, Client>, isEmail: string -> bool)
    ensures FieldPasses(input, "email", [Required, Email, Unique(ClientEmails(clients, None))], isEmail)
            <==> EmailOk(input, clients, isEmail)
  {
    ThreeRules(input, "email", Required, Email, Unique(ClientEmails(clients, None)), isEmail);
    if FieldPasses(input, "email", [Required, Email, Unique(ClientEmails(clients, None))], isEmail) {
      forall k | k in clients ensures clients[k].email != input["email"].s {
        assert clients[k].email in ClientEmails(clients, None);
      }
    }
  }

  lemma ManagerIdField(input: Input, users: map<int, User>, isEmail: string -> bool)
    ensures FieldPasses(input, "manager_id", [Required, Exists(Assignable(users))], isEmail)
            <==> ManagerIdOk(input, users)
  {
    TwoRules(input, "manager_id", Required, Exists(Assignable(users)), isEmail);
  }

  /** The outcome of validating a create-client request. */
  function Validate(actor: User, input: Input, clients: map<int, Client>, users: map<int, User>,
                    isEmail: string -> bool): (r: Validation)
    ensures r.Passed? <==>
      NameOk(input) && EmailOk(input, clients, isEmail) && (IsPrivileged(actor.role) ==> ManagerIdOk(input, users))
    ensures r.Failed? ==>
      (("name" in r.errors <==> !NameOk(input))
       && ("email" in r.errors <==> !EmailOk(input, clients, isEmail))
       && ("manager_id" in r.errors <==> IsPrivileged(actor.role) && !ManagerIdOk(input, users))
       && r.errors <= {"name", "email", "manager_id"})
    ensures r.Passed? ==>
      r.validated.Keys == {"name", "email"} + (if IsPrivileged(actor.role) then {"manager_id"} else {})
    ensures r.Passed? ==> forall k :: k in r.validated ==> r.validated[k] == input[k]
  {
    NameField(input, isEmail);
    EmailField(input, clients, isEmail);
    ManagerIdField(input, users, isEmail);
    Validator.Validate(input, Rules(actor, clients, users), isEmail)
  }

  /** A manager's request never carries `manager_id` into the validated data. */
  lemma ManagerSubmitsNoManagerId(actor: User, input: Input, clients: map<int, Client>,
                                  users: map<int, User>, isEmail: string -> bool)
    requires IsManager(actor)
    requires Validate(actor, input, clients, users, isEmail).Passed?
    ensures "manager_id" !in Validate(actor, input, clients, users, isEmail).validated
  {
  }

  /**
   * A privileged actor cannot create a client without naming a manager: leaving `manager_id` out
   * fails on that field.
   */
  lemma PrivilegedMustNameManager(actor: User, input: Input, clients: map<int, Client>,
                                  users: map<int, User>, isEmail: string -> bool)
    requires IsPrivileged(actor.role) && "manager_id" !in input
    ensures Validate(actor, input, clients, users, isEmail).Failed?
    ensures "manager_id" in Validate(actor, input, clients, users, isEmail).errors
  {
  }

  /**
   * Email uniqueness looks at clients only: the users' emails never change the outcome, only
   * which ids have the manager role.
   */
  lemma UsersEmailsIrrelevant(actor: User, input: Input, clients: map<int, Client>,
                              users1: map<int, User>, users2: map<int, User>, isEmail: string -> bool)
    requires Assignable(users1) == Assignable(users2)
    ensures Validate(actor, input, clients, users1, isEmail) == Validate(actor, input, clients, users2, isEmail)
  {
  }
}
