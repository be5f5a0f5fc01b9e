/**
 * app/Http/Requests/Manager/TransferClientsRequest.php: the rule checked before a user is
 * deleted. `new_manager_id` is required and must be the id of an existing user whose role is
 * manager or super_manager. The rule does not know which user is being deleted, so that user may
 * be named as its own successor.
 */
module TransferClientsRequest {
  import opened Roles
  import opened Php
  import opened Models
  import opened Validator

  /** `authorize()`: always true; the controller consults the policy. */
  function Authorize(actor: User): (allowed: bool)
    ensures allowed
  {
    true
  }

  /** The users that may inherit a portfolio. */
  function Successors(users: map<int, User>): (ids: set<int>)
    ensures forall k :: k in ids <==> k in users && users[k].role in {Manager, SuperManager}
  {
    IdsWithRole(users, {Manager, SuperManager})
  }

  /** `rules()`. */
  function Rules(users: map<int, User>): (rules: Rules)
    ensures rules.Keys == {"new_manager_id"}
  {
    map["new_manager_id" := [Required, Exists(Successors(users))]]
  }

  /** A successor that passes: the id of an existing manager or super_manager. */
  predicate SuccessorOk(input: Input, users: map<int, User>) {
    "new_manager_id" in input && input["new_manager_id"].Int?
    && input["new_manager_id"].i in users
    && users[input["new_manager_id"].i].role in {Manager, SuperManager}
  }

  /** The outcome of validating a delete-and-transfer request. */
  function Validate(input: Input, users: map<int, User>): (r: Validation)
    ensures r.Passed? <==> SuccessorOk(input, users)
    ensures r.Failed? ==> r.errors == {"new_manager_id"}
    ensures r.Passed? ==> r.validated == map["new_manager_id" := input["new_manager_id"]]
  {
    var isEmail := (s: string) => false;
    TwoRules(input, "new_manager_id", Required, Exists(Successors(users)), isEmail);
    var r := Validator.Validate(input, Rules(users), isEmail);
    assert r.Failed? ==> "new_manager_id" in r.errors;
    r
  }

  /** Leaving `new_manager_id` out fails. */
  lemma SuccessorRequired(input: Input, users: map<int, User>)
    requires "new_manager_id" !in input
    ensures Validate(input, users) == Failed({"new_manager_id"})
  {
  }

  /** An id no user has, or the id of an admin, fails. */
  lemma UnknownOrAdminSuccessorRejected(users: map<int, User>, n: int)
    requires n !in users || users[n].role == Admin
    ensures Validate(map["new_manager_id" := Int(n)], users).Failed?
  {
  }

  /** A manager may be named as the successor of itself: nothing in the rule excludes it. */
  lemma TargetMayBeItsOwnSuccessor(users: map<int, User>, target: int)
    requires target in users && users[target].role == Manager
    ensures Validate(map["new_manager_id" := Int(target)], users).Passed?
  {
  }
}
