/**
 * app/Policies/ClientPolicy.php: who may list, view, create, update and delete a client.
 * A manager acts only on the clients whose `manager_id` is strictly identical to its own id;
 * super_manager and admin act on every client.
 */
module ClientPolicy {
  import opened Wrappers
  import opened Roles
  import opened Models

  /** `viewAny`: every authenticated user may open the client list (the controller narrows it). */
  function ViewAny(actor: User): (allowed: bool)
    ensures allowed
  {
    true
  }

  /** `create`: every authenticated user may create a client. */
  function Create(actor: User): (allowed: bool)
    ensures allowed
  {
    true
  }

  // `view`, `update` and `delete` have the same body in the source: a manager passes only on its
  // own client (`$client->manager_id === $user->id`, so a null `manager_id` never passes), anyone
  // else passes when the role is super_manager or admin, which every non-manager has.

  /** `view`. */
  function View(actor: User, client: Client): (allowed: bool)
    ensures IsManager(actor) ==> (allowed <==> client.managerId == Some(actor.id))
    ensures !IsManager(actor) ==> allowed
  {
    if IsManager(actor) then client.managerId == Some(actor.id)
    else IsPrivileged(actor.role)
  }

  /** `update`. */
  function Update(actor: User, client: Client): (allowed: bool)
    ensures IsManager(actor) ==> (allowed <==> client.managerId == Some(actor.id))
    ensures !IsManager(actor) ==> allowed
  {
    if IsManager(actor) then client.managerId == Some(actor.id)
    else IsPrivileged(actor.role)
  }

  /** `delete`. */
  function Delete(actor: User, client: Client): (allowed: bool)
    ensures IsManager(actor) ==> (allowed <==> client.managerId == Some(actor.id))
    ensures !IsManager(actor) ==> allowed
  {
    if IsManager(actor) then client.managerId == Some(actor.id)
    else IsPrivileged(actor.role)
  }

  /** The three abilities give the same answer for every actor and client. */
  lemma ViewUpdateDeleteAgree(actor: User, client: Client)
    ensures View(actor, client) == Update(actor, client) == Delete(actor, client)
  {
  }

  /** A manager is allowed on a client exactly when the client is in its own portfolio. */
  lemma ManagerAllowedOnOwnPortfolio(actor: User, clients: map<int, Client>, k: int)
    requires IsManager(actor) && k in clients
    ensures View(actor, clients[k]) <==> k in ManagedClients(actor, clients)
  {
  }

  /** An unassigned client passes no manager's ownership check. */
  lemma UnassignedNeverOwned(actor: User, client: Client)
    requires IsManager(actor) && client.managerId.None?
    ensures !View(actor, client) && !Update(actor, client) && !Delete(actor, client)
  {
  }

  /** super_manager and admin pass `view`, `update` and `delete` on every client. */
  lemma PrivilegedAllowedEverywhere(actor: User, client: Client)
    requires IsPrivileged(actor.role)
    ensures View(actor, client) && Update(actor, client) && Delete(actor, client)
  {
  }

  /**
   * The decision reads only the actor's role and id and the client's `manager_id`: two
   * (actor, client) pairs that agree on those get the same answer from every ability.
   */
  lemma DecisionDependsOnlyOnOwnership(a1: User, c1: Client, a2: User, c2: Client)
    requires a1.role == a2.role && a1.id == a2.id && c1.managerId == c2.managerId
    ensures View(a1, c1) == View(a2, c2)
    ensures Update(a1, c1) == Update(a2, c2)
    ensures Delete(a1, c1) == Delete(a2, c2)
  {
  }
}
