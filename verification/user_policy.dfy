/**
 * app/Policies/UserPolicy.php: every ability on users is granted to super_manager and admin and
 * to nobody else; the target user is never consulted.
 */
module UserPolicy {
  import opened Roles
  import opened Models

  // Every ability has the body `in_array($user->role, [UserRole::SUPER_MANAGER, UserRole::ADMIN], true)`;
  // since the roles are three, that is "the actor is not a manager".

  function ViewAny(actor: User): (allowed: bool)
    ensures allowed <==> !IsManager(actor)
  {
    IsPrivileged(actor.role)
  }

  function View(actor: User, target: User): (allowed: bool)
    ensures allowed <==> !IsManager(actor)
  {
    IsPrivileged(actor.role)
  }

  function Create(actor: User): (allowed: bool)
    ensures allowed <==> !IsManager(actor)
  {
    IsPrivileged(actor.role)
  }

  function Update(actor: User, target: User): (allowed: bool)
    ensures allowed <==> !IsManager(actor)
  {
    IsPrivileged(actor.role)
  }

  function Delete(actor: User, target: User): (allowed: bool)
    ensures allowed <==> !IsManager(actor)
  {
    IsPrivileged(actor.role)
  }

  function ChangePassword(actor: User, target: User): (allowed: bool)
    ensures allowed <==> !IsManager(actor)
  {
    IsPrivileged(actor.role)
  }

  function ChangeManager(actor: User): (allowed: bool)
    ensures allowed <==> !IsManager(actor)
  {
    IsPrivileged(actor.role)
  }

  /** A manager is denied every ability, whatever the target. */
  lemma ManagerDeniedEverything(actor: User, target: User)
    requires IsManager(actor)
    ensures !ViewAny(actor) && !View(actor, target) && !Create(actor) && !Update(actor, target)
    ensures !Delete(actor, target) && !ChangePassword(actor, target) && !ChangeManager(actor)
  {
  }

  /** The seven abilities agree for any actor, and the target never changes the answer. */
  lemma AbilitiesAgree(actor: User, t1: User, t2: User)
    ensures View(actor, t1) == View(actor, t2) == ViewAny(actor) == Create(actor)
    ensures Update(actor, t1) == Update(actor, t2) == Delete(actor, t1) == Delete(actor, t2)
    ensures ChangePassword(actor, t1) == ChangePassword(actor, t2) == ChangeManager(actor) == ViewAny(actor)
    ensures Update(actor, t1) == ViewAny(actor)
  {
  }
}
