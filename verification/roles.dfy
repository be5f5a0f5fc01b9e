/** The string-backed role enumeration of app/Enums/UserRole.php. */
module Roles {
  import opened Wrappers

  datatype UserRole = Manager | SuperManager | Admin {

    /** The backing string of a case, `UserRole::X->value`. */
    function Value(): (v: string)
      ensures v in RoleValues
      ensures v == "manager" <==> this == Manager
    {
      match this
      case Manager => "manager"
      case SuperManager => "super_manager"
      case Admin => "admin"
    }
  }

  /** Every role there is. */
  const AllRoles: set<UserRole> := {Manager, SuperManager, Admin}

  /** The backing strings of all cases. */
  const RoleValues: set<string> := {"manager", "super_manager", "admin"}

  /** `UserRole::tryFrom(s)`: the case backed by `s`, if there is one. */
  function TryFrom(s: string): (r: Option<UserRole>)
    ensures r.Some? ==> r.value.Value() == s
    ensures r.None? <==> s !in RoleValues
  {
    if s == "manager" then Some(Manager)
    else if s == "super_manager" then Some(SuperManager)
    else if s == "admin" then Some(Admin)
    else None
  }

  /** The enumeration has exactly three cases. */
  lemma ExactlyThreeRoles()
    ensures forall r: UserRole :: r in AllRoles
    ensures |AllRoles| == 3
  {
    forall r: UserRole ensures r in AllRoles {
      match r
      case Manager =>
      case SuperManager =>
      case Admin =>
    }
  }

  /** Distinct cases have distinct backing strings, so `Value()` is injective. */
  lemma ValueInjective(a: UserRole, b: UserRole)
    ensures a.Value() == b.Value() ==> a == b
  {
  }

  /** Parsing the backing string of a case gives that case back. */
  lemma TryFromValue(r: UserRole)
    ensures TryFrom(r.Value()) == Some(r)
  {
  }

  /**
   * The test `in_array($role, [UserRole::SUPER_MANAGER, UserRole::ADMIN], true)` that both policies
   * and the create-client rules apply: the two roles that outrank a manager.
   */
  predicate IsPrivileged(r: UserRole) {
    r == SuperManager || r == Admin
  }

  /** Every role is either the manager role or a privileged one, never both. */
  lemma ManagerOrPrivileged(r: UserRole)
    ensures (r == Manager) != IsPrivileged(r)
  {
  }
}
