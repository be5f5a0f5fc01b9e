/**
 * The `dashboard` closure of routes/web.php: client counts for every actor, manager counts for a
 * super_manager or an admin.
 */
module Dashboard {
  import opened Wrappers
  import opened Roles
  import opened Models

  /** An `active` / `total` pair. */
  datatype Counts = Counts(active: nat, total: nat)

  /** `statistics`: `managers` is absent from a manager's dashboard. */
  datatype Statistics = Statistics(clients: Counts, managers: Option<Counts>)

  /** The clients whose `manager_id` is not null. */
  function Assigned(clients: map<int, Client>): (ids: set<int>)
    ensures ids <= clients.Keys
    ensures forall k :: k in ids <==> k in clients && clients[k].managerId.Some?
  {
    set k | k in clients && clients[k].managerId.Some?
  }

  /** The users counted as managers: role manager or super_manager, never admin. */
  function Staff(users: map<int, User>): (ids: set<int>)
    ensures ids <= users.Keys
    ensures forall k :: k in ids <==> k in users && users[k].role in {Manager, SuperManager}
  {
    IdsWithRole(users, {Manager, SuperManager})
  }

  /** The active ones among them. */
  function ActiveStaff(users: map<int, User>): (ids: set<int>)
    ensures ids <= Staff(users)
    ensures forall k :: k in ids <==> k in Staff(users) && users[k].isActive
  {
    set k | k in Staff(users) && users[k].isActive
  }

  /** The manager branch: `$user->clients()` counted, then counted again among those with a manager. */
  function OwnCounts(actor: User, clients: map<int, Client>): (c: Counts)
    ensures c.total == |ManagedClients(actor, clients)|
    ensures c.active == c.total
  {
    var own := ManagedClients(actor, clients);
    var withManager := set k | k in own && clients[k].managerId.Some?;
    assert withManager == own;
    Counts(|withManager|, |own|)
  }

  /** The branch of a super_manager or an admin. */
  function OverallCounts(users: map<int, User>, clients: map<int, Client>): (s: Statistics)
    ensures s.clients == Counts(|Assigned(clients)|, |clients|)
    ensures s.clients.active <= s.clients.total
    ensures s.managers == Some(Counts(|ActiveStaff(users)|, |Staff(users)|))
    ensures s.managers.value.active <= s.managers.value.total
  {
    SubsetCard(Assigned(clients), clients.Keys);
    SubsetCard(ActiveStaff(users), Staff(users));
    Statistics(Counts(|Assigned(clients)|, |clients|), Some(Counts(|ActiveStaff(users)|, |Staff(users)|)))
  }

  /** The closure. */
  function Dashboard(actor: User, users: map<int, User>, clients: map<int, Client>): (s: Statistics)
    ensures s.managers.Some? <==> !IsManager(actor)
    ensures IsManager(actor) ==> s.clients.total == |ManagedClients(actor, clients)| && s.clients.active == s.clients.total
    ensures !IsManager(actor) ==> s.clients.total == |clients| && s.clients.active <= s.clients.total
    ensures s.managers.Some? ==> s.managers.value.total == |Staff(users)| && s.managers.value.active <= s.managers.value.total
    ensures IsManager(actor) ==> s == Statistics(OwnCounts(actor, clients), None)
    ensures !IsManager(actor) ==> s == OverallCounts(users, clients)
    ensures !IsManager(actor) ==> s.clients.active == |Assigned(clients)| && s.managers.value.active == |ActiveStaff(users)|
  {
    if IsManager(actor) then Statistics(OwnCounts(actor, clients), None)
    else OverallCounts(users, clients)
  }

  /** A subset is no larger than its superset. */
  lemma {:induction false} SubsetCard<T>(a: set<T>, b: set<T>)
    requires a <= b
    ensures |a| <= |b|
  {
    if a != {} {
      var x :| x in a;
      SubsetCard(a - {x}, b - {x});
    }
  }

  /** Adding an admin changes no count: admins are never counted as managers. */
  lemma AdminsNotCounted(users: map<int, User>, id: int, admin: User)
    requires id !in users && admin.role == Admin
    ensures Staff(users[id := admin]) == Staff(users)
    ensures ActiveStaff(users[id := admin]) == ActiveStaff(users)
  {
  }

  /** The manager counts of the two privileged roles are the same. */
  lemma PrivilegedDashboardsAgree(a: User, b: User, users: map<int, User>, clients: map<int, Client>)
    requires !IsManager(a) && !IsManager(b)
    ensures Dashboard(a, users, clients) == Dashboard(b, users, clients)
  {
  }
}
