/**
 * The two Eloquent models of app/Models/User.php and app/Models/Client.php: their records, the
 * role predicates, mass assignment through `fill`, and the one-to-many ownership relation
 * between a user and the clients whose `manager_id` names it.
 *
 * A table is a map from the id column to the record; `UsersKeyed` and `ClientsKeyed` say that
 * each record's id is its key.
 */
module Models {
  import opened Wrappers
  import opened Roles
  import opened Php

  /** A row of `users`. `password` holds whatever the hashed cast stored. */
  datatype User = User(
    id: int,
    name: string,
    email: string,
    password: string,
    role: UserRole,
    isActive: bool,
    emailVerifiedAt: Option<int>,
    rememberToken: Option<string>)

  /** A row of `clients`; `managerId` is the nullable `manager_id` column. */
  datatype Client = Client(id: int, name: string, email: string, managerId: Option<int>)

  ghost predicate UsersKeyed(users: map<int, User>) {
    forall k :: k in users ==> users[k].id == k
  }

  ghost predicate ClientsKeyed(clients: map<int, Client>) {
    forall k :: k in clients ==> clients[k].id == k
  }

  // ----- role predicates (User.php) -----

  /** `isManager()`: the one role without the privileges of the other two. */
  predicate IsManager(u: User): (b: bool)
    ensures b <==> !IsPrivileged(u.role)
    ensures b <==> u.role.Value() == "manager"
  {
    u.role == Manager
  }

  /** `isSuperManager()`. */
  predicate IsSuperManager(u: User): (b: bool)
    ensures b <==> u.role.Value() == "super_manager"
    ensures b ==> IsPrivileged(u.role)
  {
    u.role == SuperManager
  }

  /** `isAdmin()`. */
  predicate IsAdmin(u: User): (b: bool)
    ensures b <==> u.role.Value() == "admin"
    ensures b ==> IsPrivileged(u.role)
  {
    u.role == Admin
  }

  /** Every user satisfies exactly one of the three role predicates. */
  lemma ExactlyOneRole(u: User)
    ensures IsManager(u) || IsSuperManager(u) || IsAdmin(u)
    ensures !(IsManager(u) && IsSuperManager(u)) && !(IsManager(u) && IsAdmin(u))
            && !(IsSuperManager(u) && IsAdmin(u))
    ensures IsManager(u) <==> !IsPrivileged(u.role)
  {
  }

  // ----- the ownership relation -----

  /**
   * The clients `where manager_id = id`: the `managedClients()` relation of the user with that id,
   * which `clients()` returns unchanged.
   */
  function Portfolio(clients: map<int, Client>, id: int): (p: set<int>)
    ensures p <= clients.Keys
  {
    set k | k in clients && clients[k].managerId == Some(id)
  }

  /** `$user->clients()`, the alias of `$user->managedClients()`. */
  function ManagedClients(u: User, clients: map<int, Client>): (p: set<int>)
    ensures forall k :: k in p <==> k in clients && clients[k].managerId == Some(u.id)
  {
    Portfolio(clients, u.id)
  }

  /** `$client->manager`: the user whose id is the client's `manager_id`, if that user exists. */
  function ManagerOf(c: Client, users: map<int, User>): (m: Option<User>)
    ensures UsersKeyed(users) && m.Some? ==> c.managerId == Some(m.value.id)
    ensures c.managerId.None? ==> m.None?
  {
    match c.managerId
    case None => None
    case Some(id) => if id in users then Some(users[id]) else None
  }

  /** A client whose `manager_id` is null belongs to nobody. */
  lemma UnownedInNoPortfolio(clients: map<int, Client>, k: int, u: User)
    requires k in clients && clients[k].managerId.None?
    ensures k !in ManagedClients(u, clients)
  {
  }

  /**
   * `belongsTo` and `hasMany` over `manager_id` are inverse: an existing user is a client's manager
   * exactly when the client is among that user's clients.
   */
  lemma ManagerOfInverse(users: map<int, User>, clients: map<int, Client>, k: int, u: User)
    requires UsersKeyed(users)
    requires k in clients
    requires u.id in users && users[u.id] == u
    ensures ManagerOf(clients[k], users) == Some(u) <==> k in ManagedClients(u, clients)
  {
  }

  // ----- mass assignment -----

  /** `User::$fillable`. */
  const UserFillable: set<string> := {"name", "email", "password", "role", "is_active"}

  /** `Client::$fillable`. */
  const ClientFillable: set<string> := {"name", "email", "manager_id"}

  /** A text column set from `attrs[key]`, the current value when the key is absent, None for a non-string. */
  function TextAttribute(attrs: Input, key: string, current: string): Option<string> {
    if key !in attrs then Some(current)
    else match attrs[key]
      case Str(s) => Some(s)
      case _ => None
  }

  /** The `role` column: a string is cast with `UserRole::from`, which fails on anything but a backing value. */
  function RoleAttribute(attrs: Input, current: UserRole): Option<UserRole> {
    if "role" !in attrs then Some(current)
    else match attrs["role"]
      case Str(s) => TryFrom(s)
      case _ => None
  }

  /** The `is_active` column read back through the boolean cast; null does not fit the column. */
  function FlagAttribute(attrs: Input, current: bool): Option<bool> {
    if "is_active" !in attrs then Some(current)
    else match attrs["is_active"]
      case Bool(b) => Some(b)
      case Int(i) => Some(i != 0)
      case Str(s) => Some(Truthy(s))
      case Null => None
  }

  /** The nullable `manager_id` column. */
  function ManagerIdAttribute(attrs: Input, current: Option<int>): Option<Option<int>> {
    if "manager_id" !in attrs then Some(current)
    else match attrs["manager_id"]
      case Int(i) => Some(Some(i))
      case Null => Some(None)
      case _ => None
  }

  /** A text column accepts only a string. */
  predicate TextFits(attrs: Input, key: string) {
    key !in attrs || attrs[key].Str?
  }

  /**
   * The attributes a user row can take: strings for the text columns, one of the three backing
   * values for `role`, anything but null for `is_active`.
   */
  predicate UserAttrsFit(attrs: Input) {
    TextFits(attrs, "name") && TextFits(attrs, "email") && TextFits(attrs, "password")
    && ("role" !in attrs || (attrs["role"].Str? && attrs["role"].s in RoleValues))
    && ("is_active" !in attrs || !attrs["is_active"].Null?)
  }

  /** The attributes a client row can take: strings for the text columns, an integer or null for `manager_id`. */
  predicate ClientAttrsFit(attrs: Input) {
    TextFits(attrs, "name") && TextFits(attrs, "email")
    && ("manager_id" !in attrs || attrs["manager_id"].Int? || attrs["manager_id"].Null?)
  }

  /**
   * `$user->fill($attrs)`: every fillable key present in `attrs` sets its column, every other key is
   * silently discarded. None when a value does not fit its column as this model types it: a failed enum cast, a null
   * flag, or a text column given anything but a string.
   */
  function FillUser(u: User, attrs: Input): (r: Option<User>)
    ensures r.Some? ==> r.value.id == u.id && r.value.emailVerifiedAt == u.emailVerifiedAt
                        && r.value.rememberToken == u.rememberToken
    ensures r.Some? && "name" !in attrs ==> r.value.name == u.name
    ensures r.Some? && "email" !in attrs ==> r.value.email == u.email
    ensures r.Some? && "password" !in attrs ==> r.value.password == u.password
    ensures r.Some? && "role" !in attrs ==> r.value.role == u.role
    ensures r.Some? && "is_active" !in attrs ==> r.value.isActive == u.isActive
    ensures attrs.Keys !! UserFillable ==> r == Some(u)
    ensures r.Some? <==> UserAttrsFit(attrs)
    ensures r.Some? && "name" in attrs ==> attrs["name"] == Str(r.value.name)
    ensures r.Some? && "email" in attrs ==> attrs["email"] == Str(r.value.email)
    ensures r.Some? && "password" in attrs ==> attrs["password"] == Str(r.value.password)
    ensures r.Some? && "role" in attrs ==> attrs["role"] == Str(r.value.role.Value())
    ensures r.Some? && "is_active" in attrs && attrs["is_active"].Bool? ==> r.value.isActive == attrs["is_active"].b
    ensures r.Some? && "is_active" in attrs && attrs["is_active"].Int? ==> (r.value.isActive <==> attrs["is_active"].i != 0)
    ensures r.Some? && "is_active" in attrs && attrs["is_active"].Str? ==> (r.value.isActive <==> Truthy(attrs["is_active"].s))
  {
    var name := TextAttribute(attrs, "name", u.name);
    var email := TextAttribute(attrs, "email", u.email);
    var password := TextAttribute(attrs, "password", u.password);
    var role := RoleAttribute(attrs, u.role);
    var active := FlagAttribute(attrs, u.isActive);
    if name.Some? && email.Some? && password.Some? && role.Some? && active.Some? then
      Some(u.(name := name.value, email := email.value, password := password.value,
              role := role.value, isActive := active.value))
    else None
  }

  /** `$client->fill($attrs)`, with `Client::$fillable`; the id never changes. */
  function FillClient(c: Client, attrs: Input): (r: Option<Client>)
    ensures r.Some? ==> r.value.id == c.id
    ensures r.Some? && "name" !in attrs ==> r.value.name == c.name
    ensures r.Some? && "email" !in attrs ==> r.value.email == c.email
    ensures r.Some? && "manager_id" !in attrs ==> r.value.managerId == c.managerId
    ensures attrs.Keys !! ClientFillable ==> r == Some(c)
    ensures r.Some? <==> ClientAttrsFit(attrs)
    ensures r.Some? && "name" in attrs ==> attrs["name"] == Str(r.value.name)
    ensures r.Some? && "email" in attrs ==> attrs["email"] == Str(r.value.email)
    ensures r.Some? && "manager_id" in attrs && attrs["manager_id"].Int? ==> r.value.managerId == Some(attrs["manager_id"].i)
    ensures r.Some? && "manager_id" in attrs && attrs["manager_id"].Null? ==> r.value.managerId.None?
  {
    var name := TextAttribute(attrs, "name", c.name);
    var email := TextAttribute(attrs, "email", c.email);
    var manager := ManagerIdAttribute(attrs, c.managerId);
    if name.Some? && email.Some? && manager.Some? then
      Some(c.(name := name.value, email := email.value, managerId := manager.value))
    else None
  }

  /** Only the fillable keys matter to a user fill: dropping every other key changes nothing. */
  lemma FillUserIgnoresGuarded(u: User, attrs: Input)
    ensures FillUser(u, attrs) == FillUser(u, map k | k in attrs && k in UserFillable :: attrs[k])
  {
  }

  /** Only the fillable keys matter to a client fill. */
  lemma FillClientIgnoresGuarded(c: Client, attrs: Input)
    ensures FillClient(c, attrs) == FillClient(c, map k | k in attrs && k in ClientFillable :: attrs[k])
  {
  }

  // ----- table queries shared by the rules and the controllers -----

  /** The emails of the clients other than `except`, the table a `unique:clients,email` rule reads. */
  function ClientEmails(clients: map<int, Client>, except: Option<int>): (e: set<string>)
    ensures forall k :: k in clients && Some(k) != except ==> clients[k].email in e
  {
    set k | k in clients && Some(k) != except :: clients[k].email
  }

  /** The emails of the users other than `except`. */
  function UserEmails(users: map<int, User>, except: Option<int>): (e: set<string>)
    ensures forall k :: k in users && Some(k) != except ==> users[k].email in e
  {
    set k | k in users && Some(k) != except :: users[k].email
  }

  /** The ids of the users whose role is one of `roles`. */
  function IdsWithRole(users: map<int, User>, roles: set<UserRole>): (ids: set<int>)
    ensures forall k :: k in ids <==> k in users && users[k].role in roles
  {
    set k | k in users && users[k].role in roles
  }

  /** No two clients share an email. */
  ghost predicate UniqueClientEmails(clients: map<int, Client>) {
    forall j, k :: j in clients && k in clients && j != k ==> clients[j].email != clients[k].email
  }

  /** No two users share an email. */
  ghost predicate UniqueUserEmails(users: map<int, User>) {
    forall j, k :: j in users && k in users && j != k ==> users[j].email != users[k].email
  }
}
