/**
 * app/Http/Controllers/ClientController.php. `index` and `show` read the store; `store`,
 * `update`, `destroy` and `changeManager` change the clients table.
 *
 * The order of checks follows the framework: the route's client is looked up first (404); a
 * form request (`StoreClientRequest`, `UpdateClientRequest`) is validated while the action's
 * arguments are resolved, so before the action's own `Gate::authorize`; `changeManager` takes a
 * plain request and validates after its two authorization checks.
 */
module ClientController {
  import opened Wrappers
  import opened Roles
  import opened Php
  import opened Models
  import opened Validator
  import opened Listing
  import opened Responses
  import opened Store
  import ClientPolicy
  import StoreClientRequest
  import UpdateClientRequest

  // ----- index -----

  /** The query string of the listing. */
  datatype ListQuery = ListQuery(search: Option<string>, sortBy: Option<string>, sortOrder: Direction, page: int)

  /** What `index` hands to the page: one page of clients, their total, and the managers pick-list. */
  datatype ClientList = ClientList(rows: seq<Client>, total: nat, managers: Option<set<int>>)

  /** `$allowedSortColumns`. */
  const SortColumns: set<string> := {"id", "name", "email"}

  /**
   * The where-clauses of `index`: a manager's own clients only, then, when a search is given,
   * those whose name or email matches `%search%` (`like` is the store's LIKE under its collation).
   */
  predicate Listed(actor: User, q: ListQuery, like: (string, string) -> bool, c: Client): (b: bool)
    ensures !IsManager(actor) && !SearchGiven(q.search) ==> b
    ensures b && IsManager(actor) ==> c.managerId == Some(actor.id)
    ensures b && SearchGiven(q.search) ==> like(c.name, q.search.value) || like(c.email, q.search.value)
    ensures IsManager(actor) && c.managerId == Some(actor.id) && !SearchGiven(q.search) ==> b
    ensures ((IsManager(actor) ==> c.managerId == Some(actor.id)) && SearchGiven(q.search)
             && (like(c.name, q.search.value) || like(c.email, q.search.value))) ==> b
  {
    (IsManager(actor) ==> c.managerId == Some(actor.id))
    && (SearchGiven(q.search) ==> like(c.name, q.search.value) || like(c.email, q.search.value))
  }

  /** The order on one allowed column. */
  function ColumnOrder(col: string): (Client, Client) -> bool {
    if col == "name" then (a: Client, b: Client) => StrLe(a.name, b.name)
    else if col == "email" then (a: Client, b: Client) => StrLe(a.email, b.email)
    else (a: Client, b: Client) => a.id <= b.id
  }

  lemma ColumnOrderTotal(col: string, dir: Direction)
    ensures Total(Directed(ColumnOrder(col), dir))
  {
    forall a: Client, b: Client ensures ColumnOrder(col)(a, b) || ColumnOrder(col)(b, a) {
      StrLeTotal(a.name, b.name);
      StrLeTotal(a.email, b.email);
    }
    DirectedTotal(ColumnOrder(col), dir);
  }

  /** The `orderBy` of a query: the allowed column in the requested direction, if any. */
  function QueryOrder(q: ListQuery): (le: Option<(Client, Client) -> bool>)
    ensures le.Some? ==> Total(le.value)
    ensures le.Some? <==> SortColumn(q.sortBy, SortColumns).Some?
    ensures SortColumn(q.sortBy, SortColumns).Some? ==>
            le == Some(Directed(ColumnOrder(SortColumn(q.sortBy, SortColumns).value), q.sortOrder))
  {
    match SortColumn(q.sortBy, SortColumns)
    case None => None
    case Some(col) => ColumnOrderTotal(col, q.sortOrder); Some(Directed(ColumnOrder(col), q.sortOrder))
  }

  /**
   * The full result of the query before it is cut into pages. `table` is the clients table in the
   * order the store yields it when there is no ORDER BY.
   */
  function Matching(actor: User, table: seq<Client>, q: ListQuery, like: (string, string) -> bool): (r: seq<Client>)
    ensures forall i :: 0 <= i < |r| ==> r[i] in table && Listed(actor, q, like, r[i])
    ensures forall c :: multiset(r)[c] == if Listed(actor, q, like, c) then multiset(table)[c] else 0
    ensures QueryOrder(q).Some? ==> Sorted(r, QueryOrder(q).value)
  {
    var rows := Filter(table, c => Listed(actor, q, like, c));
    var r := Arrange(rows, QueryOrder(q));
    assert forall i :: 0 <= i < |r| ==> r[i] in multiset(rows);
    r
  }

  /** The users offered as owners to a privileged actor: active users whose role is manager. */
  function PickList(users: map<int, User>): (ids: set<int>)
    ensures forall k :: k in ids <==> k in users && users[k].role == Manager && users[k].isActive
  {
    set k | k in users && users[k].role == Manager && users[k].isActive
  }

  /** `index`. `Gate::authorize('viewAny')` always passes. */
  function Index(actor: User, table: seq<Client>, users: map<int, User>, q: ListQuery,
                 like: (string, string) -> bool): (r: ClientList)
    ensures r.rows == PageOf(Matching(actor, table, q, like), q.page)
    ensures |r.rows| <= PerPage && r.total == |Matching(actor, table, q, like)|
    ensures forall i :: 0 <= i < |r.rows| ==> r.rows[i] in table && Listed(actor, q, like, r.rows[i])
    ensures IsManager(actor) ==> forall i :: 0 <= i < |r.rows| ==> r.rows[i].managerId == Some(actor.id)
    ensures r.managers.Some? <==> IsPrivileged(actor.role)
    ensures r.managers.Some? ==> r.managers.value == PickList(users)
  {
    ValueInPrivilegedValues(actor.role);
    var all := Matching(actor, table, q, like);
    var managers := if InArray(Text(actor.role.Value()), PrivilegedValues()) then Some(PickList(users)) else None;
    ClientList(PageOf(all, q.page), |all|, managers)
  }

  /** Without a search, a super_manager or admin gets every client of the table. */
  lemma PrivilegedSeesEveryClient(actor: User, table: seq<Client>, q: ListQuery, like: (string, string) -> bool)
    requires IsPrivileged(actor.role) && !SearchGiven(q.search)
    ensures multiset(Matching(actor, table, q, like)) == multiset(table)
  {
    var r := Matching(actor, table, q, like);
    forall c ensures multiset(r)[c] == multiset(table)[c] {
      assert Listed(actor, q, like, c);
    }
  }

  /**
   * Without a search and with a `sort_by` outside the allow-list, a super_manager or admin gets the
   * table exactly as the store yields it.
   */
  lemma PrivilegedUnsortedSeesTable(actor: User, table: seq<Client>, q: ListQuery, like: (string, string) -> bool)
    requires IsPrivileged(actor.role) && !SearchGiven(q.search)
    requires q.sortBy.Some? && q.sortBy.value !in SortColumns
    ensures Matching(actor, table, q, like) == table
  {
    FilterKeepsAll(table, c => Listed(actor, q, like, c));
  }

  /** `table` lists the rows of `clients`, each once, in some order. */
  ghost predicate Lists(table: seq<Client>, clients: map<int, Client>) {
    (forall i :: 0 <= i < |table| ==> table[i].id in clients && clients[table[i].id] == table[i])
    && (forall k :: k in clients ==> clients[k] in table)
    && (forall i, j :: 0 <= i < j < |table| ==> table[i].id != table[j].id)
  }

  /**
   * A stored client that passes the filters appears in the listing read from the store: in
   * particular the client `store` has just added.
   */
  lemma StoredClientIsListed(actor: User, table: seq<Client>, clients: map<int, Client>, q: ListQuery,
                             like: (string, string) -> bool, k: int)
    requires Lists(table, clients) && k in clients && Listed(actor, q, like, clients[k])
    ensures clients[k] in Matching(actor, table, q, like)
  {
    var r := Matching(actor, table, q, like);
    assert clients[k] in multiset(table);
    assert multiset(r)[clients[k]] == multiset(table)[clients[k]];
    assert clients[k] in multiset(r);
  }

  /** A client appears in a manager's results only if it is the manager's own. */
  lemma ManagerSeesOnlyOwnClients(actor: User, table: seq<Client>, q: ListQuery,
                                  like: (string, string) -> bool, c: Client)
    requires IsManager(actor) && c in Matching(actor, table, q, like)
    ensures c.managerId == Some(actor.id) && c in table
  {
    var r := Matching(actor, table, q, like);
    var i :| 0 <= i < |r| && r[i] == c;
  }

  /** With no `sort_by` and the default direction, the results come ordered by ascending id. */
  lemma DefaultOrderIsIdAscending(actor: User, table: seq<Client>, q: ListQuery, like: (string, string) -> bool)
    requires q.sortBy.None? && q.sortOrder == Asc
    ensures var r := Matching(actor, table, q, like);
            forall i :: 0 < i < |r| ==> r[i - 1].id <= r[i].id
  {
    var r := Matching(actor, table, q, like);
    assert QueryOrder(q) == Some(ColumnOrder("id"));
    assert Sorted(r, ColumnOrder("id"));
  }

  /** With an allowed `sort_by`, the results come ordered on that column in the requested direction. */
  lemma OrderedByRequestedColumn(actor: User, table: seq<Client>, q: ListQuery, like: (string, string) -> bool)
    requires q.sortBy.Some? && q.sortBy.value in SortColumns
    ensures Sorted(Matching(actor, table, q, like), Directed(ColumnOrder(q.sortBy.value), q.sortOrder))
  {
  }

  /** Ordered by name, descending: each row's name is at least the next one's. */
  lemma NameDescending(actor: User, table: seq<Client>, q: ListQuery, like: (string, string) -> bool)
    requires q.sortBy == Some("name") && q.sortOrder == Desc
    ensures var r := Matching(actor, table, q, like);
            forall i :: 0 < i < |r| ==> StrLe(r[i].name, r[i - 1].name)
  {
    OrderedByRequestedColumn(actor, table, q, like);
  }

  /** A `sort_by` outside the allow-list orders nothing: the rows stay in the order the store gave. */
  lemma UnknownSortKeepsStoreOrder(actor: User, table: seq<Client>, q: ListQuery, like: (string, string) -> bool)
    requires q.sortBy.Some? && q.sortBy.value !in SortColumns
    ensures Matching(actor, table, q, like) == Filter(table, c => Listed(actor, q, like, c))
  {
  }

  // ----- show -----

  /** `show`: the client with its manager, if the actor may view it. */
  function Show(actor: User, clients: map<int, Client>, users: map<int, User>, clientId: int)
    : (r: Result<(Client, Option<User>)>)
    ensures clientId !in clients ==> r == Err(NotFound)
    ensures clientId in clients ==> (r.Ok? <==> ClientPolicy.View(actor, clients[clientId]))
    ensures clientId in clients && r.Err? ==> r.failure == Forbidden
    ensures r.Ok? ==> r.value == (clients[clientId], ManagerOf(clients[clientId], users))
  {
    if clientId !in clients then Err(NotFound)
    else if !ClientPolicy.View(actor, clients[clientId]) then Err(Forbidden)
    else Ok((clients[clientId], ManagerOf(clients[clientId], users)))
  }

  // ----- store -----

  /**
   * The row `store` creates from validated data: name and email as submitted, owned by the actor
   * when the actor is a manager, by the submitted `manager_id` otherwise.
   */
  function CreatedClient(actor: User, input: Input, id: int): (c: Client)
    requires StoreClientRequest.NameOk(input) && "email" in input && input["email"].Str?
    requires !IsManager(actor) ==> "manager_id" in input && input["manager_id"].Int?
    ensures c.id == id && input["name"] == Str(c.name) && input["email"] == Str(c.email)
    ensures IsManager(actor) ==> c.managerId == Some(actor.id)
    ensures !IsManager(actor) ==> c.managerId == Some(input["manager_id"].i)
  {
    Client(id, input["name"].s, input["email"].s,
           Some(if IsManager(actor) then actor.id else input["manager_id"].i))
  }

  /** `store`. */
  method StoreClient(db: Database, actor: User, input: Input, isEmail: string -> bool) returns (r: Outcome)
    requires db.Valid()
    modifies db
    ensures db.Valid() && db.users == old(db.users)
    ensures var v := StoreClientRequest.Validate(actor, input, old(db.clients), old(db.users), isEmail);
            v.Failed? ==> r == Fail(Invalid(v.errors)) && db.clients == old(db.clients)
    ensures StoreClientRequest.Validate(actor, input, old(db.clients), old(db.users), isEmail).Passed? ==>
            r == Done && db.clients == old(db.clients)[old(db.nextClientId) := CreatedClient(actor, input, old(db.nextClientId))]
    ensures old(UniqueClientEmails(db.clients)) ==> UniqueClientEmails(db.clients)
    ensures db.nextUserId == old(db.nextUserId)
    ensures db.nextClientId == old(db.nextClientId) + (if r == Done then 1 else 0)
  {
    var v := StoreClientRequest.Validate(actor, input, db.clients, db.users, isEmail);
    if v.Failed? {
      r := Fail(Invalid(v.errors));
      return;
    }
    // Gate::authorize('create') lets every actor through.
    var data := v.validated;
    if IsManager(actor) {
      data := data["manager_id" := Int(actor.id)];
    }
    var filled := FillClient(Client(0, "", "", None), data);
    var id := db.InsertClient(filled.value);
    r := Done;
  }

  // ----- update -----

  /** `update`. */
  method UpdateClient(db: Database, actor: User, clientId: int, input: Input, isEmail: string -> bool)
    returns (r: Outcome)
    requires db.Valid()
    modifies db
    ensures db.nextClientId == old(db.nextClientId) && db.nextUserId == old(db.nextUserId)
    ensures db.Valid() && db.users == old(db.users)
    ensures clientId !in old(db.clients) ==> r == Fail(NotFound) && db.clients == old(db.clients)
    ensures clientId in old(db.clients) ==>
            var v := UpdateClientRequest.Validate(actor, input, clientId, old(db.clients), old(db.users), isEmail);
            (v.Failed? ==> r == Fail(Invalid(v.errors)) && db.clients == old(db.clients))
            && (v.Passed? && !ClientPolicy.Update(actor, old(db.clients)[clientId]) ==>
                  r == Fail(Forbidden) && db.clients == old(db.clients))
            && (v.Passed? && ClientPolicy.Update(actor, old(db.clients)[clientId]) ==>
                  r == Done && FillClient(old(db.clients)[clientId], v.validated).Some?
                  && db.clients == old(db.clients)[clientId := FillClient(old(db.clients)[clientId], v.validated).value])
    ensures r == Done ==> db.clients[clientId].managerId == old(db.clients)[clientId].managerId
    ensures r == Done && "name" in input ==> input["name"] == Str(db.clients[clientId].name)
    ensures r == Done && "email" in input ==> input["email"] == Str(db.clients[clientId].email)
    ensures old(UniqueClientEmails(db.clients)) && Normalized(input) ==> UniqueClientEmails(db.clients)
  {
    if clientId !in db.clients {
      r := Fail(NotFound);
      return;
    }
    var v := UpdateClientRequest.Validate(actor, input, clientId, db.clients, db.users, isEmail);
    if v.Failed? {
      r := Fail(Invalid(v.errors));
      return;
    }
    var client := db.clients[clientId];
    if !ClientPolicy.Update(actor, client) {
      r := Fail(Forbidden);
      return;
    }
    UpdateClientRequest.ManagerIdNeverValidated(actor, input, clientId, db.clients, db.users, isEmail);
    var filled := FillClient(client, v.validated);
    db.SaveClient(filled.value);
    r := Done;
  }

  // ----- destroy -----

  /** `destroy`. */
  method DestroyClient(db: Database, actor: User, clientId: int) returns (r: Outcome)
    requires db.Valid()
    modifies db
    ensures db.nextClientId == old(db.nextClientId) && db.nextUserId == old(db.nextUserId)
    ensures db.Valid() && db.users == old(db.users)
    ensures clientId !in old(db.clients) ==> r == Fail(NotFound) && db.clients == old(db.clients)
    ensures clientId in old(db.clients) && !ClientPolicy.Delete(actor, old(db.clients)[clientId]) ==>
            r == Fail(Forbidden) && db.clients == old(db.clients)
    ensures clientId in old(db.clients) && ClientPolicy.Delete(actor, old(db.clients)[clientId]) ==>
            r == Done && db.clients == old(db.clients) - {clientId}
  {
    if clientId !in db.clients {
      r := Fail(NotFound);
      return;
    }
    if !ClientPolicy.Delete(actor, db.clients[clientId]) {
      r := Fail(Forbidden);
      return;
    }
    db.DeleteClient(clientId);
    r := Done;
  }

  // ----- changeManager -----

  /** The inline rule of `changeManager`: `manager_id` required and the id of any existing user. */
  function ChangeManagerRules(users: map<int, User>): (rules: Rules)
    ensures rules.Keys == {"manager_id"}
  {
    map["manager_id" := [Required, Exists(users.Keys)]]
  }

  /** The outcome of that validation: it passes exactly for the id of an existing user, whatever its role. */
  function ChangeManagerValidate(input: Input, users: map<int, User>): (v: Validation)
    ensures v.Passed? <==> "manager_id" in input && input["manager_id"].Int? && input["manager_id"].i in users
    ensures v.Failed? ==> v.errors == {"manager_id"}
  {
    var isEmail := (s: string) => false;
    TwoRules(input, "manager_id", Required, Exists(users.Keys), isEmail);
    var v := Validator.Validate(input, ChangeManagerRules(users), isEmail);
    assert v.Failed? ==> "manager_id" in v.errors;
    v
  }

  /** `changeManager`. */
  method ChangeManager(db: Database, actor: User, clientId: int, input: Input) returns (r: Outcome)
    requires db.Valid()
    modifies db
    ensures db.nextClientId == old(db.nextClientId) && db.nextUserId == old(db.nextUserId)
    ensures db.Valid() && db.users == old(db.users)
    ensures clientId !in old(db.clients) ==> r == Fail(NotFound) && db.clients == old(db.clients)
    ensures clientId in old(db.clients) && !(ClientPolicy.Update(actor, old(db.clients)[clientId]) && IsPrivileged(actor.role)) ==>
            r == Fail(Forbidden) && db.clients == old(db.clients)
    ensures clientId in old(db.clients) && IsPrivileged(actor.role) && ChangeManagerValidate(input, old(db.users)).Failed? ==>
            r == Fail(Invalid({"manager_id"})) && db.clients == old(db.clients)
    ensures clientId in old(db.clients) && IsPrivileged(actor.role) && ChangeManagerValidate(input, old(db.users)).Passed? ==>
            r == Done
            && db.clients == old(db.clients)[clientId := old(db.clients)[clientId].(managerId := Some(input["manager_id"].i))]
  {
    if clientId !in db.clients {
      r := Fail(NotFound);
      return;
    }
    var client := db.clients[clientId];
    if !ClientPolicy.Update(actor, client) {
      r := Fail(Forbidden);
      return;
    }
    ValueInPrivilegedValues(actor.role);
    if !InArray(Text(actor.role.Value()), PrivilegedValues()) {
      r := Fail(Forbidden);
      return;
    }
    var v := ChangeManagerValidate(input, db.users);
    if v.Failed? {
      r := Fail(Invalid(v.errors));
      return;
    }
    db.SaveClient(client.(managerId := Some(input["manager_id"].i)));
    r := Done;
  }

  /** A manager can never reassign a client, not even its own. */
  lemma ManagerNeverChangesManager(actor: User, client: Client)
    requires IsManager(actor)
    ensures !(ClientPolicy.Update(actor, client) && IsPrivileged(actor.role))
  {
  }
}
