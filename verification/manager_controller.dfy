/**
 * app/Http/Controllers/ManagerController.php: the user administration pages. Every action is
 * gated by the user policy, so only a super_manager or an admin gets past it. Deleting a user
 * first hands every client of that user to a successor.
 */
module ManagerController {
  import opened Wrappers
  import opened Roles
  import opened Php
  import opened Models
  import opened Validator
  import opened Listing
  import opened Responses
  import opened Store
  import UserPolicy
  import UpdateManagerRequest
  import TransferClientsRequest

  // ----- index -----

  /** The query string of the listing. */
  datatype ListQuery = ListQuery(search: Option<string>, sortBy: Option<string>, sortOrder: Direction, page: int)

  /** One page of users and the number of users the query matched. */
  datatype UserList = UserList(rows: seq<User>, total: nat)

  /** `$allowedSortColumns`. */
  const SortColumns: set<string> := {"id", "name", "email", "is_active"}

  /** The where-clause of `index`: no role filter, only the search on name or email. */
  predicate Listed(q: ListQuery, like: (string, string) -> bool, u: User): (b: bool)
    ensures !SearchGiven(q.search) ==> b
    ensures b && SearchGiven(q.search) ==> like(u.name, q.search.value) || like(u.email, q.search.value)
    ensures SearchGiven(q.search) && (like(u.name, q.search.value) || like(u.email, q.search.value)) ==> b
  {
    SearchGiven(q.search) ==> like(u.name, q.search.value) || like(u.email, q.search.value)
  }

  /** The order on one allowed column; on `is_active` inactive users come first. */
  function ColumnOrder(col: string): (User, User) -> bool {
    if col == "name" then (a: User, b: User) => StrLe(a.name, b.name)
    else if col == "email" then (a: User, b: User) => StrLe(a.email, b.email)
    else if col == "is_active" then (a: User, b: User) => !a.isActive || b.isActive
    else (a: User, b: User) => a.id <= b.id
  }

  lemma ColumnOrderTotal(col: string, dir: Direction)
    ensures Total(Directed(ColumnOrder(col), dir))
  {
    forall a: User, b: User ensures ColumnOrder(col)(a, b) || ColumnOrder(col)(b, a) {
      StrLeTotal(a.name, b.name);
      StrLeTotal(a.email, b.email);
    }
    DirectedTotal(ColumnOrder(col), dir);
  }

  /** The `orderBy` of a query: the allowed column in the requested direction, if any. */
  function QueryOrder(q: ListQuery): (le: Option<(User, User) -> bool>)
    ensures le.Some? ==> Total(le.value)
    ensures le.Some? <==> SortColumn(q.sortBy, SortColumns).Some?
    ensures SortColumn(q.sortBy, SortColumns).Some? ==>
            le == Some(Directed(ColumnOrder(SortColumn(q.sortBy, SortColumns).value), q.sortOrder))
  {
    match SortColumn(q.sortBy, SortColumns)
    case None => None
    case Some(col) => ColumnOrderTotal(col, q.sortOrder); Some(Directed(ColumnOrder(col), q.sortOrder))
  }

  /** The full result of the query before it is cut into pages; `table` is the users table in store order. */
  function Matching(table: seq<User>, q: ListQuery, like: (string, string) -> bool): (r: seq<User>)
    ensures forall i :: 0 <= i < |r| ==> r[i] in table && Listed(q, like, r[i])
    ensures forall u :: multiset(r)[u] == if Listed(q, like, u) then multiset(table)[u] else 0
    ensures QueryOrder(q).Some? ==> Sorted(r, QueryOrder(q).value)
  {
    var rows := Filter(table, u => Listed(q, like, u));
    var r := Arrange(rows, QueryOrder(q));
    assert forall i :: 0 <= i < |r| ==> r[i] in multiset(rows);
    r
  }

  /** `index`: forbidden to a manager; otherwise one page of every user matching the search, of any role. */
  function Index(actor: User, table: seq<User>, q: ListQuery, like: (string, string) -> bool): (r: Result<UserList>)
    ensures r.Err? <==> IsManager(actor)
    ensures r.Err? ==> r.failure == Forbidden
    ensures r.Ok? ==> r.value.rows == PageOf(Matching(table, q, like), q.page)
    ensures r.Ok? ==> |r.value.rows| <= PerPage && r.value.total == |Matching(table, q, like)|
    ensures r.Ok? ==> forall i :: 0 <= i < |r.value.rows| ==> r.value.rows[i] in table && Listed(q, like, r.value.rows[i])
  {
    if !UserPolicy.ViewAny(actor) then Err(Forbidden)
    else
      var all := Matching(table, q, like);
      Ok(UserList(PageOf(all, q.page), |all|))
  }

  /** Ordered by `is_active`, ascending: every inactive user comes before every active one. */
  lemma InactiveFirst(table: seq<User>, q: ListQuery, like: (string, string) -> bool)
    requires q.sortBy == Some("is_active") && q.sortOrder == Asc
    ensures var r := Matching(table, q, like);
            forall i, j :: 0 <= i < j < |r| && r[j].isActive == false ==> r[i].isActive == false
  {
    var r := Matching(table, q, like);
    assert Sorted(r, ColumnOrder("is_active"));
    forall i, j | 0 <= i < j < |r| && r[j].isActive == false ensures r[i].isActive == false {
      var k := j;
      while k > i
        invariant i <= k <= j && r[k].isActive == false
      {
        k := k - 1;
      }
    }
  }

  /** Without a search the listing covers the whole users table, admins included. */
  lemma NoSearchListsEveryUser(table: seq<User>, q: ListQuery, like: (string, string) -> bool)
    requires !SearchGiven(q.search)
    ensures multiset(Matching(table, q, like)) == multiset(table)
  {
    var r := Matching(table, q, like);
    forall u ensures multiset(r)[u] == multiset(table)[u] {
      assert Listed(q, like, u);
    }
  }

  // ----- show -----

  /** `show`. */
  function Show(actor: User, users: map<int, User>, id: int): (r: Result<User>)
    ensures id !in users ==> r == Err(NotFound)
    ensures id in users ==> (r.Ok? <==> !IsManager(actor)) && (r.Ok? ==> r.value == users[id])
    ensures id in users && r.Err? ==> r.failure == Forbidden
  {
    if id !in users then Err(NotFound)
    else if !UserPolicy.View(actor, users[id]) then Err(Forbidden)
    else Ok(users[id])
  }

  // ----- store -----

  /**
   * The row `store` creates. The request's fields arrive already validated, the password already
   * hashed; `is_active` is read with `$request->boolean('is_active', true)`.
   */
  function NewUser(name: string, email: string, passwordHash: string, role: UserRole, isActive: Option<Value>): (u: User)
    ensures u.emailVerifiedAt.None? && u.rememberToken.None?
    ensures isActive.None? ==> u.isActive
    ensures u.isActive == RequestBoolean(isActive, true)
    ensures u.name == name && u.email == email && u.password == passwordHash && u.role == role
  {
    User(0, name, email, passwordHash, role, RequestBoolean(isActive, true), None, None)
  }

  /** `store`. */
  method StoreUser(db: Database, actor: User, name: string, email: string, passwordHash: string,
                   role: UserRole, isActive: Option<Value>) returns (r: Outcome)
    requires db.Valid()
    modifies db
    ensures db.Valid() && db.clients == old(db.clients)
    ensures IsManager(actor) ==> r == Fail(Forbidden) && db.users == old(db.users)
    ensures db.nextClientId == old(db.nextClientId)
    ensures db.nextUserId == old(db.nextUserId) + (if r == Done then 1 else 0)
    ensures !IsManager(actor) ==>
            (r == Done
             && db.users == old(db.users)[old(db.nextUserId) := NewUser(name, email, passwordHash, role, isActive).(id := old(db.nextUserId))])
  {
    if !UserPolicy.Create(actor) {
      r := Fail(Forbidden);
      return;
    }
    var id := db.InsertUser(NewUser(name, email, passwordHash, role, isActive));
    r := Done;
  }

  // ----- update -----

  /** `update`. */
  method UpdateUser(db: Database, actor: User, id: int, input: Input, isEmail: string -> bool) returns (r: Outcome)
    requires db.Valid()
    modifies db
    ensures db.nextClientId == old(db.nextClientId) && db.nextUserId == old(db.nextUserId)
    ensures db.Valid() && db.clients == old(db.clients)
    ensures id !in old(db.users) ==> r == Fail(NotFound) && db.users == old(db.users)
    ensures id in old(db.users) ==>
            var v := UpdateManagerRequest.Validate(input, id, old(db.users), isEmail);
            (v.Failed? ==> r == Fail(Invalid(v.errors)) && db.users == old(db.users))
            && (v.Passed? && IsManager(actor) ==> r == Fail(Forbidden) && db.users == old(db.users))
            && (v.Passed? && !IsManager(actor) && FillUser(old(db.users)[id], v.validated).None? ==>
                  r == Fail(ServerError) && db.users == old(db.users))
            && (v.Passed? && !IsManager(actor) && FillUser(old(db.users)[id], v.validated).Some? ==>
                  r == Done && db.users == old(db.users)[id := FillUser(old(db.users)[id], v.validated).value])
    ensures r == Done ==> db.users[id].password == old(db.users)[id].password
    ensures r == Done && "name" in input ==> input["name"] == Str(db.users[id].name)
    ensures r == Done && "email" in input ==> input["email"] == Str(db.users[id].email)
    ensures r == Done && "role" in input ==> input["role"] == Str(db.users[id].role.Value())
    ensures Normalized(input) ==> r != Fail(ServerError)
    ensures old(UniqueUserEmails(db.users)) && Normalized(input) ==> UniqueUserEmails(db.users)
  {
    if id !in db.users {
      r := Fail(NotFound);
      return;
    }
    var v := UpdateManagerRequest.Validate(input, id, db.users, isEmail);
    if v.Failed? {
      r := Fail(Invalid(v.errors));
      return;
    }
    var user := db.users[id];
    if !UserPolicy.Update(actor, user) {
      r := Fail(Forbidden);
      return;
    }
    var filled := FillUser(user, v.validated);
    if filled.None? {
      // Only reachable on input that still holds empty strings or nulls.
      if Normalized(input) {
        UpdateManagerRequest.ValidatedFills(input, id, db.users, isEmail, user);
      }
      r := Fail(ServerError);
      return;
    }
    UpdateManagerRequest.OnlyRuledFieldsValidated(input, id, db.users, isEmail);
    db.SaveUser(filled.value);
    r := Done;
  }

  // ----- destroy -----

  /** `destroy`: the portfolio goes to `new_manager_id`, then the user row is deleted. */
  method DestroyUser(db: Database, actor: User, id: int, input: Input) returns (r: Outcome)
    requires db.Valid()
    modifies db
    ensures db.nextClientId == old(db.nextClientId) && db.nextUserId == old(db.nextUserId)
    ensures db.Valid()
    ensures id !in old(db.users) ==> r == Fail(NotFound) && db.users == old(db.users) && db.clients == old(db.clients)
    ensures id in old(db.users) && !TransferClientsRequest.SuccessorOk(input, old(db.users)) ==>
            r == Fail(Invalid({"new_manager_id"})) && db.users == old(db.users) && db.clients == old(db.clients)
    ensures id in old(db.users) && TransferClientsRequest.SuccessorOk(input, old(db.users)) && IsManager(actor) ==>
            r == Fail(Forbidden) && db.users == old(db.users) && db.clients == old(db.clients)
    ensures id in old(db.users) && TransferClientsRequest.SuccessorOk(input, old(db.users)) && !IsManager(actor) ==>
            r == Done && db.users == old(db.users) - {id}
            && db.clients == Reassign(old(db.clients), id, input["new_manager_id"].i)
  {
    if id !in db.users {
      r := Fail(NotFound);
      return;
    }
    var v := TransferClientsRequest.Validate(input, db.users);
    if v.Failed? {
      r := Fail(Invalid(v.errors));
      return;
    }
    if !UserPolicy.Delete(actor, db.users[id]) {
      r := Fail(Forbidden);
      return;
    }
    db.UpdateManagerIds(id, input["new_manager_id"].i);
    db.DeleteUser(id);
    r := Done;
  }

  /** Every client that names a manager names an existing user. */
  ghost predicate ManagersExist(clients: map<int, Client>, users: map<int, User>) {
    forall k :: k in clients && clients[k].managerId.Some? ==> clients[k].managerId.value in users
  }

  /** After a transfer to another user, the deleted user's portfolio is empty and the successor's has grown by it. */
  lemma TransferMovesPortfolio(clients: map<int, Client>, target: int, successor: int)
    requires target != successor
    ensures Portfolio(Reassign(clients, target, successor), target) == {}
    ensures Portfolio(Reassign(clients, target, successor), successor)
            == Portfolio(clients, successor) + Portfolio(clients, target)
  {
  }

  /** A transfer leaves every other manager's portfolio as it was. */
  lemma TransferKeepsOtherPortfolios(clients: map<int, Client>, target: int, successor: int, other: int)
    requires other != target && other != successor
    ensures Portfolio(Reassign(clients, target, successor), other) == Portfolio(clients, other)
  {
    var after := Reassign(clients, target, successor);
    forall k ensures k in Portfolio(after, other) <==> k in Portfolio(clients, other) {
      if k in clients {
        assert after[k].managerId == Some(other) <==> clients[k].managerId == Some(other);
      }
    }
  }

  /** Only the `manager_id` column moves: names, emails and the set of clients stay. */
  lemma TransferTouchesOnlyManagerIds(clients: map<int, Client>, target: int, successor: int, k: int)
    requires k in clients
    ensures var after := Reassign(clients, target, successor);
            k in after && after[k].(managerId := clients[k].managerId) == clients[k]
  {
  }

  /** Deleting a user who owns no client changes no client, whoever the successor is. */
  lemma EmptyPortfolioTransferChangesNothing(clients: map<int, Client>, target: int, successor: int)
    requires Portfolio(clients, target) == {}
    ensures Reassign(clients, target, successor) == clients
  {
    var after := Reassign(clients, target, successor);
    forall k | k in clients ensures after[k] == clients[k] {
      assert k !in Portfolio(clients, target);
    }
  }

  /** Naming the deleted user as its own successor changes no client. */
  lemma SelfTransferChangesNothing(clients: map<int, Client>, target: int)
    ensures Reassign(clients, target, target) == clients
  {
    var after := Reassign(clients, target, target);
    forall k | k in clients ensures after[k] == clients[k] {
      if clients[k].managerId == Some(target) {
        assert clients[k].(managerId := Some(target)) == clients[k];
      }
    }
  }

  /**
   * A destroy with a successor other than the deleted user keeps every client's manager an
   * existing user.
   */
  lemma TransferKeepsManagersExisting(clients: map<int, Client>, users: map<int, User>, target: int, successor: int)
    requires ManagersExist(clients, users)
    requires successor in users && successor != target
    ensures ManagersExist(Reassign(clients, target, successor), users - {target})
  {
    var after := Reassign(clients, target, successor);
    forall k | k in after && after[k].managerId.Some? ensures after[k].managerId.value in users - {target} {
      if clients[k].managerId != Some(target) {
        assert after[k] == clients[k];
      }
    }
  }

  /**
   * A destroy that names the deleted user as its own successor leaves that user's clients pointing
   * at a row that no longer exists.
   */
  lemma SelfTransferLeavesDanglingManager(clients: map<int, Client>, users: map<int, User>, target: int, k: int)
    requires k in clients && clients[k].managerId == Some(target)
    ensures !ManagersExist(Reassign(clients, target, target), users - {target})
  {
    SelfTransferChangesNothing(clients, target);
  }

  // ----- changePassword -----

  /** `changePassword`: the hash of the new password replaces the old one; nothing else changes. */
  method ChangePassword(db: Database, actor: User, id: int, passwordHash: string) returns (r: Outcome)
    requires db.Valid()
    modifies db
    ensures db.nextClientId == old(db.nextClientId) && db.nextUserId == old(db.nextUserId)
    ensures db.Valid() && db.clients == old(db.clients)
    ensures id !in old(db.users) ==> r == Fail(NotFound) && db.users == old(db.users)
    ensures id in old(db.users) && IsManager(actor) ==> r == Fail(Forbidden) && db.users == old(db.users)
    ensures id in old(db.users) && !IsManager(actor) ==>
            r == Done && db.users == old(db.users)[id := old(db.users)[id].(password := passwordHash)]
  {
    if id !in db.users {
      r := Fail(NotFound);
      return;
    }
    var user := db.users[id];
    if !UserPolicy.ChangePassword(actor, user) {
      r := Fail(Forbidden);
      return;
    }
    db.SaveUser(user.(password := passwordHash));
    r := Done;
  }

  // ----- toggleActive -----

  /** The user with `is_active` negated. */
  function Toggled(u: User): (t: User)
    ensures t.isActive == !u.isActive
    ensures t.(isActive := u.isActive) == u
  {
    u.(isActive := !u.isActive)
  }

  /** Toggling twice restores the user. */
  lemma ToggledTwice(u: User)
    ensures Toggled(Toggled(u)) == u
  {
  }

  /** `toggleActive`. */
  method ToggleActive(db: Database, actor: User, id: int) returns (r: Outcome)
    requires db.Valid()
    modifies db
    ensures db.nextClientId == old(db.nextClientId) && db.nextUserId == old(db.nextUserId)
    ensures db.Valid() && db.clients == old(db.clients)
    ensures id !in old(db.users) ==> r == Fail(NotFound) && db.users == old(db.users)
    ensures id in old(db.users) && IsManager(actor) ==> r == Fail(Forbidden) && db.users == old(db.users)
    ensures id in old(db.users) && !IsManager(actor) ==> r == Done && db.users == old(db.users)[id := Toggled(old(db.users)[id])]
  {
    if id !in db.users {
      r := Fail(NotFound);
      return;
    }
    var user := db.users[id];
    if !UserPolicy.Update(actor, user) {
      r := Fail(Forbidden);
      return;
    }
    db.SaveUser(Toggled(user));
    r := Done;
  }
}
