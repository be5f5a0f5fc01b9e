/**
 * The database the controllers act on: the `users` and `clients` tables as maps from id to row,
 * with auto-increment counters. Each method is one Eloquent statement (an insert, a save, a
 * delete, or the bulk `update` on `clients`), so an action built from several of them runs them
 * one after another, with no transaction around them.
 */
module Store {
  import opened Wrappers
  import opened Roles
  import opened Models

  /**
   * `Client::where('manager_id', from)->update(['manager_id' => to])`: every client of `from` now
   * points at `to`; no other client and no other column changes.
   */
  function Reassign(clients: map<int, Client>, from: int, to: int): (r: map<int, Client>)
    ensures r.Keys == clients.Keys
  {
    map k | k in clients ::
      if clients[k].managerId == Some(from) then clients[k].(managerId := Some(to)) else clients[k]
  }

  class Database {
    var users: map<int, User>
    var clients: map<int, Client>
    var nextUserId: int
    var nextClientId: int

    /** Each row sits under its own id, and every id is below the next one to be handed out. */
    ghost predicate Valid()
      reads this
    {
      UsersKeyed(users) && ClientsKeyed(clients)
      && (forall k :: k in users ==> k < nextUserId)
      && (forall k :: k in clients ==> k < nextClientId)
    }

    /** Two empty tables. */
    constructor ()
      ensures Valid()
      ensures users == map[] && clients == map[]
    {
      users, clients := map[], map[];
      nextUserId, nextClientId := 1, 1;
    }

    /** `INSERT INTO clients`: the row gets the next id. */
    method InsertClient(c: Client) returns (id: int)
      requires Valid()
      modifies this
      ensures Valid()
      ensures id == old(nextClientId) && id !in old(clients)
      ensures clients == old(clients)[id := c.(id := id)]
      ensures nextClientId == old(nextClientId) + 1
      ensures users == old(users) && nextUserId == old(nextUserId)
    {
      id := nextClientId;
      clients := clients[id := c.(id := id)];
      nextClientId := nextClientId + 1;
    }

    /** `$client->save()` on an existing row. */
    method SaveClient(c: Client)
      requires Valid() && c.id in clients
      modifies this`clients
      ensures Valid()
      ensures clients == old(clients)[c.id := c]
    {
      clients := clients[c.id := c];
    }

    /** `$client->delete()`. */
    method DeleteClient(id: int)
      requires Valid()
      modifies this`clients
      ensures Valid()
      ensures clients == old(clients) - {id}
    {
      clients := clients - {id};
    }

    /** The bulk `update` of `manager_id` on `clients`. */
    method UpdateManagerIds(from: int, to: int)
      requires Valid()
      modifies this`clients
      ensures Valid()
      ensures clients == Reassign(old(clients), from, to)
    {
      clients := Reassign(clients, from, to);
    }

    /** `INSERT INTO users`: the row gets the next id. */
    method InsertUser(u: User) returns (id: int)
      requires Valid()
      modifies this
      ensures Valid()
      ensures id == old(nextUserId) && id !in old(users)
      ensures users == old(users)[id := u.(id := id)]
      ensures nextUserId == old(nextUserId) + 1
      ensures clients == old(clients) && nextClientId == old(nextClientId)
    {
      id := nextUserId;
      users := users[id := u.(id := id)];
      nextUserId := nextUserId + 1;
    }

    /** `$user->save()` on an existing row. */
    method SaveUser(u: User)
      requires Valid() && u.id in users
      modifies this`users
      ensures Valid()
      ensures users == old(users)[u.id := u]
    {
      users := users[u.id := u];
    }

    /** `$user->delete()`. */
    method DeleteUser(id: int)
      requires Valid()
      modifies this`users
      ensures Valid()
      ensures users == old(users) - {id}
    {
      users := users - {id};
    }
  }
}
