# Role-scoped client and manager administration, modelled in Dafny

This project models the core of a Laravel administration panel. The panel keeps two tables:

- `users`: managers, super managers and admins;
- `clients`: each client holds a nullable `manager_id` that points at a user.

A manager sees and changes only the clients it owns. A super_manager or an admin sees and changes every client and administers the users.

The model covers these parts:

- the `UserRole` enumeration and the role predicates of `User`;
- the one-to-many relation between users and clients, and mass assignment through `fill`;
- the two policies;
- the four form requests' validation rules, interpreted by a small model of Laravel's validator;
- the listing queries: where-clauses, allow-listed ordering and 15-row pages;
- every mutating controller action, as a method that updates a `Database` object holding the two tables as maps (the Eloquent statements themselves are the methods of that class);
- the dashboard counters.

Modules follow the source files:

| module | file | models |
|---|---|---|
| `Roles` | roles.dfy | app/Enums/UserRole.php |
| `Php` | php.dfy | the request values and the PHP comparisons the code relies on |
| `Models` | models.dfy | app/Models/User.php, app/Models/Client.php |
| `ClientPolicy` | client_policy.dfy | app/Policies/ClientPolicy.php |
| `UserPolicy` | user_policy.dfy | app/Policies/UserPolicy.php |
| `Validator` | validation.dfy | the rule evaluation the form requests rely on |
| `StoreClientRequest` | store_client_request.dfy | app/Http/Requests/Client/StoreClientRequest.php |
| `UpdateClientRequest` | update_client_request.dfy | app/Http/Requests/Client/UpdateClientRequest.php |
| `UpdateManagerRequest` | update_manager_request.dfy | app/Http/Requests/Manager/UpdateManagerRequest.php |
| `TransferClientsRequest` | transfer_clients_request.dfy | app/Http/Requests/Manager/TransferClientsRequest.php |
| `Listing` | listing.dfy | search, ordering and pagination shared by both `index` actions |
| `Store` | store.dfy | the two tables and the Eloquent statements the controllers issue |
| `ClientController` | client_controller.dfy | app/Http/Controllers/ClientController.php |
| `ManagerController` | manager_controller.dfy | app/Http/Controllers/ManagerController.php |
| `Dashboard` | dashboard.dfy | the `dashboard` closure of routes/web.php |
| `Responses`, `Wrappers` | responses.dfy, wrappers.dfy | outcome and option types |

Request input is a map from field name to a value (a string, an integer, a boolean or null).

Every action checks in the order the framework imposes:

1. Route-model binding answers 404 first.
2. A form request is validated while the action's arguments are resolved. This happens before the action's own `Gate::authorize`, so such an action answers NotFound, then Invalid, then Forbidden.
3. An action that takes a plain request answers NotFound, then Forbidden.

`changeManager` validates after both of its authorization checks.

## Behaviour kept as written

These points follow the code, even where one might expect a fallback ordering, a transaction or a stricter check:

- A `sort_by` outside the allow-list applies no ordering at all. The rows stay in the order the store yields them, with no fallback to ordering by id.
- Manager `destroy` is two statements with no transaction around them.
- The successor in a manager `destroy` may be the deleted user itself. Its clients then keep pointing at an id that no longer exists.
- `UpdateClientRequest` adds its `manager_id` rule only when the enum-cast role loosely equals one of two strings (app/Http/Requests/Client/UpdateClientRequest.php:38). A PHP enum case never loosely equals a string, so the rule is never added and a client update never changes `manager_id`.
- `changeManager` accepts the id of any existing user, of any role. Create, by contrast, requires a user whose role is exactly manager.
- The user listing shows users of every role, admins included.

## Model

| member | source | states |
|---|---|---|
| Roles.UserRole.Value | app/Enums/UserRole.php:7-9 | each case's backing string is one of the three role values, and "manager" belongs to the manager case alone |
| Roles.TryFrom | app/Enums/UserRole.php:5-10 | a parsed role has the given string as its value; parsing fails exactly on strings outside the three backing values |
| Roles.ExactlyThreeRoles | app/Enums/UserRole.php:5-10 | every role is one of the three cases and there are exactly three |
| Roles.ValueInjective | app/Enums/UserRole.php:7-9 | distinct roles have distinct backing strings |
| Roles.TryFromValue | app/Enums/UserRole.php:5-10 | parsing a role's backing string yields that role |
| Roles.ManagerOrPrivileged | app/Policies/ClientPolicy.php:27-32 | every role is either manager or one of super_manager/admin, never both |
| Php.ValueInPrivilegedValues | app/Http/Controllers/ClientController.php:58 | the loose membership of the role's string value in the two privileged values holds exactly for super_manager and admin |
| Php.CaseNeverInPrivilegedValues | app/Http/Requests/Client/UpdateClientRequest.php:38 | an enum case is never loosely in the list of privileged string values |
| Php.RequestBoolean | app/Http/Controllers/ManagerController.php:79 | an absent flag reads as the default; a boolean reads as itself; an integer is true iff it is 1; a string is true iff it is one of "1", "true", "on", "yes"; null reads as false |
| Models.IsManager | app/Models/User.php:58-61 | holds iff the role's value is "manager", which is exactly when the role is not privileged |
| Models.IsSuperManager | app/Models/User.php:66-69 | holds iff the role's value is "super_manager"; such a user is privileged |
| Models.IsAdmin | app/Models/User.php:74-77 | holds iff the role's value is "admin"; such a user is privileged |
| Models.ExactlyOneRole | app/Models/User.php:58-77 | exactly one of isManager, isSuperManager, isAdmin holds, and isManager holds iff the role is not privileged |
| Models.Portfolio | app/Models/User.php:82-85 | the clients of a user are a subset of the clients table |
| Models.ManagedClients | app/Models/User.php:90-93 | `clients()` holds exactly the clients whose manager_id is the user's id |
| Models.UnownedInNoPortfolio | app/Models/User.php:82-85 | a client with a null manager_id belongs to no user |
| Models.ManagerOf | app/Models/Client.php:28-31 | a client's manager, when found, is the user whose id is its manager_id; a null manager_id has no manager |
| Models.ManagerOfInverse | app/Models/Client.php:28-31 | `c.manager()` is u exactly when c is among `u.clients()` |
| Models.FillUser | app/Models/User.php:22-28 | a fill succeeds iff every submitted fillable value fits its column (strings for the text columns, a backing value for role, non-null for is_active); each submitted column takes the submitted value, is_active through the boolean cast; every absent column, the id, the verification time and the remember token are kept |
| Models.FillClient | app/Models/Client.php:19-23 | a fill succeeds iff name and email, when submitted, are strings and manager_id is an integer or null; each submitted column takes the submitted value; every absent column and the id are kept |
| Models.FillUserIgnoresGuarded | app/Models/User.php:22-28 | keys outside the fillable list never affect a user fill |
| Models.FillClientIgnoresGuarded | app/Models/Client.php:19-23 | keys outside the fillable list never affect a client fill |
| Models.IdsWithRole | app/Http/Requests/Manager/TransferClientsRequest.php:29-31 | the ids returned are exactly those of users whose role is in the given set |
| ClientPolicy.ViewAny | app/Policies/ClientPolicy.php:14-19 | every actor may list clients |
| ClientPolicy.Create | app/Policies/ClientPolicy.php:38-43 | every actor may create a client |
| ClientPolicy.View | app/Policies/ClientPolicy.php:24-33 | a manager may view exactly the clients it owns; anyone else may view every client |
| ClientPolicy.Update | app/Policies/ClientPolicy.php:48-57 | a manager may update exactly the clients it owns; anyone else may update every client |
| ClientPolicy.Delete | app/Policies/ClientPolicy.php:62-71 | a manager may delete exactly the clients it owns; anyone else may delete every client |
| ClientPolicy.ViewUpdateDeleteAgree | app/Policies/ClientPolicy.php:24-71 | view, update and delete give the same answer for every actor and client |
| ClientPolicy.ManagerAllowedOnOwnPortfolio | app/Policies/ClientPolicy.php:27-29 | a manager may view a client exactly when the client is in its `clients()` |
| ClientPolicy.UnassignedNeverOwned | app/Policies/ClientPolicy.php:28 | a client with a null manager_id passes no manager's check |
| ClientPolicy.PrivilegedAllowedEverywhere | app/Policies/ClientPolicy.php:32 | super_manager and admin pass view, update and delete on every client |
| ClientPolicy.DecisionDependsOnlyOnOwnership | app/Policies/ClientPolicy.php:24-71 | two requests with the same role, actor id and manager_id get the same answers |
| UserPolicy.ViewAny | app/Policies/UserPolicy.php:13-16 | granted exactly to non-managers |
| UserPolicy.View | app/Policies/UserPolicy.php:21-24 | granted exactly to non-managers |
| UserPolicy.Create | app/Policies/UserPolicy.php:29-32 | granted exactly to non-managers |
| UserPolicy.Update | app/Policies/UserPolicy.php:37-40 | granted exactly to non-managers |
| UserPolicy.Delete | app/Policies/UserPolicy.php:45-48 | granted exactly to non-managers |
| UserPolicy.ChangePassword | app/Policies/UserPolicy.php:53-56 | granted exactly to non-managers |
| UserPolicy.ChangeManager | app/Policies/UserPolicy.php:61-64 | granted exactly to non-managers |
| UserPolicy.ManagerDeniedEverything | app/Policies/UserPolicy.php:13-64 | a manager is refused all seven abilities, whatever the target |
| UserPolicy.AbilitiesAgree | app/Policies/UserPolicy.php:13-64 | the seven abilities agree for an actor, and the target never changes the answer |
| Validator.Validate | app/Http/Requests/Manager/UpdateManagerRequest.php:28-37 | validation passes iff every ruled field passes; the validated data is the submitted part of the ruled fields, unchanged; the errors are exactly the failing fields |
| StoreClientRequest.Authorize | app/Http/Requests/Client/StoreClientRequest.php:15-18 | always true |
| StoreClientRequest.Assignable | app/Http/Requests/Client/StoreClientRequest.php:36-38 | the assignable owners are exactly the users whose role is manager |
| StoreClientRequest.Rules | app/Http/Requests/Client/StoreClientRequest.php:25-43 | name and email are always ruled; manager_id is ruled exactly for a privileged actor |
| StoreClientRequest.Validate | app/Http/Requests/Client/StoreClientRequest.php:25-43 | passes iff the name is a non-empty string of at most 255 characters, the email is well formed and held by no client, and, for a privileged actor, manager_id names a user with role manager; each field is in the errors iff it fails; a pass validates exactly the ruled fields |
| StoreClientRequest.ManagerSubmitsNoManagerId | app/Http/Requests/Client/StoreClientRequest.php:33 | a manager's validated data never holds manager_id |
| StoreClientRequest.PrivilegedMustNameManager | app/Http/Requests/Client/StoreClientRequest.php:33-40 | a privileged actor omitting manager_id fails on that field |
| StoreClientRequest.UsersEmailsIrrelevant | app/Http/Requests/Client/StoreClientRequest.php:29 | email uniqueness looks at clients only; users' emails never change the outcome |
| UpdateClientRequest.Authorize | app/Http/Requests/Client/UpdateClientRequest.php:14-17 | always true |
| UpdateClientRequest.ManagerIdRuleAdded | app/Http/Requests/Client/UpdateClientRequest.php:38 | the condition guarding the manager_id rule is false for every actor |
| UpdateClientRequest.RulesWith | app/Http/Requests/Client/UpdateClientRequest.php:24-48 | name and email are always ruled; manager_id is ruled only when the condition holds |
| UpdateClientRequest.Rules | app/Http/Requests/Client/UpdateClientRequest.php:24-48 | as written, exactly name and email are ruled |
| UpdateClientRequest.Validate | app/Http/Requests/Client/UpdateClientRequest.php:24-48 | passes iff each present, non-empty name is a short string and each present, non-empty email is well formed and held by no other client; a pass validates exactly the submitted name and email |
| UpdateClientRequest.ManagerIdNeverValidated | app/Http/Requests/Client/UpdateClientRequest.php:38-45 | manager_id never reaches the validated data of an update |
| UpdateClientRequest.AbsentFieldsUnchecked | app/Http/Requests/Client/UpdateClientRequest.php:29-34 | with neither name nor email submitted, validation passes with nothing validated |
| UpdateClientRequest.OwnEmailAccepted | app/Http/Requests/Client/UpdateClientRequest.php:30-34 | re-submitting a client's own email passes |
| UpdateClientRequest.IfAddedManagerIdMustBeManager | app/Http/Requests/Client/UpdateClientRequest.php:39-44 | were the rule added, a submitted manager_id would have to name a user with role manager |
| UpdateManagerRequest.Authorize | app/Http/Requests/Manager/UpdateManagerRequest.php:14-17 | always true |
| UpdateManagerRequest.Rules | app/Http/Requests/Manager/UpdateManagerRequest.php:24-38 | exactly name, email, role and is_active are ruled |
| UpdateManagerRequest.Validate | app/Http/Requests/Manager/UpdateManagerRequest.php:24-38 | passes iff each submitted field is valid: a short name, an email held by no other user, one of the three role values, a boolean is_active; each field is in the errors iff it fails |
| UpdateManagerRequest.OnlyRuledFieldsValidated | app/Http/Requests/Manager/UpdateManagerRequest.php:28-37 | no other key, the password in particular, reaches the validated data |
| UpdateManagerRequest.UnknownRoleRejected | app/Http/Requests/Manager/UpdateManagerRequest.php:35 | a role string outside the three values fails on role |
| UpdateManagerRequest.ValidatedFills | app/Http/Requests/Manager/UpdateManagerRequest.php:24-38 | on input without empty strings, validated data always fits the user record |
| TransferClientsRequest.Authorize | app/Http/Requests/Manager/TransferClientsRequest.php:14-17 | always true |
| TransferClientsRequest.Successors | app/Http/Requests/Manager/TransferClientsRequest.php:29-31 | the admissible successors are exactly the users with role manager or super_manager |
| TransferClientsRequest.Rules | app/Http/Requests/Manager/TransferClientsRequest.php:24-33 | only new_manager_id is ruled |
| TransferClientsRequest.Validate | app/Http/Requests/Manager/TransferClientsRequest.php:24-33 | passes iff new_manager_id is the id of a manager or super_manager; a failure is on new_manager_id alone; a pass validates exactly that field |
| TransferClientsRequest.SuccessorRequired | app/Http/Requests/Manager/TransferClientsRequest.php:27-28 | omitting new_manager_id fails |
| TransferClientsRequest.UnknownOrAdminSuccessorRejected | app/Http/Requests/Manager/TransferClientsRequest.php:29-31 | an unknown id or an admin's id fails |
| TransferClientsRequest.TargetMayBeItsOwnSuccessor | app/Http/Requests/Manager/TransferClientsRequest.php:24-33 | the user being deleted passes as its own successor |
| Listing.SearchGiven | app/Http/Controllers/ClientController.php:34 | a search is applied exactly when it is present and neither "" nor "0" (PHP truthiness), so a one-character search such as "a" is applied |
| Listing.SortColumn | app/Http/Controllers/ClientController.php:43-47 | an absent sort_by reads as id; a given sort_by is used iff it is allowed |
| Listing.Filter | app/Http/Controllers/ClientController.php:27-40 | the kept rows all satisfy the where-clause, and each row is kept as often as it occurs iff it satisfies it |
| Listing.FilterKeepsAll | app/Http/Controllers/ClientController.php:31 | a where-clause every row satisfies returns the rows unchanged |
| Listing.Insert | app/Http/Controllers/ClientController.php:47-49 | inserting into a sorted sequence keeps it sorted and adds exactly the one row |
| Listing.Sort | app/Http/Controllers/ClientController.php:47-49 | the result is sorted and a permutation of the input |
| Listing.Arrange | app/Http/Controllers/ClientController.php:47-49 | an allowed column sorts the rows as a permutation; no column leaves them in store order |
| Listing.StrLeTotal | app/Http/Controllers/ClientController.php:48 | string ordering relates every pair of strings |
| Listing.PageNumber | app/Http/Controllers/ClientController.php:54 | a page below 1 reads as page 1 |
| Listing.PageOf | app/Http/Controllers/ClientController.php:54 | a page holds at most 15 rows: the slice of the result starting at (page - 1) * 15 |
| Store.Reassign | app/Http/Controllers/ManagerController.php:106-107 | the bulk update keeps the set of clients |
| Store.Database.InsertClient | app/Http/Controllers/ClientController.php:99 | adds exactly the new client under the next id; users unchanged |
| Store.Database.SaveClient | app/Http/Controllers/ClientController.php:112 | replaces exactly the one client row |
| Store.Database.DeleteClient | app/Http/Controllers/ClientController.php:124 | removes exactly the one client row |
| Store.Database.UpdateManagerIds | app/Http/Controllers/ManagerController.php:106-107 | the clients table becomes its reassignment |
| Store.Database.InsertUser | app/Http/Controllers/ManagerController.php:74-80 | adds exactly the new user under the next id; clients unchanged |
| Store.Database.SaveUser | app/Http/Controllers/ManagerController.php:93 | replaces exactly the one user row |
| Store.Database.DeleteUser | app/Http/Controllers/ManagerController.php:109 | removes exactly the one user row |
| ClientController.Listed | app/Http/Controllers/ClientController.php:27-40 | a listed client of a manager is its own; with a search applied, an in-scope client is listed iff its name or email matches; without a search, every client is listed for a privileged actor and exactly its own clients for a manager |
| ClientController.QueryOrder | app/Http/Controllers/ClientController.php:43-49 | an ordering is applied iff sort_by names an allowed column; it is the order on that column in the requested direction, and it is total |
| ClientController.Matching | app/Http/Controllers/ClientController.php:24-49 | the result holds exactly the table's rows that pass the owner and search filters, each as often as in the table, sorted when a column is allowed |
| ClientController.PickList | app/Http/Controllers/ClientController.php:59-61 | the pick-list holds exactly the active users whose role is manager |
| ClientController.Index | app/Http/Controllers/ClientController.php:20-69 | the rows are the requested page of the filtered, ordered result: at most 15, all passing the filters; a manager sees only its own clients; the pick-list is present iff the actor is privileged and then lists the active managers |
| ClientController.StoredClientIsListed | app/Http/Controllers/ClientController.php:20-31 | a stored client that passes the role scope and the search filters appears in the listing read from a table holding exactly the stored clients |
| ClientController.PrivilegedSeesEveryClient | app/Http/Controllers/ClientController.php:27-31 | without a search a privileged actor's result is the whole table |
| ClientController.PrivilegedUnsortedSeesTable | app/Http/Controllers/ClientController.php:47-49 | without a search and with an unknown sort_by, a privileged actor gets the table in store order |
| ClientController.ManagerSeesOnlyOwnClients | app/Http/Controllers/ClientController.php:27-30 | any client in a manager's result is owned by that manager |
| ClientController.DefaultOrderIsIdAscending | app/Http/Controllers/ClientController.php:43-44 | with no sort_by and ascending order the result is ordered by id |
| ClientController.OrderedByRequestedColumn | app/Http/Controllers/ClientController.php:43-49 | with an allowed sort_by the result is sorted on that column in the requested direction |
| ClientController.NameDescending | app/Http/Controllers/ClientController.php:47-49 | sorted by name descending, each row's name is at least the next one's |
| ClientController.UnknownSortKeepsStoreOrder | app/Http/Controllers/ClientController.php:47-49 | an unknown sort_by leaves the filtered rows in store order |
| ClientController.Show | app/Http/Controllers/ClientController.php:74-83 | a missing client is NotFound; otherwise the client and its manager come back iff the policy lets the actor view it, else Forbidden |
| ClientController.CreatedClient | app/Http/Controllers/ClientController.php:92-99 | the new client has the submitted name and email; its owner is the actor for a manager, the submitted manager_id otherwise |
| ClientController.StoreClient | app/Http/Controllers/ClientController.php:88-102 | invalid input changes nothing; valid input adds one client under the next id, owned by the actor when the actor is a manager; users never change; unique client emails stay unique |
| ClientController.UpdateClient | app/Http/Controllers/ClientController.php:107-115 | NotFound, then Invalid, then Forbidden, each changing nothing; otherwise the client becomes its fill with the validated data: a submitted name or email is stored, the manager is kept; unique emails stay unique |
| ClientController.DestroyClient | app/Http/Controllers/ClientController.php:120-127 | removes exactly the target client when the policy allows; otherwise nothing changes |
| ClientController.ChangeManagerValidate | app/Http/Controllers/ClientController.php:141-146 | passes exactly for the id of any existing user; a failure is on manager_id alone |
| ClientController.ChangeManager | app/Http/Controllers/ClientController.php:132-152 | forbidden unless the actor may update the client and is privileged; on success only that client's manager_id changes, to the submitted id |
| ClientController.ManagerNeverChangesManager | app/Http/Controllers/ClientController.php:134-139 | a manager never passes both checks of changeManager |
| ManagerController.Listed | app/Http/Controllers/ManagerController.php:30-36 | without a search every user is listed; with a search applied, a user is listed iff its name or email matches |
| ManagerController.QueryOrder | app/Http/Controllers/ManagerController.php:39-45 | an ordering is applied iff sort_by names one of id, name, email, is_active; it is the order on that column in the requested direction, and it is total |
| ManagerController.InactiveFirst | app/Http/Controllers/ManagerController.php:43-45 | sorted by is_active ascending, every inactive user comes before every active one |
| ManagerController.Matching | app/Http/Controllers/ManagerController.php:27-45 | the result holds exactly the users that pass the search, each as often as in the table, sorted when a column is allowed |
| ManagerController.Index | app/Http/Controllers/ManagerController.php:23-53 | forbidden exactly for a manager; otherwise the requested page of the searched, ordered users: at most 15 rows, all passing the search |
| ManagerController.NoSearchListsEveryUser | app/Http/Controllers/ManagerController.php:27-36 | without a search the listing covers every user of every role |
| ManagerController.Show | app/Http/Controllers/ManagerController.php:58-65 | NotFound for a missing user; otherwise the user iff the actor is not a manager, else Forbidden |
| ManagerController.NewUser | app/Http/Controllers/ManagerController.php:74-80 | the new user has the given name, email, hashed password and role, has is_active as `$request->boolean('is_active', true)` reads it, so true when absent, and is unverified |
| ManagerController.StoreUser | app/Http/Controllers/ManagerController.php:70-83 | a manager is refused and nothing changes; otherwise exactly the new user is added |
| ManagerController.UpdateUser | app/Http/Controllers/ManagerController.php:88-96 | NotFound, then Invalid, then Forbidden, each changing nothing; otherwise the user becomes its fill with the validated data: a submitted name, email or role is stored, the password never changes; normalised input never fails to save and keeps user emails unique |
| ManagerController.DestroyUser | app/Http/Controllers/ManagerController.php:101-112 | NotFound, then Invalid, then Forbidden, each changing nothing; otherwise the target's clients move to the successor and the target row is deleted |
| ManagerController.TransferMovesPortfolio | app/Http/Controllers/ManagerController.php:106-107 | with a different successor the target ends with no clients and the successor gains exactly the target's |
| ManagerController.TransferKeepsOtherPortfolios | app/Http/Controllers/ManagerController.php:106-107 | every other user's clients are unchanged |
| ManagerController.TransferTouchesOnlyManagerIds | app/Http/Controllers/ManagerController.php:106-107 | the bulk update changes no column but manager_id |
| ManagerController.EmptyPortfolioTransferChangesNothing | app/Http/Controllers/ManagerController.php:106-109 | deleting a user without clients changes no client |
| ManagerController.SelfTransferChangesNothing | app/Http/Controllers/ManagerController.php:106-107 | naming the target as its own successor changes no client |
| ManagerController.TransferKeepsManagersExisting | app/Http/Controllers/ManagerController.php:105-109 | with an existing successor other than the target, every client's manager still exists after the delete |
| ManagerController.SelfTransferLeavesDanglingManager | app/Http/Controllers/ManagerController.php:105-109 | with the target as its own successor, a client of the target points at a deleted user |
| ManagerController.ChangePassword | app/Http/Controllers/ManagerController.php:117-125 | a manager is refused and nothing changes; otherwise only the target's password changes |
| ManagerController.Toggled | app/Http/Controllers/ManagerController.php:134 | is_active is negated and nothing else changes |
| ManagerController.ToggledTwice | app/Http/Controllers/ManagerController.php:130-138 | toggling twice restores the user |
| ManagerController.ToggleActive | app/Http/Controllers/ManagerController.php:130-138 | a manager is refused and nothing changes; otherwise only the target's is_active is negated |
| Dashboard.Assigned | routes/web.php:38 | the clients with a non-null manager_id |
| Dashboard.Staff | routes/web.php:40 | exactly the users whose role is manager or super_manager |
| Dashboard.ActiveStaff | routes/web.php:41-43 | the active ones among them, a subset |
| Dashboard.OwnCounts | routes/web.php:23-24 | a manager's total is the size of its clients() and its active count equals the total |
| Dashboard.OverallCounts | routes/web.php:37-43 | the totals count every client and every manager or super_manager; each active count is at most its total |
| Dashboard.Dashboard | routes/web.php:18-57 | manager counts appear iff the actor is not a manager; a manager gets its own client counts, anyone else the overall client and manager counts, active ones included |
| Dashboard.AdminsNotCounted | routes/web.php:40-43 | adding an admin changes no manager count |
| Dashboard.PrivilegedDashboardsAgree | routes/web.php:36-56 | super_manager and admin see the same statistics |

## Left out

- Page rendering, redirects, flash data and query-string carry-over: an action's result is Done, Forbidden, NotFound, Invalid with the failing fields, or ServerError.
- Route registration, middleware and the Fortify features: framework glue.
- Password hashing: the caller passes the hash, and the model claims only that the password column receives it.
- The email-format rule and SQL `LIKE` matching under the database collation: both are opaque predicates passed as parameters.
- Column ordering of strings: modelled as code-point lexicographic order, which a database collation may not use.
- `sort_order`: modelled as ascending or descending. A value the query builder rejects, which makes it throw, is not modelled.
- Trimming of input strings, by middleware and by the validator, which treats a whitespace-only string as empty for `required` and for skipping the other rules; in this model a whitespace-only string counts as filled. The conversion of empty strings to null appears only as the hypothesis `Normalized` where a contract needs it.
- Numeric strings used as ids: ids arrive as integers.
- StoreManagerRequest and ChangePasswordRequest: ManagerController.StoreUser and ManagerController.ChangePassword take already validated values. StoreManagerRequest and ChangePasswordRequest are not part of this model.
- ManagerController.StoreUser: does not model validation running before the policy check, because the rules of StoreManagerRequest are not available.
- ManagerController.ChangePassword: does not model validation running before the policy check, because the rules of ChangePasswordRequest are not available.
- The `messages()` of each form request: they only word the errors.
- The case-insensitive spellings accepted by `$request->boolean`: only the exact lower-case strings are read as true.
- Eager loading of `manager` for the client list, the column projection of the pick-list and the order of its rows: the pick-list is a set of ids.
- Timestamps and the `email_verified_at` cast.
- Transactions and concurrency: the code opens no transaction, and manager `destroy` is modelled as two sequential statements.
- Models.FillUser, Models.FillClient: a text column given a non-string is modelled as a failed fill, which the framework would store as text. Every action passes validated strings to these columns, so no action reaches that case.
- Email uniqueness: the `unique` rule is modelled as exact string equality. The real query compares emails under the column's collation, which may be case-insensitive.
- Order of equal rows: ClientController.Index and ManagerController.Index sort stably, so rows with an equal sort key keep store order. SQL `ORDER BY` on a non-unique column leaves their order unspecified, and it may differ between pages.
- Foreign-key enforcement: the database schema is not part of this model. The model assumes no foreign-key constraint and no cascade on `clients.manager_id`, so deleting a user leaves any client that still names it unchanged.
- Database seeders and factories: test-data code.
