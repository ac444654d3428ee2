# A versioned, soft-deletable user store

This project models the core of a small Go user API. A user is an identity, six text fields
(first name, last name, nickname, password, email, country) and change-tracking metadata:
a `uint32` version, creation and update instants, a soft-delete flag, and an append-only
list of change markers. Every setter appends one marker.

The layers modelled, each a Dafny module:

- **`Domain`** (`meta.dfy`) holds the metadata as a class: `NewMeta`, `HydrateMeta`, the
  change list, the getters and the setters.
- **`Models`** (`user.dfy`) holds the user aggregate as a class whose setters change one field
  and register one change.
- **`QueryComposition`** (`query.dfy`) turns a filter map into a `WHERE` fragment with the
  positional placeholders `$1 … $n` and the parameters bound to them.
- **`Postgresql`** (`store.dfy`) is the PostgreSQL repository, with the `users` table held in
  memory as a map from identity to row plus the serial sequence.
  - `Store` is the optimistic-locking protocol. It reads the current version (0 when there is
    no row) and compares it with the expected one. It inserts when that version is 0 and
    updates otherwise. It rolls back on any error.
  - The protocol is specified by the function `StoreEffect`. The properties of the protocol are
    stated about that function.
- **`Services`** (`services.dfy`) is the user service. It translates errors and applies only the
  non-empty update parameters. An update that sets nothing short-circuits with `ErrNoChanges`.
- **`JsonMessages`** (`json.dfy`) and **`Handlers`** (`handlers.dfy`) hold the outbound mappers,
  the filter a list request builds from its form values, and the error-to-status choice.

Errors are one datatype holding the sentinels of both packages. `Wrapped(cause, context)`
stands for `fmt.Errorf("%w <context>", cause)`. The code compares errors with `==`, so a
wrapped error is a different value from the sentinel it wraps.

The model cannot compute some things the database and the runtime do, so they become parameters:

- the clock (`now`, and `TxConditions.now` for SQL `NOW()`);
- a failing query (`queryFails`);
- a transaction that cannot begin, a row lock that cannot be taken or a read that fails, a
  failing write, and a failing commit (`TxConditions`).

Map iteration order is unspecified in Go. The query composer picks keys with `:|`, and a ghost
output records the order it took.

Where the code and its documentation disagree, the model follows the code:

- An update writes version `user.Meta.GetVersion()+1`, taken from the in-memory user with
  `uint32` wrap-around. It is not the row's current version plus one.
  - Through the service the two always agree. The in-memory version is the loaded row's
    version, which is also what the lock read returns. An expected version other than that one
    ends in `ErrWrongVersion` before anything is written (`Postgresql.UpdateFromLoadedVersion`).
  - They differ only for a direct `Store` call whose user carries a version other than the
    expected one.
- An update parameter that is not empty but equals the stored value still registers a change
  marker. The update therefore reaches `Store` and bumps the version; it does not answer
  `ErrNoChanges`.
- The error of `tx.Commit()` is never inspected (`repositories/postgresql/users.go:118-122`).
  A failed commit loses the write, and `Store` still reports success.
- `Delete` of an absent identity reports the store's not-found sentinel, because
  `UPDATE … RETURNING` yields no row. Deleting a row that is already disabled succeeds again
  and refreshes `updated_at`.
- The store's `Delete` returns the deleted user together with the error. The service's store
  interface declares only the error (`domain/users/services/users.go:22`). The model's
  `DeleteUser` calls the table's delete and keeps only its error.
- The version read under lock does not filter `disabled`, so a soft-deleted row can still be
  updated. Its flag stays set.
- An insert ignores the incoming `ID`: the identity comes from the sequence, and the sequence
  value is consumed even when the insert is then rejected as a duplicate.
- The version of a freshly inserted row comes from a column default. The schema is not part of
  this model. `CreatedVersion` is 1, which is what the repository's integration tests expect.

## Model

| member | source | states |
|---|---|---|
| Domain.Meta.constructor | domain/meta.go:16-23 | a new metadata value has version 0, is not disabled, has both instants equal to the given clock reading, and has no change markers, so `HasChanges()` is false |
| Domain.Meta.HydrateMeta | domain/meta.go:25-30 | the getters return the given version, instants and flag; the change list is outside the frame, so `HasChanges()` is unchanged |
| Domain.Meta.RegisterChanges | domain/meta.go:32-34 | the events are appended in order, the list grows by exactly their number, `HasChanges()` holds iff it held before or some event was given, and no other field changes |
| Domain.Meta.ClearChanges | domain/meta.go:36-38 | afterwards there are no change markers; version, instants and flag are outside the frame |
| Domain.Meta.SetVersion | domain/meta.go:60-62 | `GetVersion()` returns the new value; only the version field is in the frame |
| Domain.Meta.SetCreatedAt | domain/meta.go:64-66 | `GetCreatedAt()` returns the new instant; only that field changes |
| Domain.Meta.SetUpdatedAt | domain/meta.go:68-70 | `GetUpdatedAt()` returns the new instant; only that field changes |
| Domain.Meta.SetDisabled | domain/meta.go:72-74 | `GetDisabled()` returns the new flag; only that field changes |
| Domain.Meta.HasChanges | domain/meta.go:40-42 | true iff the change list is non-empty |
| Domain.Meta.GetVersion | domain/meta.go:44-46 | the stored version; reads only the version field |
| Domain.Meta.GetCreatedAt | domain/meta.go:48-50 | the creation instant; reads only that field |
| Domain.Meta.GetUpdatedAt | domain/meta.go:52-54 | the update instant; reads only that field |
| Domain.Meta.GetDisabled | domain/meta.go:56-58 | the soft-delete flag; reads only that field |
| Models.User.IsZero | domain/users/models/users.go:65-73 | true iff the identity is 0 and the six fields are empty; the metadata is outside its reads frame |
| Models.User.constructor | domain/users/models/users.go:16-27 | each argument lands in its own field, and the metadata is new: version 0, not disabled, no changes |
| Models.User.SetFirstName | domain/users/models/users.go:29-33 | the profile equals the old one with the first name replaced; exactly one marker is appended, even when the value is unchanged; identity and the other metadata fields are outside the frame |
| Models.User.SetLastName | domain/users/models/users.go:35-39 | same for the last name |
| Models.User.SetNickname | domain/users/models/users.go:41-45 | same for the nickname |
| Models.User.SetPassword | domain/users/models/users.go:47-51 | same for the password |
| Models.User.SetEmail | domain/users/models/users.go:53-57 | same for the email |
| Models.User.SetCountry | domain/users/models/users.go:59-63 | same for the country |
| QueryComposition.NatToString | repositories/postgresql/users.go:51 | the `%d` rendering of an index is never empty |
| QueryComposition.NatToStringInjective | repositories/postgresql/users.go:51 | distinct indices are rendered differently |
| QueryComposition.PlaceholdersDistinct | repositories/postgresql/users.go:51 | distinct positions never share a placeholder `$i` |
| QueryComposition.Expressions | repositories/postgresql/users.go:46-54 | one expression per key, and expression i compares key i with placeholder `$(i+1)` |
| QueryComposition.JoinedIsConjunction | repositories/postgresql/users.go:56 | joining with "AND" and appending " AND" puts a conjunction after every expression, so the trailing `disabled = 'f'` is conjoined with all of them |
| QueryComposition.QueryComposer | repositories/postgresql/users.go:41-57 | an empty map gives an empty fragment and no parameters; otherwise the keys are enumerated once each in some order, there are as many parameters as terms, the i-th parameter is the value of the i-th key, and the fragment is built from the keys and placeholders alone |
| Postgresql.NextVersion | repositories/postgresql/users.go:187 | `GetVersion()+1` in `uint32`: one more, or 0 after the largest value |
| Postgresql.ColumnsAreNamed | repositories/postgresql/users.go:65-69 | a filter key reads a column iff it is one of the six text columns |
| Postgresql.BoundFilterMeansTerms | repositories/postgresql/users.go:63-69 | the composed SQL filter with its bound parameters accepts a row iff every term of the map equals that row's column, whatever order the map was enumerated in |
| Postgresql.ClassifyScanFailure | repositories/postgresql/users.go:217-227 | a unique violation becomes `ErrDuplicateUser`, an empty result becomes `ErrUserNotFound`, and any other driver error passes through; each iff |
| Postgresql.HydrateUser | repositories/postgresql/users.go:285-291 | the new user carries the row's identity, fields, version, instants and flag, and no change markers |
| Postgresql.StoreEffect | repositories/postgresql/users.go:89-125 | a failure or a lost commit leaves the table as it was; `ErrWrongVersion` is returned iff the transaction began, the lock read succeeded and the stored version (0 for no row) differs from the expected one; only an insert draws a sequence value; a committed write changes exactly one row; the written nickname clashes with no other row; an insert gets the next identity, is enabled and has the created version; an update keeps the identity, rewrites the six fields and sets version `metaVersion+1` |
| Postgresql.UpdateFromLoadedVersion | repositories/postgresql/users.go:97-111 | when the in-memory version is the stored one, a successful update writes exactly that version plus one, and any other expected version gives `ErrWrongVersion` once the transaction has begun and the lock read has succeeded |
| Postgresql.StorePreservesTableValid | repositories/postgresql/users.go:108-116 | every Store keeps identities below the sequence and nicknames unique |
| Postgresql.EmptyFilterSelectsEveryEnabledRow | repositories/postgresql/users.go:65-69 | with no terms, List selects every row that is not disabled |
| Postgresql.UserStore.constructor | repositories/postgresql/users.go:26-28 | a new store has an empty table whose sequence starts at 1 |
| Postgresql.UserStore.Get | repositories/postgresql/users.go:30-39 | an existing, enabled row is returned hydrated; an absent or disabled one gives `ErrUserNotFound`; a failed query gives the driver error |
| Postgresql.UserStore.List | repositories/postgresql/users.go:59-87 | a failed query, or a filter key that is not one of the six text columns, is returned wrapped in "failed to query context"; otherwise the rows are selected by the bound SQL filter (`BoundMatch` over the composer's keys and parameters), which is shown equal to the map filter, so exactly the enabled rows matching every term are returned, each once and hydrated; no match is an empty list, not an error |
| Postgresql.UserStore.MatchingIds | repositories/postgresql/users.go:65-69 | the rows a filter selects are rows of the table |
| Postgresql.UserStore.ScanMultipleRows | repositories/postgresql/users.go:233-283 | one hydrated user per selected row, in the order the rows arrive: as many users as rows, every row present, no identity twice |
| Postgresql.UserStore.LockForUpdate | repositories/postgresql/users.go:127-142 | the row's version, with 0 when there is no row and `disabled` not consulted; a failed read is an error |
| Postgresql.UserStore.Create | repositories/postgresql/users.go:155-170 | a failed write changes nothing; otherwise the sequence advances, and either the nickname clashes (`ErrDuplicateUser`) or the staged table gains the inserted row under the drawn identity and the returned user hydrates it |
| Postgresql.UserStore.Update | repositories/postgresql/users.go:172-192 | no row with that identity and expected version gives `ErrUserNotFound`; a nickname clash gives `ErrDuplicateUser`; otherwise only that row is rewritten, with the six fields, version `metaVersion+1` and the new `updated_at` |
| Postgresql.UserStore.Store | repositories/postgresql/users.go:89-125 | the new table, sequence and answer are those of `StoreEffect` for the user's identity, fields and in-memory version; the store stays valid |
| Postgresql.UserStore.Delete | repositories/postgresql/users.go:144-153 | an existing row, disabled or not, is flagged disabled with `updated_at` refreshed and nothing else changes; an absent one gives `ErrUserNotFound`; afterwards the row is not visible |
| Services.Applied | domain/users/services/users.go:100-117 | each field takes the parameter's value when that value is not empty and keeps the loaded value otherwise |
| Services.ValidTableLoadsNoZeroUser | domain/users/services/users.go:70-72 | on a valid table no stored row loads as the zero user (identity 0 and six empty fields), so the zero-user answer of GetUser, and the repeated check in UpdateUser, never fire |
| Services.NothingGivenChangesNothing | domain/users/services/users.go:119-121 | no field is given iff all six parameters are empty, and then the profile is unchanged |
| Services.ApplyParams | domain/users/services/users.go:100-117 | the setter calls leave the profile `Applied` to the parameters and append one marker per non-empty parameter |
| Services.UserService.constructor | domain/users/services/users.go:53-57 | the service holds the given store |
| Services.UserService.GetUser | domain/users/services/users.go:59-75 | the store's not-found becomes the service's not-found; other store errors are wrapped in "failed to get user"; a loaded zero user is reported not found; otherwise the hydrated enabled row is returned, never a zero user |
| Services.UserService.ListUsers | domain/users/services/users.go:77-84 | the terms reach the store untouched; the store's list comes back untouched, and its error wrapped in "failed to list users" |
| Services.UserService.CreateUser | domain/users/services/users.go:140-149 | a user with identity 0 and the requested fields is stored once with expected version 0; table, sequence and answer follow `StoreEffect`; errors are wrapped in "failed to store user" |
| Services.UserService.UpdateUser | domain/users/services/users.go:90-129 | a `GetUser` failure is returned as is and nothing is stored; with no field given the loaded user comes back with `ErrNoChanges` and the store is untouched; otherwise the applied profile is stored with the caller's version (not the loaded one) as the expected version and the loaded version as the in-memory one, with errors wrapped in "failed to store user" |
| Services.UserService.DeleteUser | domain/users/services/users.go:131-138 | no error when the store soft-deleted the row, the store's error wrapped in "failed to delete user" otherwise |
| JsonMessages.SerializeUser | repositories/json/users.go:23-36 | `active` is the negated flag; identity, five text fields, version and both instants are copied; the message has no password field and its frame excludes the change list |
| JsonMessages.SerializeIgnoresPasswordAndChanges | repositories/json/users.go:8-19 | users that differ only in password and change markers give the same message |
| Handlers.FromDomain | application/handlers/users.go:337-350 | `active` is the negated flag; identity, version, both instants and five text fields are copied; the response has no password field |
| Handlers.ResponseAgreesWithMessage | application/handlers/users.go:63-74 | the HTTP response and the published message of a user carry the same ten fields |
| Handlers.FromDomainSlice | application/handlers/users.go:352-364 | the list has one response per user, in the same order, and is empty (not null) for no users |
| Handlers.BuildQueryTerms | application/handlers/users.go:123-145 | only country, first_name, last_name, email and nickname can be keys; a key is present iff its form value is not empty, and it maps to that value |
| Handlers.FilterKeysAreColumns | application/handlers/users.go:125-145 | every key the handler can build names a column the store filters on, and the password is never one |
| Handlers.StatusFor | application/handlers/users.go:92-97 | 404 iff the error is the service's not-found sentinel, and 500 for every other error, including `ErrNoChanges` and wrapped store errors |

## Left out

- Concurrency. `FOR UPDATE NOWAIT` contention, connection pooling and context cancellation are
  not modelled. A lock that cannot be taken is only the `lockFails` outcome, which leaves the
  table unchanged.
- Real clocks. `time.Now()` and SQL `NOW()` are the `now` parameters.
  - `NewMeta` reads the clock twice; the model passes one reading for both.
  - The instant `NewUser` records before `HydrateMeta` overwrites it is not observable.
- Driver details are reduced to the outcomes above. These include `pgx.PgError` codes, a scan
  that fails part-way through `scanMultipleRows` ("error scan multiple rows") and `rows.Err()`
  ("rows returned error").
- Postgresql.UserStore.List: a filter key that is not a text column is treated as a failed
  query. The database would also reject an unknown column, and it might coerce a value for a
  non-text column, which the model does not capture.
- SQL text beyond `queryComposer`. Keys are spliced into the SQL unescaped, so the model does
  not capture injection through filter keys. Only the handler's fixed keys reach the store.
- Postgresql.UserStore.Create: the sequence is not advanced by a write that fails for other
  reasons, nor given back when a commit fails.
- Services.UserService.UpdateUser: the second `IsZero` check after `GetUser`
  (`domain/users/services/users.go:96-98`) is not modelled. `GetUser` never returns a zero
  user, so that check cannot fire; on a valid table no row loads as one at all
  (`Services.ValidTableLoadsNoZeroUser`).
- A nil map versus an empty one, and Go's nil slice returned on errors. These are not
  distinguished.
- HTTP plumbing: request-body reading, JSON marshalling, header and status writes, and the
  `Atoi` handling in the handlers. The Kafka producer and process bootstrap are also left out.
  Publishing a created or updated user is best-effort and only logged.
- JSON encoding of instants. `Time` is an opaque integer.
