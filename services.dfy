/**
 * The user service: get, list, create, update and delete over the user store, translating
 * the store's errors and deciding which fields an update applies and which version it expects.
 */
module Services {
  import opened Errors
  import opened Domain
  import opened Models
  import opened Postgresql

  datatype CreateUserParams = CreateUserParams(
    firstName: string, lastName: string, nickname: string, password: string, email: string, country: string)

  datatype UpdateUserParams = UpdateUserParams(
    id: int, firstName: string, lastName: string, nickname: string, password: string, email: string, country: string,
    version: Uint32)

  datatype DeleteUserParams = DeleteUserParams(id: int)

  /**
   * The three answers of UpdateUser: the stored user; the loaded user together with
   * `ErrNoChanges`; or an error with the zero user.
   */
  datatype UpdateOutcome = Updated(user: User) | Unchanged(loaded: User) | UpdateFailed(error: Error)

  /** The profile a create request describes. */
  function Requested(params: CreateUserParams): Profile
  {
    Profile(params.firstName, params.lastName, params.nickname, params.password, params.email, params.country)
  }

  /** The update rule: a field takes the parameter's value when that value is not empty. */
  function Applied(p: Profile, params: UpdateUserParams): (q: Profile)
    ensures params.firstName != "" ==> q.firstName == params.firstName
    ensures params.firstName == "" ==> q.firstName == p.firstName
    ensures params.lastName != "" ==> q.lastName == params.lastName
    ensures params.lastName == "" ==> q.lastName == p.lastName
    ensures params.nickname != "" ==> q.nickname == params.nickname
    ensures params.nickname == "" ==> q.nickname == p.nickname
    ensures params.password != "" ==> q.password == params.password
    ensures params.password == "" ==> q.password == p.password
    ensures params.email != "" ==> q.email == params.email
    ensures params.email == "" ==> q.email == p.email
    ensures params.country != "" ==> q.country == params.country
    ensures params.country == "" ==> q.country == p.country
  {
    Profile(
      if params.firstName != "" then params.firstName else p.firstName,
      if params.lastName != "" then params.lastName else p.lastName,
      if params.nickname != "" then params.nickname else p.nickname,
      if params.password != "" then params.password else p.password,
      if params.email != "" then params.email else p.email,
      if params.country != "" then params.country else p.country)
  }

  /** How many fields an update request sets: one change marker each. */
  function Given(params: UpdateUserParams): nat
  {
    (if params.firstName != "" then 1 else 0) + (if params.lastName != "" then 1 else 0)
    + (if params.nickname != "" then 1 else 0) + (if params.password != "" then 1 else 0)
    + (if params.email != "" then 1 else 0) + (if params.country != "" then 1 else 0)
  }

  /** An update that names no field leaves every profile as it is. */
  lemma NothingGivenChangesNothing(p: Profile, params: UpdateUserParams)
    ensures Given(params) == 0 <==> params.firstName == params.lastName == params.nickname == params.password == params.email == params.country == ""
    ensures Given(params) == 0 ==> Applied(p, params) == p
  {
  }

  /** The row the store holds for `id` is loaded as the zero user: GetUser then reports not found. */
  predicate LoadsZero(id: int, row: Row)
  {
    id == 0 && row.profile == Profile("", "", "", "", "", "")
  }

  /**
   * On a valid table no row is loaded as the zero user: identities start at 1. So GetUser's
   * zero-user answer, and the repeated IsZero check in UpdateUser, never fire on a valid store.
   */
  lemma ValidTableLoadsNoZeroUser(rows: map<nat, Row>, nextId: nat, id: int)
    requires TableValid(rows, nextId) && id in rows
    ensures !LoadsZero(id, rows[id])
  {
  }

  /** The conditional setter calls of UpdateUser, in its order: one marker per field given. */
  method ApplyParams(user: User, params: UpdateUserParams)
    modifies user`firstName, user`lastName, user`nickname, user`password, user`email, user`country, user.meta`changes
    ensures user.GetProfile() == Applied(old(user.GetProfile()), params)
    ensures |user.meta.changes| == |old(user.meta.changes)| + Given(params)
  {
    if params.country != "" {
      user.SetCountry(params.country);
    }
    if params.email != "" {
      user.SetEmail(params.email);
    }
    if params.firstName != "" {
      user.SetFirstName(params.firstName);
    }
    if params.lastName != "" {
      user.SetLastName(params.lastName);
    }
    if params.nickname != "" {
      user.SetNickname(params.nickname);
    }
    if params.password != "" {
      user.SetPassword(params.password);
    }
  }

  class UserService {
    const store: UserStore

    constructor (store: UserStore)
      ensures this.store == store
    {
      this.store := store;
    }

    /** GetUser: the store's not-found becomes the service's; other errors are wrapped; a zero user is not found. */
    method GetUser(id: int, queryFails: bool) returns (r: Result<User>)
      ensures queryFails ==> r == Failure(Wrapped(DriverFailure, "failed to get user"))
      ensures !queryFails && !store.Visible(id) ==> r == Failure(ServiceUserNotFound)
      ensures !queryFails && store.Visible(id) && LoadsZero(id, store.rows[id]) ==> r == Failure(ServiceUserNotFound)
      ensures !queryFails && store.Visible(id) && !LoadsZero(id, store.rows[id]) ==>
        r.Success? && fresh(r.value) && fresh(r.value.meta) && Hydrates(r.value, id, store.rows[id])
      ensures r.Success? ==> !r.value.IsZero()
    {
      var got := store.Get(id, queryFails);
      if got.Failure? {
        if got.error == StoreUserNotFound {
          return Failure(ServiceUserNotFound);
        }
        return Failure(Wrapped(got.error, "failed to get user"));
      }
      var user := got.value;
      if user.IsZero() {
        return Failure(ServiceUserNotFound);
      }
      r := Success(user);
    }

    /** ListUsers: the terms go to the store untouched; its list comes back untouched, its error wrapped. */
    method ListUsers(terms: map<string, string>, queryFails: bool) returns (r: Result<seq<User>>)
      ensures queryFails || !ValidColumns(terms) ==>
        r == Failure(Wrapped(Wrapped(DriverFailure, "failed to query context"), "failed to list users"))
      ensures !queryFails && ValidColumns(terms) ==> r.Success?
      ensures r.Success? ==>
        && |r.value| == |store.MatchingIds(terms)|
        && (forall i :: 0 <= i < |r.value| ==> r.value[i].id in store.MatchingIds(terms))
        && (forall k :: k in store.MatchingIds(terms) ==> exists i :: 0 <= i < |r.value| && r.value[i].id == k)
        && (forall i, j :: 0 <= i < j < |r.value| ==> r.value[i].id != r.value[j].id)
        && (forall i :: 0 <= i < |r.value| ==>
              r.value[i].id in store.rows && Hydrates(r.value[i], r.value[i].id, store.rows[r.value[i].id]))
    {
      var listed := store.List(terms, queryFails);
      if listed.Failure? {
        return Failure(Wrapped(listed.error, "failed to list users"));
      }
      r := listed;
    }

    /** CreateUser: a new user with identity 0 and fresh metadata, stored once with expected version 0. */
    method CreateUser(params: CreateUserParams, tx: TxConditions) returns (r: Result<User>)
      requires store.Valid()
      modifies store
      ensures store.Valid()
      ensures var o := StoreEffect(old(store.rows), old(store.nextId), 0, Requested(params), 0, 0, tx);
        && store.rows == o.rows && store.nextId == o.nextId
        && (o.result.Failure? ==> r == Failure(Wrapped(o.result.error, "failed to store user")))
        && (o.result.Success? ==> r.Success? && fresh(r.value) && Hydrates(r.value, o.result.value.id, o.result.value.row))
    {
      // NewUser reads the clock for its metadata, which the insert does not use
      var user := new User(0, params.firstName, params.lastName, params.nickname, params.password, params.email, params.country, tx.now);
      var stored := store.Store(user, 0, tx);
      if stored.Failure? {
        return Failure(Wrapped(stored.error, "failed to store user"));
      }
      r := stored;
    }

    /**
     * UpdateUser: load the user, apply the non-empty parameters through the setters, and
     * store it expecting the caller's version; with nothing applied the store is not called.
     */
    method UpdateUser(params: UpdateUserParams, getFails: bool, tx: TxConditions) returns (r: UpdateOutcome)
      requires store.Valid()
      modifies store
      ensures store.Valid()
      ensures getFails ==>
        r == UpdateFailed(Wrapped(DriverFailure, "failed to get user")) && unchanged(store)
      ensures !getFails && (!old(store.Visible(params.id)) || LoadsZero(params.id, old(store.rows)[params.id])) ==>
        r == UpdateFailed(ServiceUserNotFound) && unchanged(store)
      ensures !getFails && old(store.Visible(params.id)) && !LoadsZero(params.id, old(store.rows)[params.id]) ==>
        var loaded := old(store.rows)[params.id];
        if Given(params) == 0 then
          && r.Unchanged? && Hydrates(r.loaded, params.id, loaded) && unchanged(store)
        else
          var o := StoreEffect(old(store.rows), old(store.nextId), params.id, Applied(loaded.profile, params), loaded.version, params.version, tx);
          && store.rows == o.rows && store.nextId == o.nextId
          && (o.result.Failure? ==> r == UpdateFailed(Wrapped(o.result.error, "failed to store user")))
          && (o.result.Success? ==> r.Updated? && fresh(r.user) && Hydrates(r.user, o.result.value.id, o.result.value.row))
    {
      var got := GetUser(params.id, getFails);
      if got.Failure? {
        return UpdateFailed(got.error);
      }
      var user := got.value;
      ghost var loaded := store.rows[params.id];
      ApplyParams(user, params);
      if !user.meta.HasChanges() {
        return Unchanged(user);
      }
      var stored := store.Store(user, params.version, tx);
      if stored.Failure? {
        return UpdateFailed(Wrapped(stored.error, "failed to store user"));
      }
      r := Updated(stored.value);
    }

    /**
     * DeleteUser: the store's soft delete, with its error wrapped. The store returns the
     * deleted user as well; the service keeps only the error.
     */
    method DeleteUser(params: DeleteUserParams, now: Time, queryFails: bool) returns (err: Option<Error>)
      requires store.Valid()
      modifies store`rows
      ensures store.Valid()
      ensures queryFails ==> err == Some(Wrapped(DriverFailure, "failed to delete user")) && store.rows == old(store.rows)
      ensures !queryFails && params.id !in old(store.rows) ==>
        err == Some(Wrapped(StoreUserNotFound, "failed to delete user")) && store.rows == old(store.rows)
      ensures !queryFails && params.id in old(store.rows) ==>
        err == None && store.rows == old(store.rows)[params.id := old(store.rows)[params.id].(disabled := true, updatedAt := now)]
    {
      var deleted := store.Delete(params.id, now, queryFails);
      if deleted.Failure? {
        return Some(Wrapped(deleted.error, "failed to delete user"));
      }
      err := None;
    }
  }
}
