/**
 * The PostgreSQL user store, with the `users` table held in memory: a map from identity
 * to row plus the serial sequence that hands out identities. The SQL statements are
 * modelled by their effect on the table; the filter text is modelled by QueryComposition.
 */
module Postgresql {
  import opened Errors
  import opened Domain
  import opened Models
  import opened QueryComposition

  /**
   * The version a new row takes from the column default. The schema is not part of this
   * model; the repository's integration tests expect a created user to come back at version 1.
   */
  const CreatedVersion: Uint32 := 1

  /** One row of the `users` table, without its identity (the key of the table map). */
  datatype Row = Row(profile: Profile, disabled: bool, version: Uint32, createdAt: Time, updatedAt: Time)

  /** `user.Meta.GetVersion()+1` in Go's uint32 arithmetic, which wraps to 0. */
  function NextVersion(v: Uint32): (w: Uint32)
    ensures v < 0xFFFF_FFFF ==> w == v + 1
    ensures v == 0xFFFF_FFFF ==> w == 0
  {
    (v + 1) % 0x1_0000_0000
  }

  /** The row an INSERT of these six columns produces: every other column from its default. */
  function Inserted(p: Profile, now: Time): Row
  {
    Row(p, false, CreatedVersion, now, now)
  }

  /** The row the UPDATE statement leaves: six columns, the version and `updated_at` rewritten. */
  function Rewritten(row: Row, p: Profile, metaVersion: Uint32, now: Time): Row
  {
    row.(profile := p, version := NextVersion(metaVersion), updatedAt := now)
  }

  /** The text columns a filter key can name. */
  function Column(row: Row, key: string): Option<string>
  {
    match key
    case "first_name" => Some(row.profile.firstName)
    case "last_name" => Some(row.profile.lastName)
    case "nickname" => Some(row.profile.nickname)
    case "password" => Some(row.profile.password)
    case "email" => Some(row.profile.email)
    case "country" => Some(row.profile.country)
    case _ => None
  }

  predicate IsColumn(key: string)
  {
    key in {"first_name", "last_name", "nickname", "password", "email", "country"}
  }

  lemma ColumnsAreNamed(row: Row, key: string)
    ensures Column(row, key).Some? <==> IsColumn(key)
  {
  }

  /** Every key of the filter names a column; otherwise the database rejects the query. */
  predicate ValidColumns(terms: map<string, string>)
  {
    forall k :: k in terms ==> IsColumn(k)
  }

  /** The conjunctive equality filter, read off the map. */
  predicate TermsMatch(row: Row, terms: map<string, string>)
  {
    forall k :: k in terms ==> Column(row, k) == Some(terms[k])
  }

  /** The filter as the database evaluates the composed SQL: expression i compares column order[i] with parameter $(i+1). */
  predicate BoundMatch(row: Row, order: seq<string>, params: seq<string>)
    requires |params| == |order|
  {
    forall i :: 0 <= i < |order| ==> Column(row, order[i]) == Some(params[i])
  }

  /** The bound SQL filter selects exactly the rows that agree with every term of the map. */
  lemma BoundFilterMeansTerms(row: Row, terms: map<string, string>, order: seq<string>, params: seq<string>)
    requires Enumerates(order, terms.Keys)
    requires |params| == |order|
    requires forall i :: 0 <= i < |order| ==> params[i] == terms[order[i]]
    ensures BoundMatch(row, order, params) <==> TermsMatch(row, terms)
  {
    if BoundMatch(row, order, params) {
      forall k | k in terms
        ensures Column(row, k) == Some(terms[k])
      {
        assert k in order;
        var i :| 0 <= i < |order| && order[i] == k;
        assert Column(row, order[i]) == Some(params[i]);
      }
    }
  }

  /** Writing `nickname` into row `id` would clash with another row: the uniqueness constraint. */
  predicate Clashes(rows: map<nat, Row>, id: int, nickname: string)
  {
    exists k :: k in rows && k != id && rows[k].profile.nickname == nickname
  }

  ghost predicate UniqueNicknames(rows: map<nat, Row>)
  {
    forall a, b :: a in rows && b in rows && a != b ==> rows[a].profile.nickname != rows[b].profile.nickname
  }

  /** What the driver reports when scanning a row fails. */
  datatype ScanFailure = UniqueViolation | NoRows | OtherDriverError

  /** The classification in `scan`: a unique violation and an empty result become the store's sentinels. */
  function ClassifyScanFailure(f: ScanFailure): (e: Error)
    ensures e == DuplicateUser <==> f == UniqueViolation
    ensures e == StoreUserNotFound <==> f == NoRows
    ensures e == DriverFailure <==> f == OtherDriverError
  {
    match f
    case UniqueViolation => DuplicateUser
    case NoRows => StoreUserNotFound
    case OtherDriverError => DriverFailure
  }

  /** A freshly hydrated user holds the row's columns and carries no change markers. */
  ghost predicate Hydrates(u: User, id: int, row: Row)
    reads u, u.meta
  {
    && u.id == id
    && u.GetProfile() == row.profile
    && u.meta.version == row.version
    && u.meta.createdAt == row.createdAt
    && u.meta.updatedAt == row.updatedAt
    && u.meta.disabled == row.disabled
    && u.meta.changes == []
  }

  /** hydrateUser: NewUser followed by HydrateMeta, so no change is registered. */
  method HydrateUser(id: int, row: Row) returns (u: User)
    ensures fresh(u) && fresh(u.meta)
    ensures Hydrates(u, id, row)
  {
    var p := row.profile;
    // NewUser reads the clock; HydrateMeta overwrites both timestamps, so any instant will do.
    u := new User(id, p.firstName, p.lastName, p.nickname, p.password, p.email, p.country, row.createdAt);
    u.meta.HydrateMeta(row.version, row.createdAt, row.updatedAt, row.disabled);
  }

  /** What the database does inside one Store transaction that the model cannot compute. */
  datatype TxConditions = TxConditions(
    now: Time,            // NOW() on the database
    beginFails: bool,     // the pool cannot begin a transaction
    lockFails: bool,      // FOR UPDATE NOWAIT finds the row locked, or the read fails
    writeFails: bool,     // the INSERT or UPDATE fails for a reason other than a constraint
    commitFails: bool)    // COMMIT fails; the write is then lost

  /** Identities come from the serial sequence (all below `nextId`), and nicknames are unique. */
  ghost predicate TableValid(rows: map<nat, Row>, nextId: nat)
  {
    && 1 <= nextId
    && (forall id :: id in rows ==> 1 <= id < nextId)
    && UniqueNicknames(rows)
  }

  /** The version `lockForUpdate` reads: the row's, or 0 when there is no row. */
  function CurrentVersionOf(rows: map<nat, Row>, id: int): Uint32
  {
    if id in rows then rows[id].version else 0
  }

  /** A row a successful Store wrote, under its identity. */
  datatype Saved = Saved(id: nat, row: Row)

  /** The table, the sequence and the answer after one Store transaction. */
  datatype Effect = Effect(rows: map<nat, Row>, nextId: nat, result: Result<Saved>)

  /**
   * What Store does to the table for a user with identity `id`, fields `p` and in-memory
   * version `metaVersion`, given the version the caller expects.
   */
  function StoreEffect(rows: map<nat, Row>, nextId: nat, id: int, p: Profile, metaVersion: Uint32, version: Uint32, tx: TxConditions): (o: Effect)
    // rollback: no failure leaves a trace in the table, and neither does a lost commit
    ensures o.result.Failure? || tx.commitFails ==> o.rows == rows
    // the expected version is checked against the stored one before anything is written
    ensures o.result == Failure(WrongVersion) <==> !tx.beginFails && !tx.lockFails && CurrentVersionOf(rows, id) != version
    ensures tx.beginFails ==> o.result == Failure(Wrapped(DriverFailure, "failed to begin transaction"))
    ensures !tx.beginFails && tx.lockFails ==> o.result == Failure(DriverFailure)
    // only an insert draws a sequence value
    ensures o.nextId == nextId || (o.nextId == nextId + 1 && version == 0)
    // a committed write changes exactly one row and no other
    ensures o.result.Success? && !tx.commitFails ==> o.rows == rows[o.result.value.id := o.result.value.row]
    // the written row never shares its nickname with another row
    ensures o.result.Success? ==> !Clashes(rows, o.result.value.id, p.nickname)
    // insert: a new identity, an enabled row at the created version
    ensures o.result.Success? && version == 0 ==>
      o.result.value.id == nextId && o.result.value.row == Row(p, false, CreatedVersion, tx.now, tx.now)
    // update: the same identity, the six fields, version metaVersion+1 and updated_at rewritten
    ensures o.result.Success? && version != 0 ==>
      && o.result.value.id == id && id in rows && rows[id].version == version
      && o.result.value.row == rows[id].(profile := p, version := NextVersion(metaVersion), updatedAt := tx.now)
  {
    if tx.beginFails then Effect(rows, nextId, Failure(Wrapped(DriverFailure, "failed to begin transaction")))
    else if tx.lockFails then Effect(rows, nextId, Failure(DriverFailure))
    else if CurrentVersionOf(rows, id) != version then Effect(rows, nextId, Failure(WrongVersion))
    else if tx.writeFails then Effect(rows, nextId, Failure(DriverFailure))
    else if version == 0 then
      if Clashes(rows, nextId, p.nickname) then Effect(rows, nextId + 1, Failure(DuplicateUser))
      else
        var row := Inserted(p, tx.now);
        Effect(if tx.commitFails then rows else rows[nextId := row], nextId + 1, Success(Saved(nextId, row)))
    else
      var row := Rewritten(rows[id], p, metaVersion, tx.now);
      if Clashes(rows, id, p.nickname) then Effect(rows, nextId, Failure(DuplicateUser))
      else Effect(if tx.commitFails then rows else rows[id := row], nextId, Success(Saved(id, row)))
  }

  /**
   * When the in-memory version is the stored one, as it is for a user the service has just
   * loaded, a successful update writes exactly the stored version plus one, and any other
   * expected version is refused before anything is written.
   */
  lemma UpdateFromLoadedVersion(rows: map<nat, Row>, nextId: nat, id: int, p: Profile, expected: Uint32, tx: TxConditions)
    requires id in rows
    ensures var o := StoreEffect(rows, nextId, id, p, rows[id].version, expected, tx);
      && (o.result.Success? && expected != 0 ==> o.result.value.row.version == NextVersion(rows[id].version))
      && (expected != rows[id].version && !tx.beginFails && !tx.lockFails ==> o.result == Failure(WrongVersion))
  {
  }

  /** Store keeps identities below the sequence and nicknames unique. */
  lemma StorePreservesTableValid(rows: map<nat, Row>, nextId: nat, id: int, p: Profile, metaVersion: Uint32, version: Uint32, tx: TxConditions)
    requires TableValid(rows, nextId)
    ensures var o := StoreEffect(rows, nextId, id, p, metaVersion, version, tx); TableValid(o.rows, o.nextId)
  {
    var o := StoreEffect(rows, nextId, id, p, metaVersion, version, tx);
    if o.result.Success? && !tx.commitFails {
      var k := o.result.value.id;
      assert o.rows == rows[k := o.result.value.row];
      assert o.result.value.row.profile == p;
      forall a, b | a in o.rows && b in o.rows && a != b
        ensures o.rows[a].profile.nickname != o.rows[b].profile.nickname
      {
        if a == k {
          assert b in rows && b != k;
        } else if b == k {
          assert a in rows && a != k;
        }
      }
    }
  }

  class UserStore {
    var rows: map<nat, Row>
    var nextId: nat

    /** Identities come from the serial sequence, and nicknames are unique. */
    ghost predicate Valid()
      reads this
    {
      TableValid(rows, nextId)
    }

    /** An empty table whose sequence starts at 1. */
    constructor ()
      ensures Valid() && rows == map[] && nextId == 1
    {
      rows := map[];
      nextId := 1;
    }

    /** The row exists and is not soft-deleted. */
    predicate Visible(id: int)
      reads this
    {
      id in rows && !rows[id].disabled
    }

    /** Get: `WHERE id = $1 AND disabled = 'f'`, scanned into a hydrated user. */
    method Get(id: int, queryFails: bool) returns (r: Result<User>)
      ensures queryFails ==> r == Failure(DriverFailure)
      ensures !queryFails && Visible(id) ==>
        r.Success? && fresh(r.value) && fresh(r.value.meta) && Hydrates(r.value, id, rows[id])
      ensures !queryFails && !Visible(id) ==> r == Failure(StoreUserNotFound)
    {
      if queryFails {
        return Failure(ClassifyScanFailure(OtherDriverError));
      }
      if !Visible(id) {
        return Failure(ClassifyScanFailure(NoRows));
      }
      var u := HydrateUser(id, rows[id]);
      r := Success(u);
    }

    /**
     * List: the composed filter conjoined with `disabled = 'f'`. No ORDER BY is given, so the
     * rows come back in an unspecified order; each matching row appears exactly once.
     */
    method List(terms: map<string, string>, queryFails: bool) returns (r: Result<seq<User>>)
      ensures queryFails || !ValidColumns(terms) ==> r == Failure(Wrapped(DriverFailure, "failed to query context"))
      ensures !queryFails && ValidColumns(terms) ==> r.Success?
      ensures r.Success? ==>
        && |r.value| == |MatchingIds(terms)|
        && (forall i :: 0 <= i < |r.value| ==> r.value[i].id in MatchingIds(terms))
        && (forall k :: k in MatchingIds(terms) ==> exists i :: 0 <= i < |r.value| && r.value[i].id == k)
        && (forall i, j :: 0 <= i < j < |r.value| ==> r.value[i].id != r.value[j].id)
        && (forall i :: 0 <= i < |r.value| ==> r.value[i].id in rows && Hydrates(r.value[i], r.value[i].id, rows[r.value[i].id]))
    {
      var fragment, params, order := QueryComposer(terms);
      if queryFails || !ValidColumns(terms) {
        return Failure(Wrapped(DriverFailure, "failed to query context"));
      }
      // The database evaluates the bound filter: expression i compares column order[i] with $(i+1).
      var matching := set id | id in rows && !rows[id].disabled && BoundMatch(rows[id], order, params);
      // It selects the same rows as the map does.
      forall id | id in rows {
        BoundFilterMeansTerms(rows[id], terms, order, params);
      }
      assert matching == MatchingIds(terms);
      var users := ScanMultipleRows(matching);
      r := Success(users);
    }

    /** The identities of the non-disabled rows that agree with every term. */
    function MatchingIds(terms: map<string, string>): (ids: set<nat>)
      reads this
      ensures ids <= rows.Keys
    {
      set id | id in rows && !rows[id].disabled && TermsMatch(rows[id], terms)
    }

    /** scanMultipleRows: one hydrated user per selected row, appended in the order the rows arrive. */
    method ScanMultipleRows(selected: set<nat>) returns (users: seq<User>)
      requires selected <= rows.Keys
      ensures |users| == |selected|
      ensures forall i :: 0 <= i < |users| ==> users[i].id in selected
      ensures forall k :: k in selected ==> exists i :: 0 <= i < |users| && users[i].id == k
      ensures forall i, j :: 0 <= i < j < |users| ==> users[i].id != users[j].id
      ensures forall i :: 0 <= i < |users| ==> users[i].id in rows && Hydrates(users[i], users[i].id, rows[users[i].id])
    {
      users := [];
      var remaining := selected;
      ghost var position: map<nat, nat> := map[];  // where each scanned identity sits in `users`
      while remaining != {}
        invariant remaining <= selected
        invariant |users| + |remaining| == |selected|
        invariant forall i :: 0 <= i < |users| ==> users[i].id in selected && users[i].id !in remaining
        invariant forall k :: k in selected && k !in remaining ==> k in position && position[k] < |users| && users[position[k]].id == k
        invariant forall i, j :: 0 <= i < j < |users| ==> users[i].id != users[j].id
        invariant forall i :: 0 <= i < |users| ==> users[i].id in rows && Hydrates(users[i], users[i].id, rows[users[i].id])
        decreases remaining
      {
        var key :| key in remaining;
        var u := HydrateUser(key, rows[key]);
        position := position[key := |users|];
        users := users + [u];
        remaining := remaining - {key};
      }
      forall k | k in selected
        ensures exists i :: 0 <= i < |users| && users[i].id == k
      {
        assert users[position[k]].id == k;
      }
    }

    /** lockForUpdate: the current version of the row, 0 when there is none; `disabled` is not consulted. */
    function LockForUpdate(id: int, lockFails: bool): (r: Result<Uint32>)
      reads this
      ensures lockFails ==> r == Failure(DriverFailure)
      ensures !lockFails ==> r == Success(CurrentVersionOf(rows, id))
    {
      if lockFails then Failure(DriverFailure) else Success(CurrentVersionOf(rows, id))
    }

    /**
     * create: INSERT of the six text columns; the identity is drawn from the sequence (the
     * incoming `user.id` is ignored) and every other column takes its default. Returns the
     * staged table; the caller commits it. A sequence value, once drawn, is not given back.
     */
    method Create(user: User, tx: TxConditions) returns (r: Result<User>, staged: map<nat, Row>)
      requires Valid()
      modifies this`nextId
      ensures rows == old(rows)
      ensures tx.writeFails ==> r == Failure(DriverFailure) && staged == rows && nextId == old(nextId)
      ensures !tx.writeFails ==> nextId == old(nextId) + 1
      ensures !tx.writeFails && Clashes(rows, old(nextId), user.nickname) ==>
        r == Failure(DuplicateUser) && staged == rows
      ensures !tx.writeFails && !Clashes(rows, old(nextId), user.nickname) ==>
        && staged == rows[old(nextId) := Inserted(user.GetProfile(), tx.now)]
        && r.Success? && fresh(r.value) && Hydrates(r.value, old(nextId), Inserted(user.GetProfile(), tx.now))
    {
      if tx.writeFails {
        return Failure(ClassifyScanFailure(OtherDriverError)), rows;
      }
      var id := nextId;
      nextId := nextId + 1;
      var row := Inserted(user.GetProfile(), tx.now);
      if Clashes(rows, id, row.profile.nickname) {
        return Failure(ClassifyScanFailure(UniqueViolation)), rows;
      }
      staged := rows[id := row];
      var u := HydrateUser(id, row);
      r := Success(u);
    }

    /**
     * update: `WHERE id = $8 AND version = $9` with the expected version; the new version is
     * the in-memory user's version plus one, not the row's. Returns the staged table.
     */
    method Update(user: User, version: Uint32, tx: TxConditions) returns (r: Result<User>, staged: map<nat, Row>)
      ensures tx.writeFails ==> r == Failure(DriverFailure) && staged == rows
      ensures !tx.writeFails && !(user.id in rows && rows[user.id].version == version) ==>
        r == Failure(StoreUserNotFound) && staged == rows
      ensures !tx.writeFails && user.id in rows && rows[user.id].version == version ==>
        var row := Rewritten(rows[user.id], user.GetProfile(), user.meta.version, tx.now);
        if Clashes(rows, user.id, user.nickname) then
          r == Failure(DuplicateUser) && staged == rows
        else
          && staged == rows[user.id := row]
          && r.Success? && fresh(r.value) && Hydrates(r.value, user.id, row)
    {
      if tx.writeFails {
        return Failure(ClassifyScanFailure(OtherDriverError)), rows;
      }
      if !(user.id in rows && rows[user.id].version == version) {
        return Failure(ClassifyScanFailure(NoRows)), rows;
      }
      var row := Rewritten(rows[user.id], user.GetProfile(), user.meta.GetVersion(), tx.now);
      if Clashes(rows, user.id, row.profile.nickname) {
        return Failure(ClassifyScanFailure(UniqueViolation)), rows;
      }
      staged := rows[user.id := row];
      var u := HydrateUser(user.id, row);
      r := Success(u);
    }

    /**
     * Store: begin, lock and read the current version, compare it with the expected one,
     * insert when it is 0 and update otherwise, roll back on any error, commit. The error of
     * the commit is not looked at: a failed commit loses the write and still reports success.
     */
    method Store(user: User, version: Uint32, tx: TxConditions) returns (r: Result<User>)
      requires Valid()
      modifies this
      ensures Valid()
      ensures var o := StoreEffect(old(rows), old(nextId), user.id, user.GetProfile(), user.meta.version, version, tx);
        && rows == o.rows && nextId == o.nextId
        && (o.result.Failure? ==> r == Failure(o.result.error))
        && (o.result.Success? ==> r.Success? && fresh(r.value) && Hydrates(r.value, o.result.value.id, o.result.value.row))
    {
      if tx.beginFails {
        return Failure(Wrapped(DriverFailure, "failed to begin transaction"));
      }
      var current := LockForUpdate(user.id, tx.lockFails);
      if current.Failure? {
        return Failure(current.error);                      // rollback
      }
      if current.value != version {
        return Failure(WrongVersion);                       // rollback
      }
      var written: Result<User>;
      var staged: map<nat, Row>;
      if current.value == 0 {
        written, staged := Create(user, tx);
      } else {
        written, staged := Update(user, version, tx);
      }
      if written.Failure? {
        return Failure(written.error);                      // rollback
      }
      if !tx.commitFails {
        rows := staged;                                     // commit
      }
      r := written;
    }

    /**
     * Delete: a soft delete outside any transaction. It flips `disabled` and refreshes
     * `updated_at` whatever the row's prior state, and returns the row; with no row the scan
     * reports the store's not-found sentinel.
     */
    method Delete(id: int, now: Time, queryFails: bool) returns (r: Result<User>)
      requires Valid()
      modifies this`rows
      ensures Valid()
      ensures queryFails ==> r == Failure(DriverFailure) && rows == old(rows)
      ensures !queryFails && id !in old(rows) ==> r == Failure(StoreUserNotFound) && rows == old(rows)
      ensures !queryFails && id in old(rows) ==>
        && rows == old(rows)[id := old(rows)[id].(disabled := true, updatedAt := now)]
        && r.Success? && fresh(r.value) && Hydrates(r.value, id, rows[id])
      ensures !queryFails ==> !Visible(id)
    {
      if queryFails {
        return Failure(ClassifyScanFailure(OtherDriverError));
      }
      if id !in rows {
        return Failure(ClassifyScanFailure(NoRows));
      }
      var row := rows[id].(disabled := true, updatedAt := now);
      rows := rows[id := row];
      var u := HydrateUser(id, row);
      r := Success(u);
    }
  }

  /** With no terms the filter is only `disabled = 'f'`: every enabled row is listed. */
  lemma EmptyFilterSelectsEveryEnabledRow(store: UserStore)
    ensures store.MatchingIds(map[]) == set id | id in store.rows && store.Visible(id)
  {
  }
}
