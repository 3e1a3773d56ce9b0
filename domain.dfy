/**
 * The Postgres domains table and the domain-metadata row that carries the
 * cluster-wide notification version.
 *
 * The table is a map from domain id to row; the database's unique keys on
 * id and name are the store's invariant. Each operation does what its SQL
 * statement does: INSERT fails on a duplicate key, UPDATE and DELETE touch
 * the rows their WHERE clause selects (possibly none), SELECT ... ORDER BY
 * id LIMIT n returns the first n qualifying rows in id order, and the
 * metadata UPDATE is a compare-and-set on the stored version.
 */
module PostgresDomain {
  import opened Wrappers

  /** Domain ids; the database orders them, and the model orders them as integers. */
  type DomainId = int

  /** One row of the domains table. */
  datatype DomainRow = DomainRow(id: DomainId, name: string, isGlobal: bool, data: seq<bv8>, dataEncoding: string)

  /** The optional fields a caller may set to select or delete domains (nil pointers are None). */
  datatype DomainFilter = DomainFilter(
    id: Option<DomainId>, name: Option<string>, greaterThanId: Option<DomainId>, pageSize: Option<int>)

  /** The single row of the domain_metadata table. */
  datatype DomainMetadataRow = DomainMetadataRow(notificationVersion: int)

  /** errMissingArgs, the driver's no-rows error, and a unique-key violation. */
  datatype DomainError = MissingArgs | NoRows | DuplicateKey

  /** The statement a select filter leads to. */
  datatype DomainQuery =
    | GetById(id: DomainId)
    | GetByName(name: string)
    | List(after: Option<DomainId>, limit: nat)
    | NoQuery

  /** The statement a delete filter leads to; deleting by a nil name matches no row. */
  datatype DeleteQuery = DeleteById(id: DomainId) | DeleteByName(name: Option<string>)

  /**
   * The filter dispatch of SelectFromDomain, selectFromDomain and
   * selectAllFromDomain: a set ID or Name leads to a point lookup (ID first),
   * otherwise a positive page size leads to a listing, otherwise nothing is read.
   */
  function SelectQuery(filter: DomainFilter): (q: DomainQuery)
    ensures q.NoQuery? <==>
      filter.id.None? && filter.name.None? && (filter.pageSize.None? || filter.pageSize.value <= 0)
    ensures filter.id.Some? ==> q == GetById(filter.id.value)
    ensures q.GetByName? <==> filter.id.None? && filter.name.Some?
    ensures q.GetByName? ==> q.name == filter.name.value
    ensures q.List? ==>
      filter.id.None? && filter.name.None? && 0 < q.limit && filter.pageSize == Some(q.limit as int) &&
      q.after == filter.greaterThanId
  {
    if filter.id.Some? then GetById(filter.id.value)
    else if filter.name.Some? then GetByName(filter.name.value)
    else if filter.pageSize.Some? && filter.pageSize.value > 0 then List(filter.greaterThanId, filter.pageSize.value)
    else NoQuery
  }

  /** The filter dispatch of DeleteFromDomain: by ID when it is set, otherwise by Name. */
  function DeleteTarget(filter: DomainFilter): (q: DeleteQuery)
    ensures filter.id.Some? ==> q == DeleteById(filter.id.value)
    ensures filter.id.None? ==> q == DeleteByName(filter.name)
  {
    if filter.id.Some? then DeleteById(filter.id.value) else DeleteByName(filter.name)
  }

  // ---- ordering of ids ----

  predicate StrictlyAscending(s: seq<DomainId>) {
    forall i, j :: 0 <= i < j < |s| ==> s[i] < s[j]
  }

  /** Only a step of MinExists: a non-empty set has an element to pick. */
  lemma HasElement(ids: set<DomainId>)
    requires ids != {}
    ensures exists y :: y in ids
  {
    if forall y :: y !in ids { assert false; }
  }

  lemma {:induction false} MinExists(ids: set<DomainId>)
    requires ids != {}
    ensures exists m :: m in ids && forall x :: x in ids ==> m <= x
    decreases |ids|
  {
    HasElement(ids);
    var y :| y in ids;
    var rest := ids - {y};
    if rest == {} {
      assert forall x :: x in ids ==> x == y || x in rest;
      assert forall x :: x in ids ==> y <= x;
    } else {
      MinExists(rest);
      var m :| m in rest && forall x :: x in rest ==> m <= x;
      var k := if y < m then y else m;
      assert forall x :: x in ids ==> x == y || x in rest;
      assert k in ids && forall x :: x in ids ==> k <= x;
    }
  }

  /** The least id of a non-empty set. */
  function MinId(ids: set<DomainId>): (m: DomainId)
    requires ids != {}
    ensures m in ids && forall x :: x in ids ==> m <= x
  {
    MinExists(ids);
    var m :| m in ids && forall x :: x in ids ==> m <= x; m
  }

  /** The ids of a set in ascending order (what ORDER BY id yields). */
  function SortedIds(ids: set<DomainId>): (r: seq<DomainId>)
    ensures StrictlyAscending(r)
    ensures forall i :: 0 <= i < |r| ==> r[i] in ids
    ensures forall id :: id in ids ==> id in r
    decreases |ids|
  {
    if ids == {} then []
    else
      var m := MinId(ids);
      var rest := SortedIds(ids - {m});
      assert forall id :: id in ids ==> id == m || id in ids - {m};
      [m] + rest
  }

  /** Whether an id passes the `id > GreaterThanID` condition (no condition when unset). */
  predicate IsAfter(id: DomainId, after: Option<DomainId>) {
    after.None? || after.value < id
  }

  /** The ids one page of a listing returns: ORDER BY id LIMIT limit, after `after` when set. */
  function ListIds(keys: set<DomainId>, after: Option<DomainId>, limit: nat): (ids: seq<DomainId>)
    ensures |ids| <= limit
    ensures StrictlyAscending(ids)
    ensures forall i :: 0 <= i < |ids| ==> ids[i] in keys && IsAfter(ids[i], after)
    // the page is the beginning of the qualifying ids: a qualifying id left
    // out means the page is full and every id on it is smaller
    ensures forall id :: id in keys && IsAfter(id, after) && id !in ids ==>
      |ids| == limit && forall i :: 0 <= i < |ids| ==> ids[i] < id
  {
    var all := SortedIds(set id | id in keys && IsAfter(id, after));
    var page := if |all| <= limit then all else all[..limit];
    forall id | id in keys && IsAfter(id, after) && id !in page
      ensures |page| == limit && forall i :: 0 <= i < |page| ==> page[i] < id
    {
      assert id in all;
      var j :| 0 <= j < |all| && all[j] == id;
      assert forall i :: 0 <= i < |page| ==> page[i] == all[i] && page[i] != id;
      assert |page| <= j;
    }
    page
  }

  // ---- the table ----

  /** Every row is stored under its own id. */
  ghost predicate Keyed(rows: map<DomainId, DomainRow>) {
    forall id :: id in rows ==> rows[id].id == id
  }

  /** No two rows share a name (the unique key on name). */
  ghost predicate UniqueNames(rows: map<DomainId, DomainRow>) {
    forall a, b :: a in rows && b in rows && rows[a].name == rows[b].name ==> a == b
  }

  predicate NameInUse(rows: map<DomainId, DomainRow>, name: string) {
    exists id :: id in rows && rows[id].name == name
  }

  /** Whether a row other than `id` holds `name`. */
  predicate NameUsedElsewhere(rows: map<DomainId, DomainRow>, name: string, id: DomainId) {
    exists other :: other in rows && other != id && rows[other].name == name
  }

  /** The rows a listing returns: the rows of ListIds, in its order. */
  function ListDomains(rows: map<DomainId, DomainRow>, after: Option<DomainId>, limit: nat): (page: seq<DomainRow>)
    requires Keyed(rows)
    ensures |page| <= limit
    ensures forall i :: 0 <= i < |page| ==> page[i].id in rows && rows[page[i].id] == page[i] && IsAfter(page[i].id, after)
    ensures forall i, j :: 0 <= i < j < |page| ==> page[i].id < page[j].id
    ensures forall id :: id in rows && IsAfter(id, after) && rows[id] !in page ==>
      |page| == limit && forall i :: 0 <= i < |page| ==> page[i].id < id
  {
    var ids := ListIds(rows.Keys, after, limit);
    var page := seq(|ids|, i requires 0 <= i < |ids| => rows[ids[i]]);
    forall id | id in rows && IsAfter(id, after) && rows[id] !in page
      ensures |page| == limit && forall i :: 0 <= i < |page| ==> page[i].id < id
    {
      forall k | 0 <= k < |ids| ensures ids[k] != id {
        assert page[k] in page;
      }
    }
    page
  }

  /** The row holding `name`, if any. */
  function FindByName(rows: map<DomainId, DomainRow>, name: string): (r: Option<DomainRow>)
    requires Keyed(rows) && UniqueNames(rows)
    ensures r.Some? <==> NameInUse(rows, name)
    ensures r.Some? ==> r.value.id in rows && rows[r.value.id] == r.value && r.value.name == name
  {
    if NameInUse(rows, name) then
      var id :| id in rows && rows[id].name == name; Some(rows[id])
    else None
  }

  /** The table without the rows that hold `name`. */
  function WithoutName(rows: map<DomainId, DomainRow>, name: string): (r: map<DomainId, DomainRow>)
    ensures forall id :: id in r <==> id in rows && rows[id].name != name
    ensures forall id :: id in r ==> r[id] == rows[id]
  {
    map id | id in rows && rows[id].name != name :: rows[id]
  }

  // ---- the notification version ----

  /** The outcome of one compare-and-set on the notification version. */
  datatype CasOutcome = CasOutcome(version: int, applied: bool)

  /** UPDATE domain_metadata SET notification_version = expected + 1 WHERE notification_version = expected. */
  function CompareAndIncrement(stored: int, expected: int): (o: CasOutcome) {
    if stored == expected then CasOutcome(expected + 1, true) else CasOutcome(stored, false)
  }

  /** The version after a series of compare-and-set updates, each naming the version it expects. */
  function FinalVersion(stored: int, expected: seq<int>): (v: int)
    decreases |expected|
  {
    if expected == [] then stored
    else FinalVersion(CompareAndIncrement(stored, expected[0]).version, expected[1..])
  }

  /** How many updates of the series applied. */
  function AppliedCount(stored: int, expected: seq<int>): (n: nat)
    decreases |expected|
  {
    if expected == [] then 0
    else
      var o := CompareAndIncrement(stored, expected[0]);
      (if o.applied then 1 else 0) + AppliedCount(o.version, expected[1..])
  }

  /** How many updates of the series that expected version `e` applied. */
  function AppliedCountFor(stored: int, expected: seq<int>, e: int): (n: nat)
    decreases |expected|
  {
    if expected == [] then 0
    else
      var o := CompareAndIncrement(stored, expected[0]);
      (if o.applied && expected[0] == e then 1 else 0) + AppliedCountFor(o.version, expected[1..], e)
  }

  /** The counter ends exactly as many steps above its start as updates applied. */
  lemma {:induction false} FinalVersionCountsApplied(stored: int, expected: seq<int>)
    ensures FinalVersion(stored, expected) == stored + AppliedCount(stored, expected)
    decreases |expected|
  {
    if expected != [] {
      FinalVersionCountsApplied(CompareAndIncrement(stored, expected[0]).version, expected[1..]);
    }
  }

  /**
   * At most one update expecting a given version applies, and none does
   * once the counter has passed it: a lost race always reads as a conflict.
   */
  lemma {:induction false} AtMostOneAppliedPerVersion(stored: int, expected: seq<int>, e: int)
    ensures AppliedCountFor(stored, expected, e) <= (if stored <= e then 1 else 0)
    decreases |expected|
  {
    if expected != [] {
      var o := CompareAndIncrement(stored, expected[0]);
      AtMostOneAppliedPerVersion(o.version, expected[1..], e);
    }
  }

  /** Of several updates that all expect the stored version, exactly one applies. */
  lemma {:induction false} RacingUpdatesOneWins(stored: int, expected: seq<int>)
    requires |expected| > 0
    requires forall i :: 0 <= i < |expected| ==> expected[i] == stored
    ensures AppliedCount(stored, expected) == 1
    ensures FinalVersion(stored, expected) == stored + 1
  {
    NoneApplyBelow(stored + 1, expected[1..]);
    FinalVersionCountsApplied(stored, expected);
  }

  /** Updates expecting versions below the stored one never apply. */
  lemma {:induction false} NoneApplyBelow(stored: int, expected: seq<int>)
    requires forall i :: 0 <= i < |expected| ==> expected[i] < stored
    ensures AppliedCount(stored, expected) == 0
    decreases |expected|
  {
    if expected != [] {
      NoneApplyBelow(stored, expected[1..]);
    }
  }

  /** The domains table and the domain_metadata row of one database. */
  class DomainStore {
    var rows: map<DomainId, DomainRow>
    var notificationVersion: int

    ghost predicate Valid()
      reads this
    {
      Keyed(rows) && UniqueNames(rows)
    }

    /** An empty table whose metadata row holds `version`. */
    constructor (version: int)
      ensures Valid() && rows == map[] && notificationVersion == version
    {
      rows := map[];
      notificationVersion := version;
    }

    /** InsertIntoDomain: stores the row as given unless its id or name is taken. */
    method InsertIntoDomain(row: DomainRow) returns (r: Result<nat, DomainError>)
      requires Valid()
      modifies this`rows
      ensures Valid()
      ensures r.Failure? <==> row.id in old(rows) || NameInUse(old(rows), row.name)
      ensures r.Success? ==> r.value == 1 && rows == old(rows)[row.id := row]
      ensures r.Failure? ==> r.error == DuplicateKey && rows == old(rows)
    {
      if row.id in rows || NameInUse(rows, row.name) {
        r := Failure(DuplicateKey);
      } else {
        rows := rows[row.id := row];
        r := Success(1);
      }
    }

    /**
     * UpdateDomain: rewrites name, data and data_encoding of the row with the
     * given id; is_global and every other row stay as they are. No row with
     * that id means no row is affected.
     */
    method UpdateDomain(row: DomainRow) returns (r: Result<nat, DomainError>)
      requires Valid()
      modifies this`rows
      ensures Valid()
      ensures row.id !in old(rows) ==> r == Success(0) && rows == old(rows)
      ensures row.id in old(rows) && NameUsedElsewhere(old(rows), row.name, row.id) ==>
        r == Failure(DuplicateKey) && rows == old(rows)
      ensures row.id in old(rows) && !NameUsedElsewhere(old(rows), row.name, row.id) ==>
        r == Success(1) &&
        rows == old(rows)[row.id := old(rows)[row.id].(name := row.name, data := row.data, dataEncoding := row.dataEncoding)]
    {
      if row.id !in rows {
        r := Success(0);
      } else if NameUsedElsewhere(rows, row.name, row.id) {
        r := Failure(DuplicateKey);
      } else {
        rows := rows[row.id := rows[row.id].(name := row.name, data := row.data, dataEncoding := row.dataEncoding)];
        r := Success(1);
      }
    }

    /** SelectFromDomain: a point lookup, a page of a listing, or errMissingArgs without a read. */
    method SelectFromDomain(filter: DomainFilter) returns (r: Result<seq<DomainRow>, DomainError>)
      requires Valid()
      ensures SelectQuery(filter).NoQuery? ==> r == Failure(MissingArgs)
      ensures filter.id.Some? ==>
        r == if filter.id.value in rows then Success([rows[filter.id.value]]) else Failure(NoRows)
      ensures SelectQuery(filter).GetByName? ==>
        (r.Success? <==> NameInUse(rows, filter.name.value)) &&
        (r.Success? ==> |r.value| == 1 && r.value[0] in rows.Values && r.value[0].name == filter.name.value) &&
        (r.Failure? ==> r.error == NoRows)
      ensures SelectQuery(filter).List? ==>
        r == Success(ListDomains(rows, filter.greaterThanId, filter.pageSize.value))
    {
      match SelectQuery(filter)
      case GetById(id) =>
        r := if id in rows then Success([rows[id]]) else Failure(NoRows);
      case GetByName(name) =>
        var found := FindByName(rows, name);
        r := if found.Some? then Success([found.value]) else Failure(NoRows);
      case List(after, limit) =>
        r := Success(ListDomains(rows, after, limit));
      case NoQuery =>
        r := Failure(MissingArgs);
    }

    /** DeleteFromDomain: deletes by id when the filter sets one, otherwise by name. */
    method DeleteFromDomain(filter: DomainFilter) returns (rowsAffected: nat)
      requires Valid()
      modifies this`rows
      ensures Valid()
      ensures filter.id.Some? ==>
        rows == old(rows) - {filter.id.value} && rowsAffected == (if filter.id.value in old(rows) then 1 else 0)
      ensures filter.id.None? && filter.name.Some? ==>
        rows == WithoutName(old(rows), filter.name.value) &&
        rowsAffected == (if NameInUse(old(rows), filter.name.value) then 1 else 0)
      ensures filter.id.None? && filter.name.None? ==> rows == old(rows) && rowsAffected == 0
    {
      match DeleteTarget(filter)
      case DeleteById(id) =>
        rowsAffected := if id in rows then 1 else 0;
        rows := rows - {id};
      case DeleteByName(Some(name)) =>
        rowsAffected := if NameInUse(rows, name) then 1 else 0;
        rows := WithoutName(rows, name);
      case DeleteByName(None) =>
        rowsAffected := 0;
    }

    /** LockDomainMetadata: the locking read of the notification version; nothing changes. */
    method LockDomainMetadata() returns (version: int)
      ensures version == notificationVersion
    {
      version := notificationVersion;
    }

    /** SelectFromDomainMetadata: the plain read of the notification version. */
    method SelectFromDomainMetadata() returns (row: DomainMetadataRow)
      ensures row.notificationVersion == notificationVersion
    {
      row := DomainMetadataRow(notificationVersion);
    }

    /**
     * UpdateDomainMetadata: sets the version to row's version + 1 if the
     * stored version equals row's version; otherwise no row is affected.
     */
    method UpdateDomainMetadata(row: DomainMetadataRow) returns (rowsAffected: nat)
      modifies this`notificationVersion
      ensures old(notificationVersion) == row.notificationVersion ==>
        notificationVersion == old(notificationVersion) + 1 && rowsAffected == 1
      ensures old(notificationVersion) != row.notificationVersion ==>
        notificationVersion == old(notificationVersion) && rowsAffected == 0
      ensures notificationVersion == CompareAndIncrement(old(notificationVersion), row.notificationVersion).version
    {
      var o := CompareAndIncrement(notificationVersion, row.notificationVersion);
      notificationVersion := o.version;
      rowsAffected := if o.applied then 1 else 0;
    }
  }

  /**
   * A domain's life in the table, and two writers racing on the metadata
   * row: an inserted row is found by id and by name, an update keeps
   * is_global, a delete by nil name removes nothing, and of two
   * compare-and-set updates that read the same version only the first applies.
   */
  method DomainScenario(store: DomainStore, row: DomainRow, newName: string)
    requires store.Valid() && store.rows == map[]
    modifies store
  {
    var ins := store.InsertIntoDomain(row);
    assert ins == Success(1);
    var byId := store.SelectFromDomain(DomainFilter(Some(row.id), Some(newName), None, None));
    assert byId == Success([row]);
    var byName := store.SelectFromDomain(DomainFilter(None, Some(row.name), None, None));
    assert store.rows == map[row.id := row] && NameInUse(store.rows, row.name);
    assert byName.Success? && byName.value[0] in store.rows.Values;
    assert store.rows.Values == {row};
    assert byName.value == [byName.value[0]];
    assert byName == Success([row]);
    var missing := store.SelectFromDomain(DomainFilter(None, None, None, Some(0)));
    assert missing == Failure(MissingArgs);
    var upd := store.UpdateDomain(row.(name := newName, isGlobal := !row.isGlobal));
    assert upd == Success(1) && store.rows[row.id].isGlobal == row.isGlobal && store.rows[row.id].name == newName;
    var none := store.DeleteFromDomain(DomainFilter(None, None, None, None));
    assert none == 0 && row.id in store.rows;
    var gone := store.DeleteFromDomain(DomainFilter(None, Some(newName), None, None));
    assert gone == 1 && store.rows == map[];

    var seen := store.SelectFromDomainMetadata();
    var first := store.UpdateDomainMetadata(seen);
    var second := store.UpdateDomainMetadata(seen);
    assert first == 1 && second == 0;
    assert store.notificationVersion == seen.notificationVersion + 1;
  }
}
