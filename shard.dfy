/**
 * The Postgres shards table: one row per history shard, holding the shard's
 * range id (its ownership fencing token) and its opaque state.
 *
 * The rows are spread over several database shards; every operation first
 * routes its shard id to a database shard with the same routing function of
 * (shard id, number of database shards), then runs one statement there. The
 * store therefore holds one shards table per database shard.
 */
module PostgresShard {
  import opened Wrappers

  /** One row of the shards table. */
  datatype ShardsRow = ShardsRow(shardId: int, rangeId: int, data: seq<bv8>, dataEncoding: string)

  /** The key a read names. */
  datatype ShardsFilter = ShardsFilter(shardId: int)

  /** The driver's no-rows error and a primary-key violation. */
  datatype ShardError = NoRows | DuplicateKey

  /** The shards table of one database shard (empty when nothing was written there). */
  function TableOf(tables: map<int, map<int, ShardsRow>>, dbShard: int): (t: map<int, ShardsRow>) {
    if dbShard in tables then tables[dbShard] else map[]
  }

  /** Every row is stored under its own shard id, in the database shard its id routes to. */
  ghost predicate WellPlaced(tables: map<int, map<int, ShardsRow>>, route: (int, int) -> int, numDbShards: int) {
    forall d :: d in tables ==> forall s :: s in tables[d] ==> tables[d][s].shardId == s && route(s, numDbShards) == d
  }

  /** Writing a row under its own id, in the database shard it routes to, keeps the rows well placed. */
  lemma PutKeepsPlacement(
    tables: map<int, map<int, ShardsRow>>, route: (int, int) -> int, numDbShards: int, row: ShardsRow)
    requires WellPlaced(tables, route, numDbShards)
    ensures var d := route(row.shardId, numDbShards);
      WellPlaced(tables[d := TableOf(tables, d)[row.shardId := row]], route, numDbShards)
  {
    var d := route(row.shardId, numDbShards);
    var after: map<int, map<int, ShardsRow>> := tables[d := TableOf(tables, d)[row.shardId := row]];
    forall d': int, s: int | d' in after && s in after[d']
      ensures after[d'][s].shardId == s && route(s, numDbShards) == d'
    {
      if d' != d {
        assert after[d'] == tables[d'];
      } else if s != row.shardId {
        assert after[d'][s] == TableOf(tables, d)[s];
        assert d in tables && s in tables[d];
      } else {
        assert after[d'][s] == row;
      }
    }
  }

  class ShardStore {
    /** The number of database shards the rows are spread over. */
    const numDbShards: int
    /** The routing from (history shard id, number of database shards) to a database shard. */
    const route: (int, int) -> int
    /** The shards table of each database shard. */
    var tables: map<int, map<int, ShardsRow>>

    /** The database shard that holds `shardId`. */
    function DbShardOf(shardId: int): (d: int) {
      route(shardId, numDbShards)
    }

    /** The shards table of one database shard (empty when nothing was written there). */
    function Table(dbShard: int): (t: map<int, ShardsRow>)
      reads this
    {
      TableOf(tables, dbShard)
    }

    /** The row of `shardId`, looked up where routing puts it. */
    function Lookup(shardId: int): (r: Option<ShardsRow>)
      reads this
    {
      var t := Table(DbShardOf(shardId));
      if shardId in t then Some(t[shardId]) else None
    }

    ghost predicate Valid()
      reads this
    {
      WellPlaced(tables, route, numDbShards)
    }

    constructor (numDbShards: int, route: (int, int) -> int)
      ensures Valid() && tables == map[]
      ensures this.numDbShards == numDbShards && this.route == route
    {
      this.numDbShards := numDbShards;
      this.route := route;
      tables := map[];
    }

    /** InsertIntoShards: stores the row as given, unless its shard id already has a row. */
    method InsertIntoShards(row: ShardsRow) returns (r: Result<nat, ShardError>)
      requires Valid()
      modifies this`tables
      ensures Valid()
      ensures old(Lookup(row.shardId)).Some? ==> r == Failure(DuplicateKey) && tables == old(tables)
      ensures old(Lookup(row.shardId)).None? ==>
        r == Success(1) &&
        tables == old(tables)[DbShardOf(row.shardId) := old(Table(DbShardOf(row.shardId)))[row.shardId := row]]
      ensures forall s :: Lookup(s) == if s == row.shardId && r.Success? then Some(row) else old(Lookup(s))
      ensures forall d :: d != DbShardOf(row.shardId) ==> Table(d) == old(Table(d))
    {
      var d := DbShardOf(row.shardId);
      var t := Table(d);
      if row.shardId in t {
        r := Failure(DuplicateKey);
      } else {
        PutKeepsPlacement(tables, route, numDbShards, row);
        tables := tables[d := t[row.shardId := row]];
        r := Success(1);
      }
    }

    /**
     * UpdateShards: overwrites range_id, data and data_encoding of the row of
     * the shard id; no row means no row is affected. The statement compares
     * nothing, so a range id below the stored one is written all the same.
     */
    method UpdateShards(row: ShardsRow) returns (rowsAffected: nat)
      requires Valid()
      modifies this`tables
      ensures Valid()
      ensures old(Lookup(row.shardId)).None? ==> rowsAffected == 0 && tables == old(tables)
      ensures old(Lookup(row.shardId)).Some? ==>
        rowsAffected == 1 &&
        tables == old(tables)[DbShardOf(row.shardId) := old(Table(DbShardOf(row.shardId)))[row.shardId :=
          old(Lookup(row.shardId)).value.(rangeId := row.rangeId, data := row.data, dataEncoding := row.dataEncoding)]]
      ensures forall s :: Lookup(s) == if s == row.shardId && rowsAffected == 1 then Some(row) else old(Lookup(s))
      ensures forall d :: d != DbShardOf(row.shardId) ==> Table(d) == old(Table(d))
    {
      var d := DbShardOf(row.shardId);
      var t := Table(d);
      if row.shardId in t {
        var stored := t[row.shardId].(rangeId := row.rangeId, data := row.data, dataEncoding := row.dataEncoding);
        assert stored == row by { assert d in tables && row.shardId in tables[d]; }
        PutKeepsPlacement(tables, route, numDbShards, stored);
        tables := tables[d := t[row.shardId := stored]];
        rowsAffected := 1;
      } else {
        rowsAffected := 0;
      }
    }

    /** SelectFromShards: the stored row of the filter's shard id, or the no-rows error. */
    method SelectFromShards(filter: ShardsFilter) returns (r: Result<ShardsRow, ShardError>)
      requires Valid()
      ensures r.Success? <==> Lookup(filter.shardId).Some?
      ensures r.Success? ==> r.value == Lookup(filter.shardId).value && r.value.shardId == filter.shardId
      ensures r.Failure? ==> r.error == NoRows
    {
      var t := Table(DbShardOf(filter.shardId));
      r := if filter.shardId in t then Success(t[filter.shardId]) else Failure(NoRows);
    }

    /** ReadLockShards: the shared-lock read of the shard's range id; no row changes. */
    method ReadLockShards(filter: ShardsFilter) returns (r: Result<int, ShardError>)
      ensures r.Success? <==> Lookup(filter.shardId).Some?
      ensures r.Success? ==> r.value == Lookup(filter.shardId).value.rangeId
      ensures r.Failure? ==> r.error == NoRows
    {
      var t := Table(DbShardOf(filter.shardId));
      r := if filter.shardId in t then Success(t[filter.shardId].rangeId) else Failure(NoRows);
    }

    /** WriteLockShards: the exclusive-lock read of the shard's range id; no row changes. */
    method WriteLockShards(filter: ShardsFilter) returns (r: Result<int, ShardError>)
      ensures r.Success? <==> Lookup(filter.shardId).Some?
      ensures r.Success? ==> r.value == Lookup(filter.shardId).value.rangeId
      ensures r.Failure? ==> r.error == NoRows
    {
      var t := Table(DbShardOf(filter.shardId));
      r := if filter.shardId in t then Success(t[filter.shardId].rangeId) else Failure(NoRows);
    }
  }

  /**
   * Reads and writes of one shard id meet in the same database shard: what
   * an insert stores, the select and both lock reads return, and an update
   * is visible to them the same way, whatever the routing function is.
   */
  method RoutingScenario(store: ShardStore, row: ShardsRow, newRangeId: int)
    requires store.Valid() && store.Lookup(row.shardId).None?
    modifies store
  {
    var ins := store.InsertIntoShards(row);
    assert ins == Success(1);
    var selected := store.SelectFromShards(ShardsFilter(row.shardId));
    assert selected == Success(row);
    var shared := store.ReadLockShards(ShardsFilter(row.shardId));
    var exclusive := store.WriteLockShards(ShardsFilter(row.shardId));
    assert shared == exclusive == Success(row.rangeId);
    var again := store.InsertIntoShards(row);
    assert again == Failure(DuplicateKey);
    var updated := store.UpdateShards(row.(rangeId := newRangeId));
    assert updated == 1;
    var locked := store.WriteLockShards(ShardsFilter(row.shardId));
    assert locked == Success(newRangeId);
  }
}
