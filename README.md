# Cadence persistence core in Dafny

This project models three pieces of the persistence layer of the Cadence workflow engine and proves properties about them.

- **The workflow operation-mode validator** (`operation_mode_validator.dfy`, module `OperationModeValidator`). A create, update or conflict-resolve write carries a mode. It also carries the states (Created, Running, Completed, Zombie) of the execution records it touches: the new one, the current one, the reset one. The validator accepts or rejects the combination before anything is written. The three validators are total functions over these finite inputs. The decision tables of the table-driven test suite (its `stateToError` maps) are kept as data. One lemma per test function proves that the validator agrees with its tables. In each multi-participant case, the lemma proves that a rejection happens exactly when at least one participant fails its own table.
- **The Postgres domains table and the domain-metadata row** (`domain.dfy`, module `PostgresDomain`). The class `DomainStore` holds the table as a map from domain id to row, plus the `notification_version` counter. Each method does what its SQL statement does:
  - the filter dispatch (ID before Name, a positive page size for a listing, otherwise `errMissingArgs`);
  - point lookups;
  - paginated listings in ascending id order;
  - insert, update and delete;
  - the compare-and-set increment of the version.

  Lemmas about series of compare-and-set updates show three things. The counter ends exactly as many steps above its start as there were updates that applied. At most one update expecting a given version ever applies. Of several racing updates that read the same version, exactly one wins.
- **The Postgres shards table** (`shard.dfy`, module `PostgresShard`). The class `ShardStore` holds one shards table per database shard. Every operation routes its shard id through the same routing function of (shard id, number of database shards). The model covers insert, overwrite, select and the shared and exclusive lock reads of `range_id`.

`wrappers.dfy` holds the `Option` and `Result` datatypes.

Some cells of the validator's tables are less obvious than the others. The model takes each of them from the test suite `common/persistence/operationModeValidator_test.go`, cited below as test:<lines>:
- an update in UpdateCurrent mode with only the current execution accepts a Completed current execution and rejects only Zombie (test:107-112);
- an update in BypassCurrent mode with a new execution requires the new one to be Zombie, and the current one to be Completed or Zombie (test:182-193);
- a conflict resolution in UpdateCurrent mode with a new execution requires the reset execution to be Completed, with or without a current execution (test:255-260, test:317-322);
- a conflict resolution in BypassCurrent mode with only a reset execution accepts a Completed or Zombie reset (test:360-365);
- a conflict resolution in BypassCurrent mode with a new execution requires a Completed reset and a Zombie new one, so a Running reset is rejected whatever the new state (test:382-393).

## Model

| member | source | states |
|---|---|---|
| OperationModeValidator.ValidateCreateWorkflowModeState | common/persistence/operationModeValidator_test.go:56-102 | an accepted create that takes the current pointer installs a live (Created or Running) execution; an accepted zombie create writes a Zombie record |
| OperationModeValidator.ValidateUpdateWorkflowModeState | common/persistence/operationModeValidator_test.go:104-228 | an accepted update attaches a new execution only after the mutated current one has stopped, and never in IgnoreCurrent mode; UpdateCurrent leaves a non-Zombie execution current; BypassCurrent introduces no live execution |
| OperationModeValidator.ValidateConflictResolveWorkflowModeState | common/persistence/operationModeValidator_test.go:230-414 | in UpdateCurrent mode the execution that ends up current is not a zombie, and a new execution requires a Completed reset; a mutated current execution has stopped; BypassCurrent leaves no live contender |
| OperationModeValidator.CreateModeUpdateCurrentTable | common/persistence/operationModeValidator_test.go:56-82 | BrandNew, WorkflowIDReuse and ContinueAsNew accept exactly Created and Running |
| OperationModeValidator.CreateModeBypassCurrentTable | common/persistence/operationModeValidator_test.go:84-102 | the Zombie create mode accepts exactly Zombie |
| OperationModeValidator.CreateModesExclusive | common/persistence/operationModeValidator_test.go:56-102 | no state is accepted both by a live create mode and by the Zombie create mode |
| OperationModeValidator.UpdateModeUpdateCurrentTable | common/persistence/operationModeValidator_test.go:104-156 | current alone is rejected iff Zombie; with a new execution, rejected iff current is Created/Running or new is Completed/Zombie |
| OperationModeValidator.UpdateModeBypassCurrentTable | common/persistence/operationModeValidator_test.go:158-210 | current alone is accepted iff Completed/Zombie; with a new execution, the new one must also be Zombie |
| OperationModeValidator.UpdateModeIgnoreCurrentTable | common/persistence/operationModeValidator_test.go:212-228 | accepted without a new execution, rejected with one, for every current and new state |
| OperationModeValidator.ConflictResolveModeUpdateCurrentTable | common/persistence/operationModeValidator_test.go:230-355 | reset alone is rejected iff Zombie; reset+new needs reset Completed and new live; reset+current needs reset non-Zombie and current stopped; all three is the conjunction of the reset+new and current rules |
| OperationModeValidator.ConflictResolveModeBypassCurrentTable | common/persistence/operationModeValidator_test.go:357-414 | reset alone is accepted iff Completed/Zombie; reset+new is accepted iff reset is Completed and new is Zombie |
| PostgresDomain.SelectQuery | common/persistence/sql/sqlplugin/postgres/domain.go:72-109 | a set ID gives a lookup by id (ID beats Name); otherwise a set Name gives a lookup by name; otherwise a page size > 0 gives a listing with that limit and GreaterThanID; nothing is read exactly when none of these holds |
| PostgresDomain.SortedIds | common/persistence/sql/sqlplugin/postgres/domain.go:45-46 | ORDER BY id: the ids of the set, each once, in strictly ascending order |
| PostgresDomain.ListIds | common/persistence/sql/sqlplugin/postgres/domain.go:45-46 | at most limit ids, ascending, all qualifying (id > GreaterThanID when set); any qualifying id left out means the page is full and lies below it |
| PostgresDomain.ListDomains | common/persistence/sql/sqlplugin/postgres/domain.go:99-109 | the listed rows are stored rows, ascending by id, after GreaterThanID, at most PageSize, and are the first qualifying ones |
| PostgresDomain.FindByName | common/persistence/sql/sqlplugin/postgres/domain.go:43 | finds a row iff some row holds the name, and the row found is that stored row |
| PostgresDomain.DomainStore.InsertIntoDomain | common/persistence/sql/sqlplugin/postgres/domain.go:62-65 | fails with a duplicate key iff the id or name is taken, changing nothing; otherwise stores the row exactly as given |
| PostgresDomain.DomainStore.UpdateDomain | common/persistence/sql/sqlplugin/postgres/domain.go:67-70 | rewrites only name, data and data_encoding of the row with that id; is_global and every other row unchanged; no such row means 0 rows and no change |
| PostgresDomain.DomainStore.SelectFromDomain | common/persistence/sql/sqlplugin/postgres/domain.go:72-97 | errMissingArgs when no filter applies; a lookup returns exactly the one matching row or the no-rows error; a listing returns ListDomains of the table |
| PostgresDomain.DomainStore.DeleteFromDomain | common/persistence/sql/sqlplugin/postgres/domain.go:111-122 | deletes the row with the id if ID is set, else the rows with the name; a nil name deletes nothing |
| PostgresDomain.DomainStore.LockDomainMetadata | common/persistence/sql/sqlplugin/postgres/domain.go:124-129 | reads notification_version and changes nothing |
| PostgresDomain.DomainStore.SelectFromDomainMetadata | common/persistence/sql/sqlplugin/postgres/domain.go:131-136 | returns notification_version and changes nothing |
| PostgresDomain.DomainStore.UpdateDomainMetadata | common/persistence/sql/sqlplugin/postgres/domain.go:138-141 | compare-and-set: if the stored version equals the row's, it becomes exactly that + 1 (1 row); otherwise nothing changes (0 rows); the domain rows are untouched |
| PostgresDomain.FinalVersionCountsApplied | common/persistence/sql/sqlplugin/postgres/domain.go:53 | after a series of compare-and-set updates the counter equals its start plus the number that applied |
| PostgresDomain.AtMostOneAppliedPerVersion | common/persistence/sql/sqlplugin/postgres/domain.go:53 | at most one update expecting a given version applies, and none once the counter is past it |
| PostgresDomain.NoneApplyBelow | common/persistence/sql/sqlplugin/postgres/domain.go:53 | updates expecting a version below the stored one never apply |
| PostgresDomain.RacingUpdatesOneWins | common/persistence/sql/sqlplugin/postgres/domain.go:138-141 | of several updates that all read the stored version, exactly one applies and the counter ends one higher |
| PostgresShard.PutKeepsPlacement | common/persistence/sql/sqlplugin/postgres/shard.go:46-56 | writing a row under its shard id in the database shard it routes to keeps every row stored under its id, in its routed database shard |
| PostgresShard.ShardStore.InsertIntoShards | common/persistence/sql/sqlplugin/postgres/shard.go:46-50 | stores the row exactly as given in its routed database shard unless the shard id has a row (duplicate key, no change); nothing else changes |
| PostgresShard.ShardStore.UpdateShards | common/persistence/sql/sqlplugin/postgres/shard.go:52-56 | overwrites range_id, data and data_encoding of exactly that shard, with no range-id condition; no row means 0 rows and no change; other shards and database shards unchanged |
| PostgresShard.ShardStore.SelectFromShards | common/persistence/sql/sqlplugin/postgres/shard.go:58-67 | returns the stored row of the shard id, or the no-rows error when there is none |
| PostgresShard.ShardStore.ReadLockShards | common/persistence/sql/sqlplugin/postgres/shard.go:69-75 | returns the stored range_id of the shard (no-rows error when absent) and modifies nothing |
| PostgresShard.ShardStore.WriteLockShards | common/persistence/sql/sqlplugin/postgres/shard.go:77-83 | returns the stored range_id of the shard (no-rows error when absent) and modifies nothing |

The methods `PostgresShard.RoutingScenario` and `PostgresDomain.DomainScenario` are client programs. They use the contracts above to walk through one shard's and one domain's operations in order. They prove that what a write stores, the routed reads return.

## Left out

- The validator's implementation file is not part of this model. The validators are defined so that they agree with every cell of the test suite's tables, which the `...Table` lemmas prove.
- Two kinds of validator cell are not fixed by any test table. The model decides them as follows:
  - an update in IgnoreCurrent mode, tested only with a Completed current execution and a Running new one (test:213-227). For every state, the model accepts it alone and rejects it with a new execution. IgnoreCurrent mutates a record without looking at the current pointer, and a new record written beside it would be one the pointer does not know about;
  - a conflict resolution in BypassCurrent mode together with a current mutation, which is never tested. The model rejects it: bypassing leaves the current pointer alone, so there is no current record for the resolution to mutate.
- Validator rejections are modelled as `false`. The content of the error the code returns is not modelled.
- States outside the four named ones, and unknown mode values, are not modelled.
- Row-lock blocking (`FOR UPDATE`, `FOR SHARE`), transactions and context cancellation are concurrency and driver concerns. The lock methods are plain reads.
- PostgresDomain.DomainStore.LockDomainMetadata: the Go function discards the version its locking read returns. The model returns it so that the read is stated.
- The driver (`ExecContext`, `GetContext`, `SelectContext`) is not part of this model. Only two of its errors are modelled: the no-rows error and unique-key violations. Of `sql.Result`, only the rows-affected count is modelled.
- `sqlplugin.GetDBShardIDFromHistoryShardID` is not part of this model. It is the `route` function the shard store is built with.
- The schema is not part of this model. The unique keys on domain id, domain name and shard id are the stores' invariants.
- The domain shard constant 54321 and `DbDefaultShard` are left out: all domain rows live in one partition.
- Domain ids are modelled as integers, ordered as integers; the database's ordering of its id column is not modelled. Data blobs and encodings are stored but not interpreted.
- Integer widths (int64 range ids and shard ids, Go `int`) are not modelled; all integers are unbounded.
- Fencing: `UpdateShards` performs no range-id comparison. The caller's lock-compare-write sequence lives outside these files and is not modelled.
- The membership mocks and the no-op dynamic-config client are left out: they hold no persistence logic.
