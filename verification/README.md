# A Dafny model of the AWS advanced Go driver wrapper

The driver wraps a PostgreSQL or MySQL driver and keeps connections to a database cluster usable through failovers.
This project models the parts of it in which that is decided, and proves what they keep.

- **The cluster topology monitor** (`TopologyMonitor`, `MonitorInvariants`, `MonitorOwnership`, `MonitorExclusive`,
  `MonitorLeaks`, `MonitorTopologies`, `MonitorRuns`): one monitor loop, any number of host routines racing to elect the
  writer connection, and `ForceRefresh` calls, as a system of small steps: a load, store, compare-and-swap or close of a
  field that somebody else may be using at that moment is a step of its own; which others are merged is said at the end.
  Every answer of the database is arbitrary. `Topology` and `TopologyKey` hold what the monitor works on: row
  de-duplication, writer verification and the canonical key.
- **The connection pool**: `ConnPool` is the full interleaving of `Get`, a connection's `Close` and the pool's `Close`,
  with the windows in which `Get` lets go of the lock; `InternalPool` is the code itself, on objects.
- **Host selectors**: `Fairness` is the scheduling core, `RoundRobin` the selector's state as values, `RoundRobinTimes`
  what late calls do to it, and `RoundRobinSelector` the code on shared objects and the expiring `CacheMap`;
  `WeightedRandom` is the other selector.
- **Session state**: `SqlText`, `Dialects`, `SessionTransfer`, `SchemaTransfer` and `SchemaPanics` say which statements
  come back out of their own text; `SessionService` and `PluginService` are the services that track, transfer and restore.
- **Connection strings**: `Dsn` (the keyword/value parser), `DsnPanics`, `DsnCost` and `PgxPrinter`.
- **Failover**: `Network` is the outside world, a clock and an oracle with a ledger of every connection;
  `InitialConnection`, `Failover` and `GdbFailover` are the retry loops, `Slices` and `ReaderRounds` what they do to
  arrays that slices share.
- **The expiring cache and the plugin chain**: `ExpirationCache`, `PluginChain`.

`Strings` and `Sorting` are the Go library functions the code relies on.

Where the code does something other than one would expect, the model follows the code:

- `ForceRefresh` loads and empties `monitoringConn` in two steps. A connection the monitor stores in between is then in
  nobody's hands. A reset still closes it if it is the one elected in the last round; otherwise, or once a new round has
  begun, nobody ever does (`MonitorRuns.LateRefreshLeaks`, `MonitorRuns.LostForGood`). When that happens is decided
  exactly, over steps and over runs (`MonitorLeaks.LeaksExactly`, `MonitorRuns.LostExactlyByLateRefresh`).
- `Get` of the pool returns with the lock held when the pool is closed during an eviction
  (`ConnPool.LockIsLeftHeldExactly`, `ConnPool.LockIsLeftHeld`).
- Entries of the round robin selector live ten minutes from the last call that went through. When no call comes later than
  that, round robin is fair unless a host was replaced under the same name while it still had turns left
  (`RoundRobin.RoundRobinIsFairExactly`, `RoundRobin.UnfairAfterIdentifierChange`). A late call starts anew: a window on a
  new entry with a late call in it is never fair, with more than one host (`RoundRobinTimes.NewEntryIsFairExactly`), and
  any window is fair exactly when the shares of its parts add up to the weights (`RoundRobinTimes.WindowIsFairExactly`).
- Weights are those in the entry, which keeps old pairs when the property changes (`RoundRobin.OldPairsAreKept`). Bad pairs
  are refused again and again as long as there is no entry. Where there is one they are refused once and count as taken up
  then, unless a change of the default weight is refused as well (`RoundRobin.RefusedOnceExactly`).
- Copies of the session state have no pristine values, so nothing is ever restored on the old connection
  (`PluginService.CopyHasNothingPristine`).
- Not every schema or catalog name survives a transfer; which do is decided exactly
  (`SchemaTransfer.SchemaSurvivesExactly`, `SessionTransfer.CatalogSurvivesExactly`), and so is which make tracking panic
  (`SchemaPanics.TrackingPanicsExactly`, `SchemaPanics.SchemaPanicsExactly`).
- `RemoveFromSlice` shifts an array other slices share (`Slices.RemovalsLoseExactly`, `Slices.FirstToLastLoses`), so
  `getReaderFailoverConnection` loses readers for later rounds. A round over distinct readers loses none, apart from those
  that answered that they are writers, if and only if every other one it rejects comes after all those behind it in the
  list (`ReaderRounds.RoundKeepsExactly`, `ReaderRounds.FirstToLastKeepsOne`).
- The weight "relative to prior plugin" goes to the following plugin (`PluginChain.RelativeWeightHitsTheNext`).
- A printed value that is empty, or has blanks, quotes or backslashes in the wrong place, is not read back; which printed
  strings are is decided exactly (`PgxPrinter.PrintedIsReadBackExactly`, `Dsn.EmptyValueSwallowsNext`), and so is which
  inputs make the parser slice past their end (`DsnPanics.PanicsExactly`).

`dafny verify dfyconfig.toml` checks the project.

## Model

| member | source | states |
|---|---|---|
| `MonitorRuns.RunInv` | awssql/driver_infrastructure/cluster_topology_monitor.go:150-268 | in every run of the monitor with any number of host routines and `ForceRefresh` calls, in any interleaving and with any answers from the database, all the invariants below hold in every state |
| `MonitorRuns.OneWinnerPerRound` | awssql/driver_infrastructure/cluster_topology_monitor.go:728-778 | at most one routine wins the compare-and-swap in a panic round; the winner's connection was dialed to the winner's own host, was told by the writer query that it leads to the writer, and passed the role check |
| `MonitorRuns.AdoptedPairIsOneWinners` | awssql/driver_infrastructure/cluster_topology_monitor.go:180-199 | the connection and the host taken over together come from one and the same winner of that round, and the connection passed the writer query and the role check |
| `MonitorRuns.AdoptedConnectionIsOpen` | awssql/driver_infrastructure/cluster_topology_monitor.go:186-192 | the connection taken over is open at that moment, and the monitoring connection it replaces has been closed |
| `MonitorRuns.RoutineConnectionsAreItsOwn` | awssql/driver_infrastructure/cluster_topology_monitor.go:698-799 | a connection a routine still holds is open and in nobody else's hands: not the monitor's, not a refresh call's, not another routine's |
| `MonitorRuns.RoutinesRunOnlyInPanicMode` | awssql/driver_infrastructure/cluster_topology_monitor.go:156-251 | while a host routine is running the monitor is not in regular mode; it is in panic mode, or just leaving it and waiting for the routines |
| `MonitorRuns.RoundClosesItsConnections` | awssql/driver_infrastructure/cluster_topology_monitor.go:698-799 | whenever the routines of a round have all finished, whatever the monitor and refresh calls are doing, every connection is closed, or is the monitoring connection, the elected one not yet taken over, one the monitor is about to store or close, one a refresh call has looked at, or one such a call took out late |
| `MonitorRuns.NoAccumulation` | awssql/driver_infrastructure/cluster_topology_monitor.go:156-251 | between rounds, with no refresh under way, a connection is open if and only if it is the monitoring connection, or a refresh call took it out of `monitoringConn` late and no reset has closed it since |
| `MonitorRuns.OrphanedExactly` | awssql/driver_infrastructure/cluster_topology_monitor.go:411-471 | in every run, an open connection is in nobody's hands if and only if a refresh call took it out of `monitoringConn` late and no reset has closed it since |
| `MonitorRuns.LostExactly` | awssql/driver_infrastructure/cluster_topology_monitor.go:411-471 | in every run, a connection is lost at a time if and only if some step before lost it for good |
| `MonitorRuns.LostExactlyByLateRefresh` | awssql/driver_infrastructure/cluster_topology_monitor.go:462-471 | in terms of guards alone: a connection is lost if and only if a refresh call took it out late, and either the atomics of the round did not hold it then or a later round cleared them before any reset |
| `MonitorRuns.LostForGood` | awssql/driver_infrastructure/cluster_topology_monitor.go:156-471 | a lost connection is open and stays open and in nobody's hands in all the rest of the run |
| `MonitorRuns.LateRefreshLeaks` | awssql/driver_infrastructure/cluster_topology_monitor.go:462-471 | a concrete run in which a refresh loses the connection the monitor has just opened, and however that run goes on, nobody ever closes it |
| `MonitorRuns.StoredTopologiesHaveOneWriter` | awssql/driver_infrastructure/cluster_topology_monitor.go:538-589 | every topology ever stored is not empty, has exactly one writer, at index 0, and names each host once |
| `MonitorRuns.StableUpdatesAreDue` | awssql/driver_infrastructure/cluster_topology_monitor.go:334-397 | whenever the stable-reader rule updates the cache, there is a row of checks since a start more than 15 s earlier, at each of which a topology was stored, all its hosts had completed a cycle, and there was a report, all reports having one key |
| `MonitorLeaks.OrphansExactly` | awssql/driver_infrastructure/cluster_topology_monitor.go:411-471 | for every step and connection: it is in nobody's hands afterwards if and only if it was before and no reset closed it, or the step is the late store of a refresh call |
| `MonitorLeaks.LeaksExactly` | awssql/driver_infrastructure/cluster_topology_monitor.go:156-471 | for every step and connection: it is lost afterwards if and only if it was before, or the step is such a store while the atomics do not hold it, or starts a round that clears the atomics holding it |
| `MonitorLeaks.LateStoreOrphans` | awssql/driver_infrastructure/cluster_topology_monitor.go:462-471 | the guard of a late store, which looks only at what variables hold, is exactly when emptying `monitoringConn` leaves the connection in nobody's hands |
| `MonitorLeaks.SlotKept` | awssql/driver_infrastructure/cluster_topology_monitor.go:156-268 | every step keeps the monitoring connection open, unless the monitor is just replacing it, and never puts back one a refresh call took out |
| `MonitorOwnership.WhoHasIt` | awssql/driver_infrastructure/cluster_topology_monitor.go:698-799 | with all routines ended, a connection that is not in nobody's hands is closed, or it is known who has it: the monitoring slot, the election, the monitor or a refresh call |
| `MonitorOwnership.RoundKept` | awssql/driver_infrastructure/cluster_topology_monitor.go:156-251 | every step keeps the bookkeeping of a round: what the monitor overwrites is closed or about to be, the race is open exactly while its winner has not been taken over, finished routines hold nothing |
| `MonitorInvariants.PanicKept` | awssql/driver_infrastructure/cluster_topology_monitor.go:156-251 | every step keeps panic mode and regular mode apart: routines exist only while their map is not empty, and regular mode only with none |
| `MonitorInvariants.ElectionKept` | awssql/driver_infrastructure/cluster_topology_monitor.go:698-799 | every step keeps the election sound: one win a round, only with a connection to the winner's host that passed the writer query and the role check, and only the winner announces its host |
| `MonitorExclusive.ExclusiveKept` | awssql/driver_infrastructure/cluster_topology_monitor.go:698-799 | every step keeps a routine's connection, and the elected one until it is taken over, open and out of everybody else's hands |
| `MonitorTopologies.TopologyKept` | awssql/driver_infrastructure/cluster_topology_monitor.go:538-589 | every step keeps every stored, shared or reported topology usable: one writer, in front, each host once; rewriting availabilities included |
| `MonitorTopologies.StabilityKept` | awssql/driver_infrastructure/cluster_topology_monitor.go:334-397 | every step keeps the record of the stable-reader rule true: the start it remembers is the time of the first of an unbroken row of agreeing checks |
| `Topology.VerifyWriter` | awssql/driver_infrastructure/topology_utils.go:83-112 | the result is empty exactly when no writer was reported; otherwise it is a writer no other reported writer is newer than, followed by everybody who is not a writer, in the reported order |
| `Topology.VerifiedHasOneWriter` | awssql/driver_infrastructure/topology_utils.go:83-112 | a verified list is empty if and only if no writer was reported, and otherwise has exactly one writer, in front; distinct names stay distinct |
| `Topology.CollectRows` | awssql/driver_infrastructure/topology_utils.go:256-296 | for every host the map keeps a row no other row of that host is newer than, and drops none of the hosts |
| `Topology.QueryForTopology` | awssql/driver_infrastructure/topology_utils.go:256-296 | the rows that were read become the newest row of every host, exactly, and of these a verified topology |
| `Topology.UpdateHostsAvailability` | awssql/driver_infrastructure/cluster_topology_monitor.go:568-583 | hosts, order and roles stay as they are; a host is available exactly when its monitor has reported a topology |
| `Topology.AvailabilityKeepsTopology` | awssql/driver_infrastructure/cluster_topology_monitor.go:568-583 | rewriting availabilities keeps the one writer in front and the names distinct, in both directions |
| `Topology.GetWriter` | awssql/host_info_util/host_info_util.go:39-46 | a member of the list that is a writer, or nothing exactly when there is no writer |
| `TopologyKey.ComputeKey` | awssql/driver_infrastructure/topology.go:104-116 | the builder loop yields the rendering of the hosts sorted by name; with distinct names it does not depend on how the sort breaks ties or on the order of the hosts |
| `TopologyKey.KeyIsCanonical` | awssql/driver_infrastructure/topology.go:101-116 | for distinct names without `:` and `|`, two keys are equal if and only if the topologies show the same hosts, ports, availabilities and roles, whatever order and weights |
| `TopologyKey.KeyCollision` | awssql/driver_infrastructure/topology.go:101-116 | without that condition on names the key is not canonical: a topology of two hosts and one of a single host have the same key |
| `ConnPool.InvKept` | awssql/internal_pool/internal_conn_pool.go:40-67 | every step of every interleaving of `Get`, a connection's `Close` and the pool's `Close` keeps each connection in its one place |
| `ConnPool.Conservation` | awssql/internal_pool/internal_conn_pool.go:125-201 | in every run, every connection ever opened is in exactly one of four places: idle (listed once), checked out, in the hands of one call, or closed (once) |
| `ConnPool.ClosedPoolClosesAll` | awssql/internal_pool/internal_conn_pool.go:184-201 | a positive idle limit is never exceeded, a closed pool has no idle connection, and with nothing checked out or in anybody's hands it has closed exactly what it opened |
| `ConnPool.IssuedConnIsFresh` | awssql/internal_pool/internal_conn_pool.go:125-182 | the connection `Get` hands out was checked out by nobody and is not closed |
| `ConnPool.LockIsLeftHeldExactly` | awssql/internal_pool/internal_conn_pool.go:136-165 | in every run: the lock is held for good at a time if and only if some `Get` before came back for it after closing an unusable connection and found the pool closed |
| `ConnPool.LockIsLeftHeld` | awssql/internal_pool/internal_conn_pool.go:136-165 | a concrete run from the empty pool that ends so, and however it goes on, nobody gets the lock again |
| `ConnPool.LockIsNeverFree` | awssql/internal_pool/internal_conn_pool.go:136-165 | from then on no step that needs the lock ever happens in the run, and connections being returned stay where they are |
| `InternalPool.PooledConn.Close` | awssql/internal_pool/internal_conn_pool.go:40-67 | the connection goes to the end of the idle list when the pool is open and has room, and is closed otherwise, which is the step of the step system; a second call changes nothing |
| `InternalPool.InternalConnPool.Close` | awssql/internal_pool/internal_conn_pool.go:184-201 | all idle connections are closed, once, which is the step of the step system; a second call changes nothing |
| `InternalPool.InternalConnPool.Evict` | awssql/internal_pool/internal_conn_pool.go:136-165 | closing an unusable connection outside the lock: if the pool is closed meanwhile, the idle connections are closed too |
| `InternalPool.InternalConnPool.TakeIdle` | awssql/internal_pool/internal_conn_pool.go:132-168 | the loop ends first at the idle connection that can be reused, handing it out and having closed exactly those before it, or at the one during whose eviction the pool is closed, leaving the lock held |
| `InternalPool.InternalConnPool.Get` | awssql/internal_pool/internal_conn_pool.go:125-182 | the whole new state of the pool and of the connection in each case: closed pool, reuse of the first good idle connection, new connection, failed dial, pool closed meanwhile |
| `Fairness.FairExactly` | awssql/driver_infrastructure/round_robin_host_selector.go:91-122 | for any weights and any position of the scheduler, a window of as many choices as the sum of the weights gives every host exactly its weight, if and only if the host chosen last is not to be repeated more often than its weight, or it is alone |
| `Fairness.ServedFromExactly` | awssql/driver_infrastructure/round_robin_host_selector.go:91-122 | for any weights, position and number of choices: how often each host is chosen, in closed form, namely what is left over of the last turn and then part of the circles |
| `Fairness.RunsCompose` | awssql/driver_infrastructure/round_robin_host_selector.go:91-122 | runs of choices compose, so fairness of a window can be asked from any position of a run |
| `RoundRobin.ChoosingIsAdvancing` | awssql/driver_infrastructure/round_robin_host_selector.go:91-122 | one choice on the cached cluster information is one step of the scheduler over the weights in effect, and leaves the weights alone |
| `RoundRobin.CloseCallsAreCalls` | awssql/driver_infrastructure/round_robin_host_selector.go:125-170 | calls none of which comes later than an entry lives after the one before work on one and the same entry |
| `RoundRobin.RoundRobinIsFairExactly` | awssql/driver_infrastructure/round_robin_host_selector.go:65-254 | from any entry or none, calls of `GetHost` none of which comes too late for the entry, as many as the weights in effect add up to, with the same eligible hosts and properties, choose every host exactly as often as its weight, if and only if the counter left is not above the weight of the host chosen last, or there is one host only |
| `RoundRobin.RoundRobinIsFair` | awssql/driver_infrastructure/round_robin_host_selector.go:65-254 | that is always so with a new entry and in one any calls with any hosts and properties may have led to, as long as host names keep their identifiers and no call comes too late for the entry |
| `RoundRobin.ReachedIsGood` | awssql/driver_infrastructure/round_robin_host_selector.go:65-254 | in every reachable entry weights are positive and the counter is never negative, and it stays below the weight of the host chosen last as long as names keep their identifiers |
| `RoundRobin.UnfairAfterIdentifierChange` | awssql/driver_infrastructure/round_robin_host_selector.go:91-122 | a reachable entry with an unfair window: a host replaced under the same name takes over the turns left |
| `RoundRobinTimes.LateCallStartsAnew` | awssql/driver_infrastructure/round_robin_host_selector.go:125-179 | a call that comes later than the entry lives, and those after it, choose as if there had been no call before: the choices at any times are those before the late call followed by those on a new entry |
| `RoundRobinTimes.WindowIsFairExactly` | awssql/driver_infrastructure/round_robin_host_selector.go:65-179 | with any entry or none and calls at any times, late ones included, a window is fair if and only if for every host its share, computed from the weights, the position found and how many calls there are between late ones, is its weight |
| `RoundRobinTimes.NewEntryIsFairExactly` | awssql/driver_infrastructure/round_robin_host_selector.go:65-179 | on a new entry, calls at any times, as many as the weights add up to, choose every host exactly as often as its weight if and only if none of them comes late, or there is one host only |
| `RoundRobinTimes.LateCallsStarveLast` | awssql/driver_infrastructure/round_robin_host_selector.go:91-179 | why: late calls make up no turns, so the last host is chosen no more often than by calls in a row, and less often when there are late ones among as many calls as it takes to reach it |
| `RoundRobinTimes.UnfairAfterIdleTime` | awssql/driver_infrastructure/round_robin_host_selector.go:125-179 | an instance: with weights 5 and 1, six calls on a new entry are not fair when any of them comes late, and the second host is never chosen |
| `RoundRobin.RefreshSettles` | awssql/driver_infrastructure/round_robin_host_selector.go:125-254 | properties are taken up once: a call with the same properties changes no weight and does not restart the turn |
| `RoundRobin.RefusedOnceExactly` | awssql/driver_infrastructure/round_robin_host_selector.go:125-272 | a refused call that is made again with the same properties is refused again when there is no entry; with one it goes through if and only if the default weight is unchanged or acceptable, and then works with the old pairs and those before the first bad one |
| `RoundRobin.OldPairsAreKept` | awssql/driver_infrastructure/round_robin_host_selector.go:216-254 | a new value of the pairs property adds to the pairs in the entry: hosts it does not name keep their weights, and only an empty value removes pairs, all of them |
| `RoundRobinSelector.RoundRobinClusterInfo.UpdateDefaultWeight` | awssql/driver_infrastructure/round_robin_host_selector.go:197-214 | the fields afterwards, and whether the property is refused, are those of the specification the fairness theorems are about |
| `RoundRobinSelector.RoundRobinClusterInfo.UpdateHostWeightPairs` | awssql/driver_infrastructure/round_robin_host_selector.go:216-254 | the same for the loop over the pairs, which leaves the pairs before a bad one stored |
| `RoundRobinSelector.RoundRobinClusterInfo.ChooseHost` | awssql/driver_infrastructure/round_robin_host_selector.go:91-122 | the host chosen and the fields afterwards are those of the scheduler |
| `RoundRobinSelector.RoundRobinHostSelector.CreateCacheEntryForHosts` | awssql/driver_infrastructure/round_robin_host_selector.go:125-179 | the information object of the first host that has one takes up the properties, or a new one is made; on success all hosts share it until it expires, at every later time, and on failure nothing in the cache changes |
| `RoundRobinSelector.RoundRobinHostSelector.GetHost` | awssql/driver_infrastructure/round_robin_host_selector.go:65-123 | the reply is the scheduler's choice among the available hosts of the role in name order; the information of the cluster says afterwards what the scheduler makes of it, and all these hosts share it until it expires; no other cluster's information changes |
| `RoundRobinSelector.RoundRobinHostSelector.GetHosts` | awssql/driver_infrastructure/round_robin_host_selector.go:65-179 | calls at any times in a row with the same hosts and properties give the scheduler's choices at these times, the entry expiring in between when a call comes too late |
| `RoundRobinSelector.PicksAreFair` | awssql/driver_infrastructure/round_robin_host_selector.go:65-254 | so the hosts such calls give contain every host exactly as often as its weight says, as long as names keep their identifiers and no call comes too late |
| `RoundRobinSelector.FilterHosts` | awssql/utils/utils.go:136-144 | exactly the hosts of the role that are available, in their order |
| `CacheMap.CacheMap.Get` | awssql/utils/cache_map.go:67-78 | the value stored under the key if it has not expired |
| `CacheMap.CacheMap.CleanUp` | awssql/utils/cache_map.go:143-155 | what can be found now or later does not change |
| `CacheMap.CacheMap.Put` | awssql/utils/cache_map.go:50-60 | the key leads to the value until it expires, and at every later time all other keys to what they led to |
| `WeightedRandom.RangesPartition` | awssql/driver_infrastructure/weighted_random_host_selector.go:50-66 | the ranges are as long as the weights, begin at 1, end at their sum, follow one another without gaps and do not overlap |
| `WeightedRandom.PickIsUnique` | awssql/driver_infrastructure/weighted_random_host_selector.go:66-76 | every number from 1 to the sum is in the range of exactly one host |
| `WeightedRandom.SelectedByItsWeight` | awssql/driver_infrastructure/weighted_random_host_selector.go:50-76 | exactly as many of the random numbers select a host as its weight says |
| `WeightedRandom.BuildRanges` | awssql/driver_infrastructure/weighted_random_host_selector.go:50-64 | the loop builds exactly those ranges, and its counter ends one past their sum |
| `WeightedRandom.FindInRanges` | awssql/driver_infrastructure/weighted_random_host_selector.go:66-76 | whatever the order the map is iterated in, the host found is the one whose range holds the number, and none is found only out of bounds |
| `WeightedRandom.FinalErrorIsUnreachable` | awssql/driver_infrastructure/weighted_random_host_selector.go:66-76 | with a proper random number the final error never happens: a member of the eligible hosts is selected whenever there is one |
| `WeightedRandom.WeightedRandomHostSelector.GetHost` | awssql/driver_infrastructure/weighted_random_host_selector.go:34-77 | weights that were set are used while there are any, otherwise they are read from the properties and kept; the selection depends on the number drawn and not on the iteration order |
| `WeightedRandom.GetHostWeightMapFromString` | awssql/driver_infrastructure/host_selector.go:53-78 | an error exactly when a pair is bad; otherwise exactly the hosts that pairs name, each with the weight of the last pair that does, which is positive and fits into 64 bits |
| `SqlText.GetSeparateSqlStatements` | awssql/utils/sql_method_utils.go:59-74 | the loop yields the statements between semicolons, with blanks collapsed and comments removed, and no empty one |
| `SqlText.SeparatePhrase` | awssql/utils/sql_method_utils.go:59-107 | a query made of plain words and one value is one statement: the words unchanged and the value cleaned |
| `SessionTransfer.ReadOnlyIsDetected` | awssql/driver_infrastructure/mysql_database_dialects.go:103-169 | the query that sets read-only or read-write is recognised, with its value, by that detector and by no other, in both dialects |
| `SessionTransfer.IsolationIsDetected` | awssql/driver_infrastructure/pg_database_dialects.go:101-157 | the query that sets an isolation level is recognised as that level by its detector and by no other, in both dialects |
| `SessionTransfer.AutoCommitIsDetected` | awssql/driver_infrastructure/mysql_database_dialects.go:73-151 | the query that sets autocommit is recognised with its value, and as nothing else |
| `SessionTransfer.CatalogSurvivesExactly` | awssql/driver_infrastructure/mysql_database_dialects.go:91-151 | for every string: a catalog read back from its own query is the same, and nothing else is set, if and only if it is a non-empty word of letters, digits and underscores |
| `SchemaTransfer.SchemaSurvivesExactly` | awssql/driver_infrastructure/pg_database_dialects.go:88-140 | for every string: a PostgreSQL schema read back from its own query is the same, and nothing else is set, if and only if it has no semicolon, comment, isolation statement or multiple blanks and, when it is not printed between quotes, is not blank at an end or itself between quotes |
| `SchemaPanics.TrackingPanicsExactly` | awssql/driver_infrastructure/pg_database_dialects.go:88-99 | for every query, whatever is tracked: `UpdateState` panics if and only if one of its statements sets the search path to a lone double quote and no statement behind that sets anything |
| `SchemaPanics.SchemaPanicsExactly` | awssql/driver_infrastructure/pg_database_dialects.go:88-140 | for every schema without semicolons: reading its own query back panics if and only if it is not printed between quotes and a lone double quote is all that remains of it, blanks and comments aside |
| `SchemaPanics.LoneQuotePanics` | awssql/driver_infrastructure/pg_database_dialects.go:88-140 | a lone double quote with any blanks around it panics if and only if it is not printed between quotes |
| `SessionService.TransferPreservesMeaning` | awssql/driver_infrastructure/session_state_service.go:301-381 | reading the queries of a transfer back through `UpdateState` from an empty state rebuilds every tracked value, in both dialects, when the names among them survive |
| `SessionService.NothingIsMissing` | awssql/driver_infrastructure/session_state_service.go:301-381 | with supported values no query is missing, and a transfer fails only when the connection refuses one |
| `PluginService.RunsStaySupported` | awssql/plugin_helpers/plugin_service.go:581-613 | in every run, PostgreSQL sessions never track autocommit or catalog and MySQL sessions never track a schema, and every catalog that is tracked is a word |
| `PluginService.TransfersAreFaithful` | awssql/plugin_helpers/plugin_service.go:157-191 | so in every run no transfer reaches an unsupported query, and reading the queries of one back gives every tracked value, under MySQL always, and under PostgreSQL when the schema is one that survives |
| `PluginService.CopyHasNothingPristine` | awssql/driver_infrastructure/session_state.go:77-102 | a copy of the session state drops the pristine values, so no query puts one back |
| `PluginService.SessionStateService.Note` | awssql/driver_infrastructure/session_state_service.go:86-126 | values found become current, and what they replace becomes pristine unless there is a pristine value already |
| `PluginService.SessionStateService.Begin` | awssql/driver_infrastructure/session_state_service.go:466-479 | fails exactly when a transfer is under way and either setting is on; otherwise it keeps a copy of the state |
| `PluginService.SessionStateService.ApplyCurrentSessionState` | awssql/driver_infrastructure/session_state_service.go:301-381 | the queries issued are those of the tracked values in a fixed order, up to the first missing or refused one; the tracked values stay, and on success their pristine values are settled |
| `PluginService.SessionStateService.ApplyPristineSessionState` | awssql/driver_infrastructure/session_state_service.go:383-464 | the queries issued are those of the pristine values in the copy that may differ from the current ones, up to the first missing or refused one |
| `PluginService.CompareHostInfos` | awssql/plugin_helpers/plugin_service.go:213-238 | which changes are reported for which differences, and that nothing is reported exactly when nothing that matters differs |
| `PluginService.PluginServiceImpl.SetCurrentConnection` | awssql/plugin_helpers/plugin_service.go:132-194 | in every case the whole new state: errors for a missing connection or host, the first connection, no change, and a transfer; a transfer never finds another one under way, closes the old connection exactly when it was replaced, open and not to be preserved, and rolls back exactly when it was in a transaction |
| `PluginService.PluginServiceImpl.UpdateState` | awssql/plugin_helpers/plugin_service.go:581-613 | what the last statement that sets something sets is noted, and nothing else; under either dialect that is the step of the runs |
| `Dsn.ParsePgxKeywordValueSettings` | awssql/property_util/dsn_parser.go:288-365 | the parsing loop terminates on every input and yields the settings of the recursive grammar, or its error |
| `Dsn.DecodeEscape` | awssql/property_util/dsn_parser.go:315-349 | the two `ReplaceAll` passes undo backslash escaping, for every value |
| `Dsn.RoundTrip` | awssql/property_util/dsn_parser.go:288-365 | for any list of settings, quoted, escaped or plain, and however padded, parsing what was written stores exactly what was written, later settings replacing earlier ones, plus the protocol |
| `Dsn.RoundTripDistinct` | awssql/property_util/dsn_parser.go:288-365 | for distinct keys other than `protocol` and `dbname` and arbitrary quoted values, the parsed map is the written map plus the protocol |
| `Dsn.RawSurvivesExactly` | awssql/property_util/dsn_parser.go:303-328 | for every string: an unescaped value is read back unchanged if and only if it is empty or does not start with a quote or blank, has every blank behind a backslash, and no backslash at the end, before a quote or before another one |
| `DsnPanics.PanicsExactly` | awssql/property_util/dsn_parser.go:288-365 | for every input: the parser slices past the end if and only if it comes to a quoted value that has no closing quote behind an even number of backslashes and ends in an odd number of them |
| `DsnPanics.ScanStopsExactly` | awssql/property_util/dsn_parser.go:330-342 | the scan of a quoted value stops at the first quote behind an even number of backslashes; without one at the end, or one past it exactly when an odd number of backslashes is at the end |
| `DsnPanics.LoneBackslashPanics` | awssql/property_util/dsn_parser.go:330-342 | a single setting whose quoted value is not closed is an error, and a panic exactly when it ends in an odd number of backslashes |
| `Dsn.EmptyValueSwallowsNext` | awssql/property_util/dsn_parser.go:303-328 | an empty unquoted value takes the next setting for its value |
| `PgxPrinter.PrintedIsReadBackExactly` | pgx-driver/pgx_driver_dialect.go:101-120 | for every map and every iteration order: the printed string is read back if and only if every key is a key and not renamed and every value can stand unquoted, or is empty and the last one |
| `DsnCost.Affords` | awssql/property_util/dsn_parser.go:288-365 | a text that sets keys to values is at least as large as these keys and values, so a setting that is misread leaves no room to set its key again |
| `PgxPrinter.PrepareDsn` | pgx-driver/pgx_driver_dialect.go:101-120 | the loop prints exactly the kept properties, host and port overridden by the endpoint, and the parser reads them back exactly when they can stand unquoted |
| `InitialConnection.AuroraInitialConnectionStrategyPlugin.HandleErrorAndShouldRetry` | awssql/plugins/aurora_initial_connection_strategy_plugin.go:347-366 | the candidate is closed in any case; only a login error ends the loop |
| `InitialConnection.AuroraInitialConnectionStrategyPlugin.GetVerifiedWriterConnection` | awssql/plugins/aurora_initial_connection_strategy_plugin.go:149-225 | whatever connecting, refreshing, identifying and asking for roles bring: every connection opened is closed except the one returned, which answered that it is a writer; the initial host is set only with it, to a writer |
| `InitialConnection.AuroraInitialConnectionStrategyPlugin.GetVerifiedReaderConnection` | awssql/plugins/aurora_initial_connection_strategy_plugin.go:227-345 | every connection opened is closed except the one returned, which answered that it is a reader, or the topology had no readers |
| `InitialConnection.AuroraInitialConnectionStrategyPlugin.NoReaders` | awssql/plugins/aurora_initial_connection_strategy_plugin.go:391-405 | true exactly for a topology that is not empty and consists of writers |
| `Slices.IndexOf` | awssql/utils/utils.go:204-211 | the position of the first element that compares equal, or -1 when there is none |
| `Slices.RemoveFromSlice` | awssql/utils/utils.go:213-222 | the slice without that element, and everything the array behind it holds afterwards |
| `Slices.RemovedIsLost` | awssql/utils/utils.go:213-222 | another slice over the same array loses the removed element if and only if it was not the last one, and no other element |
| `Slices.RemovalsLoseExactly` | awssql/utils/utils.go:213-222 | after any removals in any order from slices over one array, every element is still in the array if and only if each removal took the last element of its slice or found none |
| `Slices.FirstToLastLoses` | awssql/plugins/failover_plugin.go:478-536 | a round that tries three candidates from the first to the last leaves an array with the last one three times |
| `ReaderRounds.RoundKeepsExactly` | awssql/plugins/failover_plugin.go:478-536 | a round over distinct readers, each rejected when it was still to be tried, leaves all of them to the next round, apart from those that answered that they are writers, if and only if every other rejected one was tried after all those behind it in the list |
| `ReaderRounds.RoundInvariant` | awssql/plugins/failover_plugin.go:478-536 | at every point of such a round the readers still to try are the ones not tried, in order, and of those tried that are no writers the next round has exactly those tried after all behind them |
| `ReaderRounds.RoundIsRemovals` | awssql/plugins/failover_plugin.go:500-531 | a round is a sequence of removals from slices over one array, one for a reader that cannot be reached or does not know its role and two for a writer in strict mode, so that `Slices.RemovalsLoseExactly` applies |
| `ReaderRounds.FirstToLastKeepsOne` | awssql/plugins/failover_plugin.go:478-506 | a round that tries all readers in vain from the first to the last leaves the next round only the last one |
| `Failover.FailoverPlugin.TryReaders` | awssql/plugins/failover_plugin.go:477-536 | a round over the readers dials only candidates, at most as many as there are: the rejected ones in order, each still to be tried then, and one more if it is returned; a rejected one could not be reached or, in strict mode, answered that it is no reader; the connections not returned are closed; the array and the candidates for the next round are what the rejections make of them, to which `ReaderRounds.RoundKeepsExactly` applies |
| `Failover.FailoverPlugin.GetReaderFailoverConnection` | awssql/plugins/failover_plugin.go:472-576 | over all rounds, every connection opened is closed except the one returned, which has the role it reported, reader in strict mode; the search ends with the time |
| `Failover.FailoverPlugin.FailoverWriter` | awssql/plugins/failover_plugin.go:310-389 | at most one host is dialed; a connection is kept only if it leads to the writer of the refreshed topology, answered that it is a writer, and became the current one |
| `GdbFailover.DialedOnce` | awssql/plugins/gdb_failover_plugin.go:404-470 | when a round dials no host and port more often than it is listed, and the listed ones are distinct, each is dialed at most once |
| `GdbFailover.DialAndRemove` | awssql/plugins/gdb_failover_plugin.go:437-466 | dialing a listed member and removing it keeps what was dialed and what is left together equal to what was listed, so the list gets shorter |
| `GdbFailover.GlobalDbFailoverHandler.TryRound` | awssql/plugins/gdb_failover_plugin.go:420-466 | what was dialed in the round and what is left make up the list, every rejected connection is closed, and one returned is to an allowed host with the role the mode insists on |
| `GdbFailover.GlobalDbFailoverHandler.GetAllowedFailoverConnection` | awssql/plugins/gdb_failover_plugin.go:404-470 | over all rounds: everything dialed was dialed in some round, no oftener than listed there; every connection is closed except the one returned, which respects the mode's region filter and role |
| `GdbFailover.GlobalDbFailoverHandler.FailoverToWriter` | awssql/plugins/gdb_failover_plugin.go:330-376 | the writer is dialed, once, exactly when it is among the allowed hosts; a connection is kept only if it answered that it is a writer and became the current one |
| `GdbFailover.GlobalDbFailoverHandler.Failover` | awssql/plugins/gdb_failover_plugin.go:190-328 | what is kept is acceptable for the mode that the region of the refreshed topology's writer calls for; in strict writer mode it is that writer, and nothing else is dialed; without a writer nothing is dialed |
| `ExpirationCache.RunConserves` | awssql/utils/expiration_cache.go:91-236 | in every run, every value ever stored is cached under one key or was disposed of exactly once, and not both |
| `ExpirationCache.CleanupIsInvisible` | awssql/utils/expiration_cache.go:206-223 | in a cache that does not renew, a clean-up anywhere in a run changes no later answer of `Get`, `ComputeIfAbsent` or `Exists` |
| `ExpirationCache.CleanupShowsWhenRenewing` | awssql/utils/expiration_cache.go:113-146 | in a cache that renews on access it can: looking brings an expired entry back to life unless it has been cleaned up |
| `ExpirationCache.ValueLivesItsTime` | awssql/utils/expiration_cache.go:91-146 | in a cache that does not renew, a value put is got back exactly for the time to live, whatever happens to other keys and however often the cache is cleaned up |
| `ExpirationCache.ExpirationCache.Put` | awssql/utils/expiration_cache.go:91-109 | the new state and the answer are those of the specification the theorems are about |
| `ExpirationCache.ExpirationCache.Get` | awssql/utils/expiration_cache.go:113-146 | the same, with renewal |
| `ExpirationCache.ExpirationCache.ComputeIfAbsent` | awssql/utils/expiration_cache.go:148-178 | the same, an expired value being disposed of when it is replaced |
| `ExpirationCache.ExpirationCache.RemoveExpiredEntries` | awssql/utils/expiration_cache.go:206-223 | the loop, in any order, removes and disposes of exactly the entries due for clean-up |
| `PluginChain.ConnectChainIsFold` | awssql/plugin_helpers/plugin_manager.go:55-87 | the connect chain built from the last plugin to the first computes the right fold of the plugins in list order around the target |
| `PluginChain.ExecChainIsFold` | awssql/plugin_helpers/plugin_manager.go:55-66 | the same for the execute chain |
| `PluginChain.TargetIsNeverReached` | awssql/plugins/default_plugin.go:78-96 | with a last plugin that does not call its continuation, the target makes no difference to the fold |
| `PluginChain.ConnectNeverReachesTarget` | awssql/plugin_helpers/plugin_manager.go:278-310 | connecting through plugins whose last one subscribes to everything and does not call on, there is always a chain, whichever other plugin is skipped, and its result does not depend on the target |
| `PluginChain.ConnectEndsAtDefault` | awssql/plugins/default_plugin.go:78-96 | so with the plugins of any list `GetPlugins` returns, which end in the default plugin, a connect never gets to the "should not be called" target |
| `PluginChain.PluginManagerImpl.MakePluginChain` | awssql/plugin_helpers/plugin_manager.go:291-310 | the loop from the last plugin to the first builds the chain of the subscribed plugins in list order, without the one to skip |
| `PluginChain.PluginManagerImpl.ExecuteWithSubscribedPlugins` | awssql/plugin_helpers/plugin_manager.go:268-276 | a cached chain gives what a rebuilt one would, and an error exactly when nobody subscribes |
| `PluginChain.PluginManagerImpl.ConnectWithSubscribedPlugins` | awssql/plugin_helpers/plugin_manager.go:278-289 | the same for connecting; a chain that skips a plugin is not cached |
| `PluginChain.GetPlugins` | awssql/driver/connection_plugin_chain_builder.go:62-125 | the plugins in the order given, or by weight when they are to be sorted, with the default plugin last; an error exactly for an unknown code |
| `PluginChain.RelativeWeightHitsTheNext` | awssql/driver/connection_plugin_chain_builder.go:80-95 | for every list of codes: a plugin gets its own weight, except behind one whose weight is the relative one, where it gets 0; so the relative weight changes the plugin after the one it was meant for |

## Left out

- Topology monitor: `Init` and `Add` of a routine are one step, and so is `reset` once its wait is over; it happens at the
  head of the loop. `Stop` ends a run, with a writer connection that was not taken over left open. Delays, channels, the
  refresh-rate switch and the waiting for topology updates have no effect on the state and are not steps; the lifetime of
  the cached topology is an event that may happen at any time.
- Topology monitor, accesses merged into one step because, `reset` apart, nobody else can be using the fields then or the
  order cannot be told: the five stores that begin a panic round, which happen while there is no routine; the monitor's looks at
  `hostRoutines`, its stores into it and the loads of `writerHostInfo` for a new routine, which only the monitor writes;
  clearing a round once its routines have ended; `stableTopologiesStart` in a check, which only the monitor uses; the loads
  of `hostRoutinesLatestTopology` and then `hostRoutinesStop`, since routines only ever set the latter; and a topology
  query, or the rewriting of availabilities, whose outcome is arbitrary, with the cache update after it.
- Topology monitor: `run` marks the host record as available in place; other holders of the same record see it. In the
  model host records are values.
- Topology monitor: an adopted connection stays verified by one role check; that the server keeps the role is not claimed.
- `MonitorRuns.StableUpdatesAreDue`: says that reports agreed with each other at every check, not that what they agreed on
  stayed the same, because the code does not check that.
- Building host records from rows (`CreateHost`), the multi-availability-zone and global variants of the topology query:
  rows arrive as host records.
- `InternalPool.InternalConnPool.Get`: runs alone except that somebody may close the pool in its windows, because methods
  are sequential; all interleavings are in `ConnPool`. A holder does not call `Close` again after its own `Close` once the
  same object has been issued again.
- `RoundRobinSelector.RoundRobinHostSelector.GetHost`: reads the clock once a call; blanks are ASCII. `GetHosts` is
  no method of the driver: it stands for a caller that calls several times.
- Session state: statements and names are ASCII as far as case and blanks are concerned; the fixed parts of queries are
  given as lists of words; a session field is a value and not an object; the four isolation levels are all there are.
- Session state: custom transfer and reset callbacks, telemetry, and what plugins do when they are told of a new
  connection, except whether the old one is to be preserved.
- `PluginService.PluginServiceImpl.SetCurrentConnection`: after a failed transfer the new connection stays the current one
  and the old one stays open, as in the code.
- `SessionService.TransferPreservesMeaning`: is stated for names that survive, which `SchemaTransfer.SchemaSurvivesExactly`
  and `SessionTransfer.CatalogSurvivesExactly` decide.
- URL-style and MySQL connection strings, and the regular expressions for host names; regions and cluster endpoints are
  functions given from outside.
- `PgxPrinter.PrepareDsn`: the set of wrapper properties that are not printed is a parameter; reading back is stated for
  sets with `protocol` in it, as the driver's is.
- Failover: the host selector returns a member of its list, a failed connect yields no connection, and the clock moves on
  between two looks; delays, availability marks, counters and error messages are left out.
- `GdbFailover.GlobalDbFailoverHandler.Failover`: a connection that was found but could not be made the current one is left
  open outside strict writer mode, as in the code; the outcome says so.
- `Failover.FailoverPlugin.GetReaderFailoverConnection`: does not promise that every reader is tried, because the code loses
  some; what a round does to the candidates is in `Failover.FailoverPlugin.TryReaders`, and when it loses none in
  `ReaderRounds.RoundKeepsExactly`, which is about a round whose candidates are distinct, as those of a topology are. In
  strict mode a writer that is not the last one left when it is tried can make another reader appear twice in the next round.
- Expiring cache: the disposal function is set and does nothing to the cache; the operations run one at a time, so the
  disposals behind the lock are part of their operation.
- Plugin chain: a plugin depends on its continuation only through what that answers; telemetry around the calls; the
  splitting of the plugin list, and factories that fail or make no plugin.
- Not modelled at all: AWS SDK, HTTP, IAM, SAML, Okta and Secrets Manager plugins, blue/green switchover, enhanced failure
  monitoring, limitless and read/write splitting plugins, the opened-connection tracker, telemetry, logging.
