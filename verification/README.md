# Slot ownership, backups and rolls of the Percona operator for Valkey, in Dafny

A model of the parts of the operator in which a wrong step loses data or service, with proofs over
every input, every interleaving or every run:

- the slot-range algebra, the even split and the rebalance and drain planners of `pkg/valkey`;
- the reconcile steps that turn plans into ADDSLOTSRANGE, MIGRATESLOTS, FAILOVER, FORGET and delete
  effects (bootstrap, restore re-form, rebalance, scale-in, recovery, rolling update);
- backup sets: coverage checks, the manifest's slot text, the write-last / delete-first protocol;
- the backup scheduler, its retention rule and the per-cluster Lease.

Slot ownership is a map from slot to node ID over the 16384 slots of the Valkey Cluster
Specification, section "Key distribution model". A scrape is one atomic, truthful snapshot.
Code that updates things step by step is a `method` or a `class` proved against a specification
function. What such a function selects or computes is also stated without it, by members and by counts,
in both directions. The results over runs are lemmas about those functions or about state machines whose
steps they are; for rebalancing, draining and rolling, the code's passes are proved to be such steps.
`dafny verify dfyconfig.toml` checks the project.

| file | content |
|---|---|
| `Sorting`, `SlotRanges`, `EvenSplit` | orders and sorting; ranges as sets of slots; equal shares |
| `ClusterView`, `Replicas`, `Positions` | the assembled scrape; replica selection, failure, quorum; node labels by pod IP |
| `Planner`, `Ownership`, `Rebalance` | one move; the ownership map; whole rebalance runs |
| `Sightings` | what a partial scrape tells about ownership |
| `Engine`, `AsyncMigration` | engine commands; migrations interleaved with reconcile passes |
| `Bootstrap`, `RestoreReform` | slot assignment and restore re-form, interrupted and resumed |
| `ScaleIn`, `ScaleInRuns`, `AsyncDrain` | drain and delete; whole scale-ins, and when a deletion is safe; drains with asynchronous migrations |
| `Recovery`, `ForgetSafety` | takeover of orphaned shards, FORGET of stale nodes, and when it is safe |
| `RollingUpdate`, `RollRuns` | one roll pass and its gate; whole rolling updates |
| `RollSight`, `RollSlots`, `RollGate` | what a pass can know; the slots a roll takes down; the gate that the roll closes on itself |
| `Coverage`, `SlotText`, `BackupStore`, `BackupSets`, `BackupHashes`, `RestoreCompat` | backup and restore |
| `BackupScheduler`, `Retention`, `LeaseLock` | schedules, retention, the backup lock |

Where code and comments disagree, the model follows the code:

- The comment at pkg/valkey/plan.go:53-55 promises every shard within one slot of its target. The
  planner stops as soon as no source or no destination is off by more than one, so this holds for at
  most two shards and for no larger number: `WithinOneIffTwoShards`. The bound that always holds is
  shards - 1, and `BoundAttained` shows it is reached.
- The comment at pkg/controller/perconavalkeycluster/failover.go:38-40 promises that a serving primary
  never goes down with a roll. A node the scrape missed is stamped with no failover, even if it leads
  its shard and serves slots: `BlindRoll` and `ConfigRollFails`, both rolls of the configuration only. In
  every cluster that looks the same to the operator, the node restarted leads no shard if and only if
  the scrape reached it (`SeenIff`, `SightedPassIff`), and serves no slots if and only if the scrape
  reached it or the scraped primaries report every slot (`ServingIff`, `ServingPassIff`). A roll of the
  engine image is gated on the second condition, and keeps the promise in every run: `ImageRollServes`.
- The comment at pkg/controller/perconavalkeycluster/smartupdate.go:201-204 promises that the Degraded gate
  does not deadlock the roll. A failover that is put off or times out in an engine-image roll sets that
  very condition (nodes.go:238-244), and nothing clears it while a node still needs a roll, since such a
  pass ends (controller.go:352-363) before verify.go:68: `SelfDeadlock`, `RollPasses`. Every pass holds,
  whatever it finds, if and only if the cluster is Degraded: `HeldIff`.
- The comment at pkg/controller/perconavalkeycluster/recovery.go:83-85 promises that only IDs without a
  node behind them are FORGOTten. A node that exists but was not scraped counts as gone, and does not
  protect the primary it follows: `ForgetsLiveNode`. Both promises hold in every situation that answers
  the scrape the same way if and only if every node was scraped: `StaleIsGoneIff`, `StrandsNobodyIff`.
- The comment at pkg/controller/perconavalkeycluster/scalein.go:41-42 promises that no slot-owning node is
  deleted. Three kinds of input break it. A primary that was not scraped is neither drained nor spared:
  `DeletesUnreached`. A node of an excess shard whose node label does not parse has no position, so it is
  not drained, but is deleted by its shard label: `DeletesUnlabelled`. A surplus replica is deleted by its
  label, also when a failover has made it the primary: `DeletesPromoted`. For one scrape, the deletion is
  safe in every ownership the scrape is true of if and only if the pod reports no slots or, unscraped, the
  others report them all: `DeletionSafeIff`. For one node list, the scraped pod of the node chosen never
  owns slots if and only if that node is in an excess shard by its label and by the position of its pod
  IP: `GateGuardsIff`.
- The comment at cmd/valkey-backup/backup.go:126 takes a present manifest to mark a complete set. A second
  run overwrites dumps under the first run's manifest: `RerunBreaks`. The dumps have their recorded hashes
  wherever a run stops if and only if the manifest found there is absent or names nothing: `RerunIff`.
- The comment at pkg/controller/perconavalkeybackup/lease.go:168-169 promises that releasing a lease held by
  another actor does nothing. Claims and renewals are version-checked, but the patch that releases is
  not, so a late one frees a lease that somebody else has claimed since, and a third gets it while the
  second is inside its window: `LateRelease`. As far as its sender can tell, a release takes nobody's
  lease away if and only if its own window is still open: `ReleaseSafeIff`; with such releases, and those
  that find what they have read, two are never inside: `MutualExclusion`.

Standing readings: Go's `int` is unbounded here, except where text is parsed to 64 bits; `strings.EqualFold`
folds ASCII; JSON is the identity; SHA-256, the RDB stream, the cron parser and the backup name builder
are parameters; a library sort is a stable one, and where no two elements tie `Sorting.SortedUnique`
says that any sort gives the same list.

## Model

| member | source | states |
|---|---|---|
| `SlotRanges.SlotsToRanges` | pkg/valkey/slots.go:211-228 | any list of slots becomes well-formed ranges denoting exactly those slots with the same count; canonical when the slots are distinct |
| `SlotRanges.CompactExpand` | pkg/valkey/slots.go:211-228 | run-length compression of a slot list is undone by expanding the ranges |
| `SlotRanges.NormalizeSlotRanges` | pkg/valkey/slots.go:183-207 | same slots for every input, malformed ranges included; gaps between all ranges; canonical when the input is well formed |
| `SlotRanges.CanonicalUnique` | pkg/valkey/slots.go:183-207 | two canonical lists denoting the same slots are equal, so normal forms decide set equality |
| `SlotRanges.SubtractOne` | pkg/valkey/slots.go:148-161 | exact set difference with one range; keeps canonical form |
| `SlotRanges.SubtractRanges` | pkg/valkey/slots.go:169-179 | exact set difference for every input, in canonical form when the base is well formed |
| `SlotRanges.TakeSlots` | pkg/valkey/slots.go:232-246 | the first n slots of the flat expansion, all of them if fewer |
| `SlotRanges.RemoveLowestSlots` | pkg/valkey/slots.go:128-143 | what is left expands to the expansion without its first n slots; nothing when n exceeds the count, everything when n is not positive |
| `EvenSplit.TargetSlotsPerShard` | pkg/valkey/slots.go:84-97 | targets sum to 16384, never increase along the list and differ by at most one; empty for n <= 0 |
| `EvenSplit.SplitUnassignedEvenly` | pkg/valkey/slots.go:105-125 | n chunks; for well-formed input exactly the even chunks of the flat slot list |
| `EvenSplit.ChunkExact` | pkg/valkey/slots.go:105-125 | each chunk is canonical, is the slice of the slot list at its offset and has its even size |
| `EvenSplit.EvenSplitPartition` | pkg/valkey/slots.go:105-125 | the chunks read in order list every slot once, ascending; sizes never increase and differ by at most one |
| `EvenSplit.ResidueChunks` | pkg/valkey/slots.go:105-143 | splitting what is left after k chunks among n - k gives exactly chunks k to n - 1 of the original split |
| `EvenSplit.EvenSplitRanges` | pkg/controller/perconavalkeycluster/restore_reform.go:143-159 | range i starts at the i-th even offset and ends before the next; none for n <= 0 |
| `EvenSplit.SplitsAgree` | pkg/controller/perconavalkeycluster/restore_reform.go:143-159 | on the full slot space the three even splits agree: chunk i is the one restore range i, of target size, exactly as long as there are slots to go round |
| `ClusterView.ClusterState.constructor` | pkg/valkey/state.go:233-255 | the flat list, both indexes and the grouping of every scraped node, unreachable ones skipped |
| `ClusterView.ByIDFacts` | pkg/valkey/state.go:233-255 | an ID is indexed exactly when a scraped node has it and it is not empty, and then to the last such node |
| `ClusterView.ByAddrFacts` | pkg/valkey/state.go:233-255 | the same of addresses |
| `ClusterView.ClusterState.GroupShards` | pkg/valkey/state.go:258-272 | the in-place grouping is the fold of the scraped nodes and leaves list and indexes alone |
| `ClusterView.ClusterState.ShardFor` | pkg/valkey/state.go:275-283 | finds the shard or appends exactly one blank shard |
| `ClusterView.GroupEstablishesInv` | pkg/valkey/state.go:258-272 | in a coherent scrape shard IDs are unique, a shard's primary is its slot owner, and every primary is counted once, in a shard or as pending |
| `ClusterView.GroupPlaces` | pkg/valkey/state.go:258-283 | of every scrape, coherent or not: each node waits for slots or is listed in the one shard of its ID, nothing else is listed, and a shard names the last primary it lists |
| `ClusterView.EffectiveShards` | pkg/valkey/topology.go:74-88 | shard primaries and pending primaries, by address |
| `ClusterView.EffectiveArePrimaries` | pkg/valkey/topology.go:74-88 | the effective shards are exactly the scraped primaries by address, slot-owning or not |
| `ClusterView.EffectiveOrderFree` | pkg/valkey/topology.go:74-88 | the same nodes scraped in another order give the same effective shards |
| `ClusterView.ShardsOwnPrimariesSlots` | pkg/valkey/state.go:258-272 | the shards own a slot exactly when some scraped primary does |
| `Planner.PlanRebalanceMove` | pkg/valkey/plan.go:71-113 | computes the specified plan over the effective shards; a move exists exactly when there are as many of them as wanted shards and one is more than one slot over and one more than one slot under its share |
| `Planner.PlanIff` | pkg/valkey/plan.go:75-104 | for every list and wanted number a plan exists exactly when the counts agree and some surplus and some deficit exceed the tolerance |
| `Planner.PlanMeetsSpec` | pkg/valkey/plan.go:71-113 | for every wanted number: a move goes from the first shard over target to the first under it, takes the source's lowest slots, as many as surplus, deficit and 400 allow; no move when the counts differ or one side is within tolerance |
| `Planner.PlanOrderFree` | pkg/valkey/plan.go:75-112 | the plan does not depend on the order in which the nodes were scraped |
| `Planner.PlanDrainMove` | pkg/valkey/plan.go:124-152 | computes the specified drain plan; one exists exactly when source and batch are there, the source owns slots and another primary remains |
| `Planner.DrainPlanIff` | pkg/valkey/plan.go:124-152 | a drain plan exists exactly when source and batch are there, the source owns slots and another primary remains |
| `Planner.DrainPlanMeetsSpec` | pkg/valkey/plan.go:124-152 | the lowest min(owned, batch) slots go to the lowest-addressed other primary; no plan only without slots or without another primary |
| `Planner.GetUnassignedSlots` | pkg/valkey/topology.go:51-68 | exactly the complement, within 0 to 16383, of what the shards own; empty exactly when they own everything; canonical when their ranges are well formed |
| `Ownership.EffectiveScrape` | pkg/valkey/topology.go:74-88 | however ownership changes, planning sees the same primaries in the same order, also when a primary passes from pending to owning |
| `Rebalance.PlanFromScrape` | pkg/valkey/plan.go:71-113 | planning from a scrape of the ownership map is a function of that map |
| `Rebalance.MoveImproves` | pkg/valkey/plan.go:106-112 | an applied plan keeps the 16384 slots partitioned, moves 2 to 400 slots, takes the source not below and the destination not above target, leaves all other slots alone and lowers the imbalance by twice its size |
| `Rebalance.NoPlanIff` | pkg/valkey/plan.go:95-104 | the planner rests exactly when all surpluses or all deficits are at most one |
| `Rebalance.NoPlanBound` | pkg/valkey/plan.go:95-104 | at rest every primary is within shards - 1 of its target |
| `Rebalance.BoundAttained` | pkg/valkey/plan.go:95-104 | for every number of shards up to 16384 some partition rests with a shard exactly shards - 1 above its target |
| `Rebalance.RunSettles` | pkg/valkey/plan.go:71-113 | every run ends: at a partition with no plan, within the bound, after at most a quarter of the imbalance in moves |
| `Rebalance.WithinOneIffTwoShards` | pkg/valkey/plan.go:53-55 | resting within one slot of target is guaranteed if and only if there are at most two shards |
| `AsyncMigration.AnyMigrationInProgress` | pkg/valkey/topology.go:305-312 | true exactly when the source has a migration in a state that is not terminal |
| `AsyncMigration.MigrateSlots` | pkg/controller/perconavalkeycluster/rebalance.go:81-111 | a migration is started only from a scraped, connected source that knows the destination, owns the ranges and has none in flight, and is then the one asked for; what deferring and failing mean; one whose reply is lost counts as failed but runs |
| `AsyncMigration.RebalanceSlots` | pkg/controller/perconavalkeycluster/rebalance.go:42-69 | at most the one planned migration is started, with the outcome the guards determine |
| `AsyncMigration.OneMigrationAtATime` | pkg/controller/perconavalkeycluster/rebalance.go:42-111 | in every interleaving of scrape, check, issue, completion and failure at most one migration is in flight cluster-wide, slots stay partitioned and completed moves are bounded by the imbalance |
| `AsyncMigration.StalePlanIsInert` | pkg/controller/perconavalkeycluster/rebalance.go:81-111 | a plan that is no longer the current one starts nothing, and what starts is the current plan with nothing in flight |
| `AsyncMigration.PassIsSteps` | pkg/controller/perconavalkeycluster/rebalance.go:81-111 | what the guarded command does to the migrations is a run of the interleaved steps, whatever faults strike |
| `AsyncMigration.RebalancePass` | pkg/controller/perconavalkeycluster/rebalance.go:42-111 | a pass of the code over a fresh scrape is a run of those steps |
| `AsyncMigration.RebalanceThrough` | pkg/controller/perconavalkeycluster/rebalance.go:42-111 | the code reconciling any number of times, struck by any faults, with migrations that complete, fail or are cancelled at any time between: at most one in flight, slots partitioned, completed moves bounded by the imbalance removed |
| `Bootstrap.PendingPrimaries` | pkg/controller/perconavalkeycluster/bootstrap.go:326-340 | exactly the pending nodes that are met, or may be isolated, and whose address has a position with node index 0, by address |
| `Bootstrap.EligiblesMembers` | pkg/controller/perconavalkeycluster/bootstrap.go:326-340 | a node is selected exactly when it is met, or may be isolated, and has a position with node index 0 |
| `Bootstrap.AssignSlotsToPendingPrimaries` | pkg/controller/perconavalkeycluster/bootstrap.go:279-320 | hands the even chunks of the unassigned slots to the eligible primaries in order, stops only at a failed command, which may have taken effect, and counts the commands that succeeded; owned slots keep their owner, new owners are connected pending primaries at node index 0; the unassigned list is canonical when the shards' ranges are well formed |
| `Bootstrap.AssignPass` | pkg/controller/perconavalkeycluster/bootstrap.go:279-320 | scrape, assemble and assign is the pass of the resumption results, cut short by nothing but a dropped command or a lost reply; a finished one is the full pass; slots go only to connected primaries at node index 0 |
| `Bootstrap.AssignUntilDone` | pkg/controller/perconavalkeycluster/bootstrap.go:279-320 | any number of passes, each cut short anywhere by a dropped command or by one that took effect without a reply, and an undisturbed one end in the ownership of a single undisturbed pass; every owner added is a connected primary at node index 0 |
| `Bootstrap.AssignAccepted` | pkg/controller/perconavalkeycluster/bootstrap.go:302-315 | no chunk ever contains an owned slot, so the engine refuses none |
| `Bootstrap.ScrapedPending` | pkg/controller/perconavalkeycluster/bootstrap.go:326-340 | what a later pass finds pending is the fixed list of eligible primaries less those that own slots by now |
| `Bootstrap.ScrapedUnassigned` | pkg/valkey/topology.go:51-68 | from a scrape the slots outside every shard are the unowned ones |
| `Bootstrap.UnassignedIsFree` | pkg/valkey/topology.go:51-68 | a canonical list of the unowned slots expands to them in ascending order |
| `Bootstrap.CrashResume` | pkg/controller/perconavalkeycluster/bootstrap.go:292-315 | after any sequence of passes each cut off anywhere, one full pass ends in the ownership map the uninterrupted pass would have given |
| `Bootstrap.FullPassCovers` | pkg/controller/perconavalkeycluster/bootstrap.go:292-315 | a full pass with a candidate leaves no slot unowned and moves none that was owned |
| `RestoreReform.AssignRestoreSlotRanges` | pkg/controller/perconavalkeycluster/restore_reform.go:94-137 | fills each resolved primary's gap in turn, stops only at a failed command, which may have taken effect, and reports whether it filled any; a slot gets an owner only if that primary lacks it of its even share |
| `RestoreReform.ReformFillsOnly` | pkg/controller/perconavalkeycluster/restore_reform.go:94-137 | a pass, cut off anywhere, changes no owner and gives a slot only to a primary that lacks it of its even share |
| `RestoreReform.ReformFillsAll` | pkg/controller/perconavalkeycluster/restore_reform.go:94-137 | a full pass whose gaps are free leaves no primary lacking a slot of its share |
| `RestoreReform.ReformAccepted` | pkg/controller/perconavalkeycluster/restore_reform.go:103-121 | every gap sent holds only unowned slots |
| `RestoreReform.FullReform` | pkg/controller/perconavalkeycluster/restore_reform.go:94-137 | from any in-place start a full pass ends with exactly the even split |
| `RestoreReform.ReformResumes` | pkg/controller/perconavalkeycluster/restore_reform.go:94-137 | after any sequence of cut-off passes, each planned from a fresh scrape, a complete pass ends with the map of the uninterrupted pass, the even split |
| `ScaleIn.DrainingShardPrimaries` | pkg/controller/perconavalkeycluster/scalein.go:167-182 | the slot-owning primaries of excess shards by address |
| `ScaleIn.RemainingPrimaries` | pkg/controller/perconavalkeycluster/scalein.go:191-205 | the primaries not known to sit in an excess shard |
| `ScaleIn.SelectionMembers` | pkg/controller/perconavalkeycluster/scalein.go:167-205 | who is drained and who is a destination, both directions; nobody is both |
| `ScaleIn.ExcessShardNodes` | pkg/controller/perconavalkeycluster/scalein.go:210-227 | exactly the nodes labelled with an excess shard, shard ascending, node index descending |
| `ScaleIn.DrainShard` | pkg/controller/perconavalkeycluster/scalein.go:70-91 | starts exactly the planned drain migration, or waits or fails as the guards say |
| `ScaleIn.DeleteExcessReplicas` | pkg/controller/perconavalkeycluster/scalein.go:129-163 | deletes the first surplus replica by label, whatever it owns; does nothing exactly when no node of a kept shard has an index above the replica count |
| `ScaleIn.DeleteDrainedShardNodes` | pkg/controller/perconavalkeycluster/scalein.go:98-124 | deletes the first excess node, and only when no scraped and resolved primary of an excess shard owns slots |
| `ScaleIn.HandleScaleIn` | pkg/controller/perconavalkeycluster/scalein.go:43-66 | one effect per pass: the deletion of a surplus replica, else a drain of the first draining primary while there is one, else one deletion in an excess shard |
| `ScaleIn.VictimFacts` | pkg/controller/perconavalkeycluster/scalein.go:98-163 | when a pass deletes and whom: a surplus replica of greatest index, else, with nothing to drain, the greatest index of the lowest excess shard |
| `ScaleIn.FirstExcess` | pkg/controller/perconavalkeycluster/scalein.go:210-227 | the node chosen is in the lowest excess shard and has its highest index, so index 0 goes last |
| `ScaleIn.DeletionIsSafe` | pkg/controller/perconavalkeycluster/scalein.go:98-124 | when a pass finds nothing to drain, no scraped and resolved slot owner sits in a shard it may delete from |
| `Positions.PositionsByIP` | pkg/controller/perconavalkeycluster/bootstrap.go:48-63 | the loop computes the specified map |
| `Positions.PositionsFacts` | pkg/controller/perconavalkeycluster/bootstrap.go:48-63 | a pod IP has a position exactly when a listed node with both labels parsed carries it, and then the last such node's |
| `Positions.TrimFacts` | pkg/controller/perconavalkeycluster/bootstrap.go:67-71 | exactly a trailing port 6379 is cut off an address |
| `Positions.HostFacts` | pkg/controller/perconavalkeycluster/bootstrap.go:415-420 | the host is what precedes the last colon, the whole address without one |
| `Sightings.OwnsNothingIff` | pkg/controller/perconavalkeycluster/scalein.go:41-42 | a node owns no slot in any ownership the scrape is true of if and only if, scraped, it reports none and, unscraped, the others report them all |
| `Sightings.NothingUnassignedIff` | pkg/valkey/topology.go:51-68 | no slot is unassigned in the shards exactly when every slot is reported by a scraped primary |
| `ScaleInRuns.DeletionSafeIff` | pkg/controller/perconavalkeycluster/scalein.go:41-42 | the node in the pod a pass deletes owns no slot in any ownership the scrape is true of if and only if the pod, scraped, reports none and, unscraped, the others report them all |
| `ScaleInRuns.GateGuardsIff` | pkg/controller/perconavalkeycluster/scalein.go:98-124 | whatever the pods report, the pod of the node chosen is no scraped slot owner if and only if the node is in an excess shard by its label and by its pod IP's position |
| `ScaleInRuns.DeletesUnreached` | pkg/controller/perconavalkeycluster/scalein.go:98-124 | a pass that deletes an excess primary which owns a slot and was not scraped |
| `ScaleInRuns.DeletesUnlabelled` | pkg/controller/perconavalkeycluster/scalein.go:210-227 | a pass that deletes the scraped owner of every slot because its node label does not parse |
| `ScaleInRuns.DeletesPromoted` | pkg/controller/perconavalkeycluster/scalein.go:129-163 | a pass that deletes the scraped owner of every slot because its label says replica |
| `ScaleInRuns.NextSource` | pkg/controller/perconavalkeycluster/scalein.go:167-182 | while anything is left to drain, the lowest-addressed excess primary that owns slots is next |
| `ScaleInRuns.DrainStep` | pkg/controller/perconavalkeycluster/scalein.go:70-91 | a drain among several excess shards keeps the destination and the final ownership and leaves exactly one move less |
| `ScaleInRuns.RemoveExcess` | pkg/controller/perconavalkeycluster/bootstrap.go:48-63 | deleting a node of an excess shard makes no pod IP one that goes, whichever nodes share it |
| `ScaleInRuns.ScaleInPass` | pkg/controller/perconavalkeycluster/scalein.go:43-66 | an undisturbed pass deletes the node due, else drains one batch while something drains, else does nothing |
| `ScaleInRuns.ScaleInUntilDone` | pkg/controller/perconavalkeycluster/scalein.go:43-124 | reconciling to the end moves every excess shard's slots to the lowest-addressed survivor in exactly the sum of ceil(owned / 400) moves and deletes exactly the surplus replicas and the excess nodes |
| `AsyncDrain.NoPlanIffDrained` | pkg/controller/perconavalkeycluster/scalein.go:43-66 | a drain is planned as long as anything is left to drain |
| `AsyncDrain.DrainsInterleaved` | pkg/controller/perconavalkeycluster/scalein.go:70-91 | in every interleaving of scrape, check, issue, failure, abort and late completion at most one drain is in flight; when a scrape finds nothing to drain, the survivor has exactly the slots of the shards that go, after exactly the moves they need, and nothing is in flight |
| `AsyncDrain.DrainPass` | pkg/controller/perconavalkeycluster/scalein.go:52-91 | a drain pass of the code over a fresh scrape is a run of the interleaved steps |
| `AsyncDrain.DrainThrough` | pkg/controller/perconavalkeycluster/scalein.go:52-91 | the code draining any number of times, struck by any faults, with migrations ending at any time between: at most one in flight, completed moves plus moves left constant, and once nothing drains the survivor has exactly the slots of the shards that go |
| `ScaleIn.DrainMoveProgress` | pkg/controller/perconavalkeycluster/scalein.go:70-91 | a drain move conserves every slot, moves only the source's, shrinks it by min(owned, 400) and leaves the same pair to drain |
| `ScaleIn.DrainCompletes` | pkg/valkey/plan.go:124-152 | draining ends after exactly ceil(owned / 400) moves with everything on the lowest-addressed survivor |
| `Replicas.HighestFacts` | pkg/valkey/topology.go:153-161 | the most caught-up replica, the earliest among equals, none only for an empty list |
| `Replicas.HighestOffsetReplica` | pkg/valkey/topology.go:113-135 | the first of greatest offset among the linked, unflagged replicas of the primary; none exactly when there is no such replica |
| `Replicas.BestReplicaOf` | pkg/valkey/topology.go:140-148 | the first of greatest offset among the replicas of the dead primary, whatever their link; none exactly when it has none |
| `Replicas.NodeFailedIff` | pkg/valkey/topology.go:167-179 | a node is failed exactly when some scraped peer table, or the last scraped node of that ID, flags it fail or fail? |
| `Replicas.LiveCount` | pkg/valkey/topology.go:228-247 | the live primaries counted are the shards whose primary owns slots and is not failed |
| `Replicas.HasFailoverQuorum` | pkg/valkey/topology.go:228-247 | true exactly when the number of shards whose primary owns slots and is not failed is a strict majority of every reported cluster size and one is known |
| `Replicas.FailedPrimaries` | pkg/valkey/topology.go:183-191 | exactly the primaries of shards that some scraped view, or their own flags, call failed |
| `Recovery.StaleNodeIDs` | pkg/valkey/topology.go:272-299 | sorted, without duplicates, exactly the gossiped IDs with nothing behind them and no backed replica following them, for every order of walking the peer tables |
| `Recovery.StaleMeans` | pkg/valkey/topology.go:197-299 | an ID is stale exactly when some peer table has it, nothing backs it and no backed table entry follows it; unfiltered, when none follows it at all |
| `Recovery.StaleListUnique` | pkg/valkey/topology.go:272-299 | that list is determined by the set of scraped nodes |
| `Recovery.BackingNodeIDs` | pkg/controller/perconavalkeycluster/recovery.go:146-163 | the IDs of scraped nodes whose address belongs to an existing node |
| `Recovery.PromoteOrphanedReplicas` | pkg/controller/perconavalkeycluster/recovery.go:42-81 | nothing with persistence or a quorum; else, in order up to the first failure, exactly a takeover by the most caught-up replica of each failed shard primary, where connected |
| `Recovery.PromotionsAre` | pkg/controller/perconavalkeycluster/recovery.go:42-81 | a takeover is due exactly with persistence off, the quorum lost, and for the most caught-up and connected replica of a failed shard primary |
| `Recovery.BroadcastForget` | pkg/controller/perconavalkeycluster/recovery.go:128-140 | FORGET to every connected node other than the target, and to no other, in order up to the first failure |
| `Recovery.BroadcastIs` | pkg/controller/perconavalkeycluster/recovery.go:128-140 | a command is in the broadcast exactly when it is FORGET to a connected node other than the target |
| `Recovery.ForgetStaleNodes` | pkg/controller/perconavalkeycluster/recovery.go:91-123 | the broadcasts of the stale, not suppressed IDs in order up to the first failure |
| `Recovery.ForgetsExact` | pkg/controller/perconavalkeycluster/recovery.go:91-140 | a FORGET is due exactly to a connected other node and for a stale ID that is not a failed node that may return |
| `Recovery.Recover` | pkg/controller/perconavalkeycluster/controller.go:213-228 | a pass issues takeovers or FORGETs, never both, failed commands included; without a fault exactly the takeovers due or, when none is, exactly the FORGETs due: to every other connected node, for every stale ID that is not a failed node that may return |
| `ForgetSafety.StaleIsGoneIff` | pkg/controller/perconavalkeycluster/recovery.go:146-163 | a stale ID is no existing node, in every situation that answers the scrape alike, if and only if every node was scraped |
| `ForgetSafety.StrandsNobodyIff` | pkg/controller/perconavalkeycluster/recovery.go:83-98 | no existing node follows a stale ID, in every situation that answers the scrape alike, if and only if every node was scraped |
| `ForgetSafety.ForgetsLiveNode` | pkg/controller/perconavalkeycluster/recovery.go:91-123 | a pass that FORGETs a healthy unscraped node and the primary it follows |
| `Recovery.ForgetSettles` | pkg/controller/perconavalkeycluster/recovery.go:91-140 | a complete broadcast removes exactly the forgotten IDs from the stale ones, save those in a table it does not reach, and brings up no new one |
| `RollingUpdate.MidRollNode` | pkg/controller/perconavalkeycluster/nodes.go:269-280 | finds a stamped but unsettled node if and only if there is one |
| `RollingUpdate.NextRollCandidate` | pkg/controller/perconavalkeycluster/nodes.go:288-306 | the loop computes the specified candidate |
| `RollingUpdate.CandidateFacts` | pkg/controller/perconavalkeycluster/nodes.go:288-316 | none exactly when no node needs a roll; a live primary only when all that need one are live primaries; first by name in its tier |
| `RollingUpdate.LiveStateSaw` | pkg/controller/perconavalkeycluster/nodes.go:311-325 | what counts as the live state of a node, and as a live primary, by pod IP |
| `RollingUpdate.DecideIs` | pkg/controller/perconavalkeycluster/nodes.go:166-306 | the decision of a pass: hold behind a stamped node that is not back, nothing when all carry the spec, else restart the next node or, if it was seen as a primary, fail over to a good target or wait for one |
| `RollingUpdate.AwaitRoleFlip` | pkg/controller/perconavalkeycluster/failover.go:97-116 | true exactly when some poll before the deadline sees a primary |
| `RollingUpdate.ProactiveFailover` | pkg/controller/perconavalkeycluster/failover.go:50-92 | a failover is asked exactly when the first shard of the ID has a primary whose most caught-up linked and unflagged replica is connected, and of that replica; done only if the command succeeds and the role flips |
| `RollingUpdate.TargetIs` | pkg/controller/perconavalkeycluster/failover.go:50-71 | the target is the connected, most caught-up replica with its link up and no failure flag of the shard's primary, if and only if there is one |
| `Replicas.IsReplicationInSync` | pkg/valkey/topology.go:99-108 | true exactly when every replica of every shard has its link up |
| `RollingUpdate.PendingEngineChange` | pkg/controller/perconavalkeycluster/smartupdate.go:283-296 | true exactly when some node carries a different, non-empty image |
| `RollingUpdate.SmartUpdateAllowed` | pkg/controller/perconavalkeycluster/smartupdate.go:192-225 | exactly without a backup, not Degraded, and with a scrape that shows every slot assigned, no failed primary and all replicas in sync |
| `RollingUpdate.ReconcileSmartUpdate` | pkg/controller/perconavalkeycluster/smartupdate.go:147-180 | holds when the nodes cannot be read; lets every roll without an image change pass; an image change only if the downgrade policy and the health gate allow it, and a refused downgrade sets Degraded |
| `RollingUpdate.RollNextNode` | pkg/controller/perconavalkeycluster/nodes.go:166-264 | stamps at most the decided node; a scraped primary only after its target answered as primary; holds on gates and on a node mid-roll; what becomes of the Degraded condition |
| `RollingUpdate.PassMeans` | pkg/controller/perconavalkeycluster/nodes.go:166-264 | a pass holds when gated and else carries out that decision; when it leaves the cluster Degraded |
| `RollingUpdate.StampInIs` | pkg/controller/perconavalkeycluster/nodes.go:226-264 | a stamp gives the named node the wanted spec and a new generation and leaves all others alone |
| `RollGate.HeldIff` | pkg/controller/perconavalkeycluster/smartupdate.go:201-207 | a pending engine change is held in every pass whatever it finds if and only if the cluster is Degraded |
| `RollGate.RollPasses` | pkg/controller/perconavalkeycluster/nodes.go:226-248 | once Degraded, any number of passes of an engine-image roll, whatever they find, change nothing |
| `RollGate.SelfDeadlock` | pkg/controller/perconavalkeycluster/nodes.go:238-244 | a healthy engine-image roll puts off a failover because the scrape missed the replica, and never goes on |
| `RollRuns.StepKeepsInv` | pkg/controller/perconavalkeycluster/nodes.go:166-306 | every step, late role flips included, keeps: one node unsettled at most, none that needs a roll, only rolled and settled nodes can become primary |
| `RollRuns.EachNodeOnce` | pkg/controller/perconavalkeycluster/nodes.go:166-264 | over every run: one node at a time, no node stamped twice, stamps made plus rolls left is constant |
| `RollRuns.StepProgress` | pkg/controller/perconavalkeycluster/nodes.go:226-264 | a stamp removes exactly its node from those needing a roll, every other step none |
| `RollRuns.PassIsSteps` | pkg/controller/perconavalkeycluster/nodes.go:166-264 | a pass of the code from a reachable state is a path of the run steps that ends idle with the nodes the pass leaves |
| `RollRuns.PrimariesLast` | pkg/controller/perconavalkeycluster/nodes.go:282-306 | under a complete scrape a live primary's turn comes only when every node needing a roll leads its shard |
| `RollRuns.SteadyIff` | pkg/controller/perconavalkeycluster/nodes.go:226-264 | over every run all shards keep a primary that is not being restarted if and only if no pass stamps an unscraped node that leads its shard |
| `RollRuns.SightedIsServed` | pkg/controller/perconavalkeycluster/nodes.go:226-264 | a run that stamps only scraped nodes never restarts a shard's primary |
| `RollSight.SeenIff` | pkg/controller/perconavalkeycluster/nodes.go:308-325 | the node about to be restarted leads no shard in any cluster showing the same objects and scrape if and only if the scrape reached it |
| `RollSight.SightedPassIff` | pkg/controller/perconavalkeycluster/nodes.go:226-264 | a restart keeps every shard served in all runs that show it the same objects and scrape if and only if the scrape reached the node |
| `RollSlots.ServingIff` | pkg/controller/perconavalkeycluster/failover.go:38-40 | the node about to be restarted serves no slot in any cluster and ownership showing the same objects and scrape if and only if the scrape reached it or the scraped primaries report every slot |
| `RollSlots.ServingPassIff` | pkg/controller/perconavalkeycluster/nodes.go:226-264 | over runs: a restart takes no serving node down, in all runs and ownerships showing it the same, if and only if the scrape reached the node or the scraped primaries report every slot |
| `RollSlots.StepKeepsServed` | pkg/controller/perconavalkeycluster/nodes.go:166-264 | every step, failovers that pass the slots on included, keeps: slots belong to leaders that are not being restarted, given that a pass that acts saw every slot assigned |
| `RollSlots.ImageRollServes` | pkg/controller/perconavalkeycluster/smartupdate.go:192-225 | in every run of an engine-image roll, however partial its scrapes, no node that serves slots is ever restarted |
| `RollSlots.ConfigRollFails` | pkg/controller/perconavalkeycluster/smartupdate.go:158-162 | a run of a configuration roll, which has no gate, that restarts a serving primary |
| `RollRuns.AlwaysServed` | pkg/controller/perconavalkeycluster/failover.go:38-48 | with every node scraped in every pass no shard's primary is ever restarted |
| `RollSight.BlindRoll` | pkg/controller/perconavalkeycluster/nodes.go:308-325 | a run, of a configuration roll, in which the dial to a leader fails and it is stamped without failover although a synced replica stands by |
| `Coverage.AssertCoverage` | cmd/valkey-backup/backup.go:180-209 | complete exactly when all ranges are well formed and every slot is covered exactly once and nothing else is |
| `Coverage.ValidateManifestCoverage` | pkg/controller/perconavalkeyrestore/slots.go:93-123 | an error exactly for an out-of-bounds range; else complete on exactly the same inputs, overlap and covered count exact, whatever the grouping |
| `Coverage.CoverPermutes` | pkg/controller/perconavalkeyrestore/slots.go:93-123 | exact coverage does not depend on the order of the ranges |
| `SlotText.FormatSlotRanges` | pkg/valkey/slots.go:50-69 | the text of in-bounds ranges parses back to them |
| `SlotText.ParseManifestSlotRanges` | pkg/controller/perconavalkeyrestore/slots.go:32-72 | accepts exactly the texts that are, but for spaces, comma-separated numbers and ranges in bounds, empty tokens allowed, and yields them in order |
| `SlotText.ManifestTextIs` | pkg/controller/perconavalkeyrestore/slots.go:32-52 | which texts parse, to which ranges, said without the parser |
| `SlotText.RangeTextIs` | pkg/controller/perconavalkeyrestore/slots.go:55-72 | a token is a number or two numbers around its first dash, spaces around each, in bounds and in order |
| `SlotText.SlotRangeTextIs` | pkg/valkey/slots.go:269-290 | the same of the engine's form: two numbers around the first dash, no spaces, or one number |
| `SlotText.FormatParses` | pkg/controller/perconavalkeyrestore/slots.go:32-72 | parsing inverts formatting on every list of in-bounds ranges, the empty list included |
| `SlotText.ParseShow` | pkg/valkey/slots.go:269-290 | one range printed parses back under the engine's parser for all 64-bit bounds, under the manifest's parser exactly when in bounds |
| `BackupStore.UnderOnlyOwnSet` | pkg/backup/fake.go:117-128 | boundary-matched listing of a set reaches a key if and only if it is of that set |
| `BackupStore.SetKeyUnique` | pkg/backup/keys.go:48-58 | a key in a set determines cluster, backup and the rest |
| `BackupStore.ManifestIsNoRDB` | pkg/backup/keys.go:56-78 | no manifest key is a dump key, across sets |
| `BackupStore.RDBKeysDistinct` | pkg/backup/keys.go:69-83 | shards of a set have distinct dump keys |
| `BackupStore.FakeStore.PutObject` | pkg/backup/fake.go:85-100 | stores and logs, or fails and changes nothing |
| `BackupStore.FakeStore.DeleteObject` | pkg/backup/fake.go:132-138 | removes and logs, also an absent key, or fails and changes nothing |
| `BackupStore.FakeStore.List` | pkg/backup/fake.go:117-128 | sorted, distinct, exactly the stored keys that are the prefix or below it as a directory |
| `BackupStore.ListedIs` | pkg/backup/fake.go:117-128 | a key is listed exactly when it is the prefix or below it as a directory |
| `BackupSets.SnapshotShard` | cmd/valkey-backup/backup.go:137-164 | one dump and its fragment with the hash of the stored bytes, or nothing |
| `BackupSets.RunBackup` | cmd/valkey-backup/backup.go:82-131 | the mutations are the dumps in shard order and then at most one manifest; success exactly when it was written |
| `BackupSets.SnapshotsAre` | cmd/valkey-backup/backup.go:82-120 | strict runs fail exactly when a shard cannot be taken; else every shard that can be taken has its dump and a fragment with its slots, size and hash, and there are no other fragments |
| `BackupSets.ManifestIs` | cmd/valkey-backup/backup.go:82-131 | a manifest is written exactly when best effort is asked for or all shards were taken and cover every slot once; what it says, fragments in index order |
| `BackupSets.RunCleanup` | cmd/valkey-backup/cleanup.go:46-79 | the manifest goes first and only the set's own objects go; succeeds exactly when nothing of the set resists, and then removes exactly the set |
| `BackupSets.HistoriesAreSound` | cmd/valkey-backup/backup.go:102-130 | after any sequence of backups and cleanups, each cut off after any store operation, a present manifest's dumps are all present |
| `BackupSets.BackupKeepsSound` | cmd/valkey-backup/backup.go:82-131 | every prefix of a backup's mutations keeps that |
| `BackupSets.CleanupKeepsSound` | cmd/valkey-backup/cleanup.go:46-79 | so does every cut-off cleanup |
| `BackupSets.RunDownload` | cmd/valkey-backup/download.go:47-91 | succeeds exactly with a manifest, a dump and, in the first fragment of that index, no hash or that of the dump; the destination has the dump's bytes whether or not the hash matches |
| `BackupHashes.FreshHistoriesAreWhole` | cmd/valkey-backup/backup.go:102-130 | after any cut-off runs in which each backup found its manifest absent or naming nothing, a present manifest's dumps have their recorded hashes |
| `BackupHashes.RerunBreaks` | cmd/valkey-backup/backup.go:102-130 | one dump of a second run over a manifest's set, then a crash, leaves other bytes under the recorded hash |
| `BackupHashes.RerunIff` | cmd/valkey-backup/backup.go:126 | backups of a set can break no recorded hash, wherever they stop, if and only if its manifest is absent or names nothing |
| `BackupSets.BackupThenDownload` | cmd/valkey-backup/download.go:47-82 | after a successful backup every shard in the manifest downloads as the bytes that were streamed |
| `RestoreCompat.ValidateCompat` | pkg/controller/perconavalkeyrestore/validate.go:45-105 | accepts exactly: some fragment, the ranges of every fragment parse, complete coverage not marked partial or partial allowed, template count equal; the verdict is exact |
| `RestoreCompat.ParseShardsAre` | pkg/controller/perconavalkeyrestore/validate.go:45-80 | the fragments parse exactly when each one's text does, each to its own ranges |
| `RestoreCompat.StrictBackupRestores` | pkg/controller/perconavalkeyrestore/validate.go:45-80 | the manifest of a strict backup is accepted without the partial opt-in exactly when no template contradicts it, and its text parses to an exact cover |
| `BackupScheduler.MostRecentElapsedSlot` | pkg/controller/perconavalkeybackup/schedule.go:238-253 | terminates with the latest slot after the anchor and not after now, or none if there is none |
| `BackupScheduler.Scheduler.Sync` | pkg/controller/perconavalkeybackup/schedule.go:117-160 | the registry after upserts in order, with the partial effect of a bad cron text; other clusters untouched |
| `BackupScheduler.SyncMeans` | pkg/controller/perconavalkeybackup/schedule.go:117-160 | succeeds exactly when every text parses; then exactly the listed schedules are registered, each with its last listed text, kept ones with their anchor and new ones from now; what a failed call keeps |
| `BackupScheduler.Scheduler.Tick` | pkg/controller/perconavalkeybackup/schedule.go:169-222 | in name order up to the first API fault, each schedule with an elapsed slot is acted on at its latest one: it gets exactly one fresh backup unless a run is active or that backup exists, and nothing else changes; counts the backups created; other clusters untouched |
| `BackupScheduler.TickMeans` | pkg/controller/perconavalkeybackup/schedule.go:169-222 | what is due is exactly what is registered and has an elapsed slot, at the latest; after any number of them exactly the missing backups exist and exactly their anchors moved |
| `BackupScheduler.FireSchedule` | pkg/controller/perconavalkeybackup/schedule.go:272-322 | creates one backup unless a run is active or the slot's backup exists |
| `BackupScheduler.FireAllIs` | pkg/controller/perconavalkeybackup/schedule.go:272-322 | firing a list of due schedules creates exactly one fresh backup for each that is wanted, idle and has none of that name, keeps all others and moves exactly their anchors |
| `BackupScheduler.DuesFacts` | pkg/controller/perconavalkeybackup/schedule.go:169-253 | what a pass acts on: each schedule at most once, at its latest slot up to now |
| `BackupScheduler.DuesAre` | pkg/controller/perconavalkeybackup/schedule.go:169-253 | a schedule is due at a slot exactly when that is its latest elapsed one |
| `BackupScheduler.OneBackupPerSchedule` | pkg/controller/perconavalkeybackup/schedule.go:169-222 | a pass creates at most one backup of a schedule |
| `BackupScheduler.SyncKeepsInv` | pkg/controller/perconavalkeybackup/schedule.go:117-160 | editing, removing and re-adding schedules moves no anchor behind what was acted on |
| `BackupScheduler.TickSysIsFireAll` | pkg/controller/perconavalkeybackup/schedule.go:169-222 | a history's pass leaves what `Tick` leaves |
| `BackupScheduler.ForwardOnlyNoOverlap` | pkg/controller/perconavalkeybackup/schedule.go:117-322 | in every history, with cron edits, failed syncs, removal and re-adding, slots acted on for a schedule strictly increase and no schedule has two active backups |
| `Retention.SelectSurplus` | pkg/controller/perconavalkeybackup/retention.go:96-140 | the surplus is a tail of the newest-first ranking of live Succeeded backups; with only an age limit exactly those older than it; with distinct names exactly those with as many newer ones as are kept or past the age; max(0, m - keep) of them when only keep applies, none without a limit |
| `Retention.SurplusIs` | pkg/controller/perconavalkeybackup/retention.go:96-140 | with distinct names a backup is surplus exactly when it is finished and has as many newer finished ones as are kept, or is past its age |
| `Retention.SelectionOrderFree` | pkg/controller/perconavalkeybackup/retention.go:96-130 | independent of the order of the list when names are distinct |
| `Retention.SettledAfterOnePass` | pkg/controller/perconavalkeybackup/retention.go:96-130 | run again on the survivors it deletes nothing |
| `LeaseLock.AcquireClusterLease` | pkg/controller/perconavalkeybackup/lease.go:76-143 | undisturbed it succeeds exactly on a lease that is absent, unheld, its own or expired, writes holder, 30 seconds, renewal time and the time first acquired, and opens a full window; else nothing changes |
| `LeaseLock.RenewClusterLease` | pkg/controller/perconavalkeybackup/lease.go:148-164 | only the recorded holder renews; the whole object it writes |
| `LeaseLock.ReleaseClusterLease` | pkg/controller/perconavalkeybackup/lease.go:170-195 | undisturbed, only the recorded holder releases, and then the lease is free |
| `LeaseLock.StepKeepsInv` | pkg/controller/perconavalkeybackup/lease.go:76-195 | every step of claims, renewals and timely releases keeps: a backup inside its window is the recorded holder |
| `LeaseLock.MutualExclusion` | pkg/controller/perconavalkeybackup/lease.go:76-218 | in every interleaving of clock reads, reads, version-checked writes and timely release patches two backups are never both inside their window |
| `LeaseLock.TakeoverOnlyWhenFree` | pkg/controller/perconavalkeybackup/lease.go:76-143 | every successful claim overwrites a lease that at that moment was absent, free, expired or the claimer's own |
| `LeaseLock.ReleaseSafeIff` | pkg/controller/perconavalkeybackup/lease.go:170-195 | about to patch, a releaser can be sure that nobody else is inside a window if and only if its own is still open |
| `LeaseLock.LateRelease` | pkg/controller/perconavalkeybackup/lease.go:184-193 | a run in which a release after the window lets two backups in |

## Left out

- SplitUnassignedEvenly: takes n >= 0, since a negative length makes Go panic; for malformed ranges only the number of chunks is stated.
- AssignRestoreSlotRanges: takes at most 16384 shards and no negative shard label.
- ForwardOnlyNoOverlap: sequential Sync and Tick calls for one cluster; overlapping calls are not modelled.
- RollRuns, RollSight, RollSlots: one desired spec per run; nodes keep their engine identity over restarts and become unready only by being stamped; roles change only through failovers the roll issued. A change of spec in mid-roll is not modelled.
- Cron parsing, and schedules without a future slot: a parsed cron is any function giving the least slot after a time.
- DeletionIsSafe: takes the owner as scraped and resolved; the exact conditions are `DeletionSafeIff` and `GateGuardsIff`.
- ScaleInUntilDone: undisturbed passes over a fixed set of engine nodes, with no pod IP listed both for a surplus replica and in an excess shard; each migration completes before the next scrape. Faulty passes are in `HandleScaleIn`, asynchronous migrations in `AsyncDrain`.
- RollNextNode: status writes succeed; the downgrade verdict and the backup lease are answers from outside.
- A backup and a cleanup of the same set at the same time.
- The S3, GCS and Azure stores; they list by bare prefix, so the listing results here do not carry over to them.
- Parsing of CLUSTER NODES, CLUSTER INFO and INFO replication, and the scrape as several round trips.
- MEET, REPLICATE and gossip repair before slots are assigned.
- Node creation, engine version comparison, the config hash and TLS hash.
- Kubernetes plumbing, status, events, metrics, ACL and configuration rendering, version service and charts.
- Overflow of 64-bit integers in slot arithmetic.
