# Tensor Cache: a verified model

This project models the core of Tensor Cache in Dafny and proves its central promise: the deduplicated, tiered,
crash-prone and distributed cache behaves like a plain write-once map from an address to a compatibility key and
bytes. `dafny verify dfyconfig.toml` checks everything.

The parts, and how they lean on each other:

* **Runtime** (`CacheSpec`, `CacheInvariant`, `CacheSteps`, `CacheKept`, `CacheOperations`, `CacheRuns`,
  `CacheEffects`, `CacheOutcomes`, `CacheEviction`, `CacheRanking`, `CacheTheorems`, `TensorCache`).
  `CacheSpec` gives each operation as a function from a state to its effect: new state, file-system steps in order,
  result. `TensorCache` is the object whose methods, loop by loop, are proved to have those effects. `CacheInvariant`
  relates the state to the write-once map.
* **Crashes** (`DiskSafety`, `CacheRecovery`, `CacheCrashes`, `CacheManifests`, `CacheStaleness`,
  `CacheSurvival`). Files are a map; every create, fill, remove and rename is a step; a run may stop after any step of
  any operation and be reopened over what is left, with temporary files in any condition.
* **Accounting** (`Accounting`, `Arena`, `CacheLoads`, `CacheAccounting`, `CacheExactness`, `CacheDurability`). Exact
  reference counts, exact storage and device bytes, and the exact conditions under which the host account agrees with
  the arena and durable entries are on disk.
* **Runs that go wrong** (`CacheDrift`, `CacheMiscounts`, `CacheLostDurable`, `CacheLostLayout`, `CacheRevived`, built
  from `CacheWitnesses`). Concrete runs at which a promise of the code fails, each next to the exact condition.
* **Ownership** (`Coordinator`, `CoordinatorReplies`, `CoordinatorRuns`, `Cluster`, `ClusterProgress`,
  `ClusterMigrations`, `NodeStore`). The coordinator object, its replies and its snapshot; runs of arbitrary
  messages and restarts; and nodes and coordinator together as a transition system in which every exchange is a step
  and all steps interleave. A node's cache appears there as the write-once map it was shown to be, which `NodeStore`
  connects to the runtime.
* **Codecs** (`Wire`, `Utf8`, `Compat`, `Manifest`, `Messages`, `Frames`, `Layouts`). One generic parser/printer pair, proved
  inverse for every list of fields, and instantiated for keys, addresses, manifests, messages; the bytes of each record
  written out; framing over a fragmented stream.
* **Kernels** (`Storage`, `Crc32c`, `Sha256`, `Geometry`, `Eviction`, `Planner`, `Integrity`).

Conventions. Digest and checksum are parameters (`Prelude.Content`): the runtime results hold for every pair of
functions, and a digest is assumed collision-free only on the blocks and encodings named in a lemma. Machine integers
are explicit; where the code adds without overflow checks (release builds wrap) so does the model. Clock readings,
boot identities, directory order, hash-map order and the fragmentation of streams are inputs or free choices.

Where the code does less than it seems to promise, the code was kept and the exact condition proved:

* A block list whose ends wrap around a machine word is accepted without being a cover (`WrappedListIsAccepted`); acceptance
  means exact cover when no end wraps (`AcceptanceIsExactCover`), and likewise for manifests (`AcceptedBlocksPartitionIff`).
* Writing a file is atomic only if it is not there yet (`WriteIsAtomicIff`): an existing file is removed before its
  successor is renamed into place.
* A persisted object whose strided layout does not suit its shape is lost at the next start: registration and
  persisting never validate the layout, decoding the manifest does (`UnsuitableLayoutIsLost`,
  `ReopeningAdmitsPersisted`).
* An interrupted deletion can leave a manifest behind, and a later start can then put the old object in the place of a
  newer one (`StaleManifestRevives`); `RegisteredValueIsStable` says exactly when, and `ManifestGoesStaleIff` and
  `StaleAfterCrashIff` say exactly which crashes leave such a manifest.
* Host accounting drifts from the arena when a payload repeats a new block, or when making room frees a block the
  payload shares (`OvercountIsReachable`, `UndercountIsReachable`); the exact conditions are
  `RegistrationExactIffNoNewRepeat`, `RegistrationExactIffNothingLost` and `HostCopyExactIffNoNewRepeat`.
* A failing deletion can leave a durable entry off disk (`DurableOffDiskIsReachable`); `DeleteKeepsDurableIff` is the
  exact condition, and a covering account rules it out.
* `Budget::reserve` overshoots a capacity of `u64::MAX` (`ReserveKeepsSoundIff`).
* `enforce_capacity` never has anything to do (`EnforceCapacityIsIdle`).
* A fence of `u64::MAX` wraps to zero at the next commit (`CommitRaisesFenceIff`), so the results over coordinator runs
  are for runs of fewer than 2^64 - 1 events.
* A migration asked of a node with a stray copy can replace the authoritative bytes (`StrayCopyTakesOver`);
  `MigrationSafeIff` is the exact condition.

## Model

| member | source | states |
|---|---|---|
| `CacheTheorems.CacheIsWriteOnceMap` | crates/tensorcache/src/runtime.rs:217-495 | After any run of operations, crashes and reopenings, the cache holds exactly the identities of the write-once map; materialization from the preferred placement and from every tier that holds a copy yields the registered bytes; verification reports no disagreement. For every hash function without a collision among the run's blocks and encodings. |
| `CacheTheorems.RestoreReturnsRegistered` | crates/tensorcache/src/runtime.rs:363-375 | In every reachable state, a restore that succeeds returns bytes that were registered under that identity. |
| `CacheTheorems.RegisteredValueIsStable` | crates/tensorcache/src/runtime.rs:217-615 | Over every event, an identity present before and after keeps its object if and only if the event is a completed operation, or a crash that found no stale manifest of that identity, or a crash after the interrupted operation had put the new manifest in place. |
| `CacheTheorems.ReopeningAdmitsOnlyRegistered` | crates/tensorcache/src/persistence.rs:103-244 | A crash after any number of the file-system steps of any operation: everything the reopened cache admits materializes to an object once registered under that identity; and it is the object registered there now if and only if no stale manifest of it was left or the interrupted operation had put the new manifest in place. |
| `CacheTheorems.ReopenedCache` | crates/tensorcache/src/runtime.rs:562-615 | After a crash at any point the reopened cache has nothing in memory or on devices, the budgets and devices it was opened with, and the files left but for temporary ones; every entry is in storage only, durable, not yet used, and otherwise as registered. |
| `CacheTheorems.DeletedStaysDeleted` | crates/tensorcache/src/runtime.rs:446-460 | Once a deletion has returned, no reopening at any later crash point admits the identity until it is persisted again. |
| `CacheTheorems.ManifestGoesStaleIff` | crates/tensorcache/src/runtime.rs:446-460 | While every crash has left only manifests that were admitted, no manifest is stale; the next event leaves a stale manifest of an object if and only if it is a crash that leaves a manifest of it, and its layout does not suit its shape or the crash fell into its own deletion after one of its block files was removed. |
| `CacheTheorems.StaleAfterCrashIff` | crates/tensorcache/src/runtime.rs:562-615 | In every reachable world, stale manifests or not: a crash leaves a stale manifest if and only if it leaves the manifest of an object whose layout does not suit its shape or one of whose block files is missing at the crash point. |
| `CacheStaleness.AdmittedIsCurrentIff` | crates/tensorcache/src/persistence.rs:136-158 | The object admitted under an identity is the one registered there, if and only if no stale manifest was left or its manifest was written before the crash. |
| `CacheStaleness.GoesStaleIff` | crates/tensorcache/src/runtime.rs:807-829 | The same equivalence as `ManifestGoesStaleIff`, for one crash from any world whose manifests all belong to entries on disk. |
| `CacheStaleness.DeletionOnlyRemoves` | crates/tensorcache/src/runtime.rs:812-829 | A deletion takes no file-system step but removing files. |
| `CacheRevived.StaleManifestRevives` | crates/tensorcache/src/runtime.rs:562-829 | A run from an empty directory at a one-byte row-major key: the deletion of X is cut after its block file is gone, Y is registered under the same identity, another object brings the shared block back to disk, and the next reopening yields the bytes of X in the place of Y, which nothing deleted. |
| `CacheManifests.StepWrites` | crates/tensorcache/src/runtime.rs:735-788 | Only an operation that persists an object writes its manifest, and it does so with its last file-system step. |
| `CacheManifests.WhatLeavesStale` | crates/tensorcache/src/persistence.rs:136-169 | A crash leaves a manifest that is not admitted only if its object's layout does not suit its shape or the crash fell into that object's deletion. |
| `CacheTheorems.ReopeningAdmitsPersisted` | crates/tensorcache/src/runtime.rs:562-615 | An object with a storage placement, not being deleted, is admitted after a crash at any point with the same bytes, even while an object sharing its blocks is being deleted, if and only if its layout suits its shape (registration and persisting never check the layout, reading a manifest does). |
| `CacheTheorems.PersistedStaysPersisted` | crates/tensorcache/src/runtime.rs:413-424 | Once a persist has returned, after every further run that never begins to delete the object it is registered unchanged, on disk, and materializes to its registered bytes: over runs with crashes at any point when its layout suits its shape, and over runs without crashes in any case. |
| `CacheSurvival.StepSpares` | crates/tensorcache/src/runtime.rs:217-460 | No operation but its own deletion, successful or failed, takes the storage placement of an object away: not the evictions that make room, not a demotion, not the deletion of another object. |
| `CacheSurvival.RunSpares` | crates/tensorcache/src/runtime.rs:562-615 | The same over whole runs with crashes, with the registered object unchanged. |
| `CacheLostLayout.UnsuitableLayoutIsLost` | crates/tensorcache/src/runtime.rs:217-424 | A run: one element of one byte with a stride of zero is registered and persisted successfully, and a restart that interrupts nothing loses it. |
| `CacheTheorems.LookupIsExact` | crates/tensorcache/src/runtime.rs:311-345 | A lookup hits if and only if the object registered under the identity of the address has the same namespace, key, generation and every compatibility field; a hit returns that identity, counts one more use at that moment and changes nothing else; a miss changes nothing and tells an unknown address from an incompatible key. |
| `CacheTheorems.DurableAccountingIsExact` | crates/tensorcache/src/runtime.rs:725-829 | In every reachable state storage references count the occurrences in persistently placed block lists, storage bytes are the sizes of the distinct referenced files, device bytes those of device placements; with no entry left all of these are zero; and durable entries are on disk unless some completed deletion met the guard of `DeleteKeepsDurableIff`. |
| `CacheTheorems.HostAccountingIsExact` | crates/tensorcache/src/runtime.rs:262-285 | Over runs in which room-making frees no block of the incoming payload: references are exact, arena bytes <= used <= capacity, nothing stays reserved, durable entries are on disk, evictions and deletions of existing entries succeed; if also no payload repeats a block, used equals the arena's bytes; an empty cache has an empty arena. |
| `CacheTheorems.InputsSuffice` | crates/tensorcache/src/runtime.rs:226-236 | Whatever passes the checks of a registration is an object for which all the other results hold; nothing more is asked of callers than what the argument types guarantee. |
| `CacheTheorems.StandardWiring` | crates/tensorcache/src/runtime.rs:141-186 | A configuration with the canonical encodings exists for every digest, checksum and setting, so the theorems speak of real caches. |
| `DiskSafety.SoundAtEveryCrashPoint` | crates/tensorcache/src/persistence.rs:225-244 | Every prefix of a safe list of file-system steps leaves only whole block files under their own digest and whole manifests of registered objects. |
| `DiskSafety.AtomicWriteSafe` | crates/tensorcache/src/persistence.rs:225-244 | Writing a file atomically is safe at each of its steps, leaves exactly the new content, and removes no other file. |
| `DiskSafety.WriteIsAtomicIff` | crates/tensorcache/src/persistence.rs:225-244 | At every crash point of a write the file has its old or its new content, if and only if it was not there before: an existing file is removed before the new one is renamed into place. |
| `DiskSafety.PutOneOutcome` | crates/tensorcache/src/persistence.rs:100-118 | Over any disk: a block is refused if and only if it is not referenced yet and its file holds other bytes; otherwise it gains one reference and, if new, is in its file afterwards; a file that is there is not written again and no other file changes. |
| `CacheRecovery.OpenAdmits` | crates/tensorcache/src/persistence.rs:176-214 | Opening over any crash image, whatever temporary files it holds and in whatever order the directory lists manifests, admits exactly the readable manifests whose blocks all exist, and re-establishes the invariant with exact storage counts. |
| `CacheCrashes.RunKeeps` | crates/tensorcache/src/runtime.rs:562-615 | The invariant holds after every run of operations and crashes; every object in the map or in a manifest was once registered. |
| `CacheCrashes.PersistedSurvives` | crates/tensorcache/src/runtime.rs:735-788 | At every crash point of every operation, an entry with a storage placement that is not being deleted keeps its manifest and all its block files. |
| `CacheCrashes.AdmittedRestores` | crates/tensorcache/src/runtime.rs:562-615 | What is admitted after a crash has a placement and materializes. |
| `CacheRuns.StepRefines` | crates/tensorcache/src/runtime.rs:217-460 | Each operation, successful or failed, refines its step on the write-once map, keeps the whole invariant and passes only through safe disk states; a restore returns the map's value; a successful registration was of a new identity. |
| `CacheRuns.KeptRegister` | crates/tensorcache/src/runtime.rs:217-308 | Registration keeps the invariant on every path (rejected before or after eviction, or stored). |
| `CacheRuns.KeptDemote` | crates/tensorcache/src/runtime.rs:395-410 | A demotion never loses an object: an entry with a copy still has one afterwards, also when the demotion fails. |
| `CacheRuns.KeptPersist` | crates/tensorcache/src/runtime.rs:413-424 | After a persist that succeeds the entry is durable and on disk. |
| `CacheRuns.KeptDelete` | crates/tensorcache/src/runtime.rs:446-460 | Deletion keeps the invariant also when it stops half-way; no file another persisted object needs is removed. |
| `CacheInvariant.EveryPlacementYieldsPayload` | crates/tensorcache/src/runtime.rs:647-673 | Each tier that holds an entry yields its registered bytes. |
| `CacheInvariant.MaterializeYieldsPayload` | crates/tensorcache/src/runtime.rs:620-644 | The preferred placement yields the registered bytes; without a placement there is nothing to yield. |
| `CacheInvariant.VerifySucceeds` | crates/tensorcache/src/runtime.rs:463-495 | Verification succeeds whenever there is a copy to check. |
| `CacheInvariant.VerifyAcceptsIff` | crates/tensorcache/src/runtime.rs:463-495 | In any state, damaged or not: verification succeeds if and only if the preferred copy can be read, has the length of the entry, and every tier that holds the object yields the same bytes. |
| `CacheInvariant.DamagedStorageIsNeverServed` | crates/tensorcache/src/persistence.rs:120-134 | Whatever happened to the files, reading an object from storage gives its registered bytes or an error. |
| `CacheInvariant.MaterializedLength` | crates/tensorcache/src/runtime.rs:620-673 | In any state, what a tier yields has the length of the entry. |
| `CacheOperations.EnforceCapacityIsIdle` | crates/tensorcache/src/runtime.rs:885-923 | The capacity pass that ends registrations and restores never evicts anything in a valid state. |
| `CacheOperations.KeptRemovePlacement` | crates/tensorcache/src/runtime.rs:793-837 | Removing a placement keeps the invariant whatever its outcome; only a storage placement touches files. |
| `CacheOperations.KeptAddPlacement` | crates/tensorcache/src/runtime.rs:676-791 | Adding a placement keeps the invariant at the end and at each file-system step; a refusal changes nothing. |
| `CacheEffects.OperationPlaces` | crates/tensorcache/src/runtime.rs:363-443 | A restore, promotion, demotion, persist or eviction that succeeds leaves its object in exactly the expected tiers (destination added; source replaced by the next lower tier; only storage kept), changes nothing else of it but the durable mark, and nothing of any other object. |
| `CacheEffects.RegistrationPlaces` | crates/tensorcache/src/runtime.rs:286-305 | A successful registration adds one new entry, in host memory only, not durable and unused, over the state in which room was made. |
| `CacheEffects.DeletionRemoves` | crates/tensorcache/src/runtime.rs:446-460 | A successful deletion removes its object and touches no other. |
| `CacheEffects.RestoreOutcome` | crates/tensorcache/src/runtime.rs:363-375 | In a valid state: the result of a restore, case by case. Unknown objects, objects without a copy and tiers without room each have their error; in every other case the registered bytes are returned. |
| `CacheEffects.PersistOutcome` | crates/tensorcache/src/runtime.rs:413-424 | The result of a persist, case by case: it succeeds when the object is on disk already, or held somewhere with room for its missing blocks on disk. |
| `CacheEffects.PromoteOutcome` | crates/tensorcache/src/runtime.rs:378-392 | The result of a promotion, case by case. |
| `CacheOutcomes.DemoteOutcome` | crates/tensorcache/src/runtime.rs:395-410 | The result of a demotion, case by case: it needs a copy in the tier it leaves, which must not be storage; a copy or room in the tier below, host memory under a device and storage under host memory; and, out of host memory, an account that can take the memory back. |
| `CacheOutcomes.EvictOutcome` | crates/tensorcache/src/runtime.rs:432-443 | An eviction of a registered object fails if and only if it is in host memory and the account cannot take the memory back. |
| `CacheOutcomes.DeleteOutcome` | crates/tensorcache/src/runtime.rs:446-460 | A deletion of a registered object fails if and only if it is in host memory and the account cannot take the memory back. |
| `CacheOutcomes.CoveredReturns` | crates/tensorcache/src/runtime.rs:799-805 | While the account covers the arena it can always take memory back, so neither failure occurs. |
| `CacheOutcomes.RegisterOutcome` | crates/tensorcache/src/runtime.rs:226-308 | The result of a registration, case by case: the payload must be as long as the shape says and split into an allowed number of blocks; the identity must be new; size and recomputation cost must meet every admission threshold; and the new blocks must fit after room was made. Lack of room is reported only when nothing evictable is left in host memory. |
| `CacheEffects.AddOutcome` | crates/tensorcache/src/runtime.rs:676-791 | Adding a placement fails for lack of room only, with the error of that tier. |
| `CacheAccounting.RegistrationDrift` | crates/tensorcache/src/runtime.rs:262-285 | The exact effect of a registration on the account: its distance from the arena grows by the charge, computed before room was made, minus the bytes really added afterwards. |
| `CacheDrift.RegistrationExactIffNoNewRepeat` | crates/tensorcache/src/runtime.rs:262-278 | If room-making kept the payload's blocks, a registration leaves an exact account exact if and only if no block that had to be stored occurs twice; otherwise the account is too high. |
| `CacheDrift.RegistrationExactIffNothingLost` | crates/tensorcache/src/runtime.rs:268-278 | For a payload without repeats the account stays exact if and only if room-making freed none of its blocks; otherwise it is too low. |
| `CacheDrift.HostCopyExactIffNoNewRepeat` | crates/tensorcache/src/runtime.rs:696-724 | From an exact account, a restore, promotion or demotion that gives an object its copy in host memory leaves the account exact if and only if no block that had to be stored occurs twice in it; otherwise the account is too high. |
| `CacheDrift.RepeatedBlockIsOvercounted` | crates/tensorcache/src/runtime.rs:262-285 | A run: registering a payload of two equal one-byte blocks uses 2 but stores 1, and after the deletion an empty cache still accounts for 1. |
| `CacheDrift.LostBlockIsUndercounted` | crates/tensorcache/src/runtime.rs:268-278 | A run: with room for two bytes, a second object sharing a block with the first evicts it, and afterwards two stored bytes are accounted as one. |
| `CacheMiscounts.OvercountIsReachable` | crates/tensorcache/src/runtime.rs:262-285 | A run from an empty directory, row-major key of two bytes: after a registration and a deletion the empty cache accounts for one byte. |
| `CacheMiscounts.UndercountIsReachable` | crates/tensorcache/src/runtime.rs:268-278 | A run from an empty directory, row-major key of two bytes: after two registrations two stored bytes are accounted as one. |
| `CacheExactness.CountedStep` | crates/tensorcache/src/runtime.rs:696-724 | Every operation keeps an exact or covering account under the side conditions; evictions and deletions of existing entries then succeed. |
| `CacheDurability.DeleteKeepsDurableIff` | crates/tensorcache/src/runtime.rs:446-460 | For every valid state, whatever the tiers of the entry and their order: a deletion keeps "durable implies on disk" if and only if the entry is not durable with a host placement, behind its storage placement, whose memory the account cannot take back. |
| `CacheDurability.DurableStepIff` | crates/tensorcache/src/runtime.rs:217-460 | Every operation keeps durable entries on disk if and only if it is not such a deletion; all others do so outright. |
| `CacheDurability.DurableRun` | crates/tensorcache/src/runtime.rs:217-615 | Over any run with crashes, durable entries are on disk unless some completed deletion met the guard. |
| `CacheLostDurable.DurableOffDiskIsReachable` | crates/tensorcache/src/runtime.rs:268-278 | A run from an empty directory at row-major keys of one and two bytes: an object is persisted, evicted and restored; two registrations leave the account one short; deleting the younger uses it up; deleting the durable object then fails and leaves it durable and off disk. |
| `CacheAccounting.CountedRemovePlacement` | crates/tensorcache/src/runtime.rs:793-805 | While the account covers the arena, removing a resident placement always succeeds and moves account and arena by the same amount. |
| `BlockArena.ChargeExactIffNoRepeat` | crates/tensorcache/src/runtime.rs:262-267 | The charge for a block list is never below the bytes it adds, and equal to them if and only if no missing block repeats. |
| `BlockArena.AcquireAllStores` | crates/tensorcache/src/storage.rs:129-157 | Acquiring a payload's blocks stores its stretches under their digests, disturbs no other block and adds the bytes of the new ones. |
| `BlockArena.AcquireAllCounts` | crates/tensorcache/src/storage.rs:129-157 | One reference is added per occurrence of a block. |
| `BlockArena.ReleaseAllConserves` | crates/tensorcache/src/storage.rs:161-174 | Releasing shrinks arena and budget by the same amount and never fails while the budget covers the arena. |
| `BlockArena.ReleaseAllCounts` | crates/tensorcache/src/storage.rs:161-174 | Releasing takes exactly the given references, and never frees a block another placement still refers to, even when it stops half-way. |
| `BlockArena.ArenaCell.AcquireAt` | crates/tensorcache/src/storage.rs:153-157 | The arena object performs the specified acquisition and returns a reference describing the bytes at their offset. |
| `BlockArena.ArenaCell.ReleaseOne` | crates/tensorcache/src/storage.rs:161-174 | The arena object performs the specified release; the flag tells whether bytes were freed. |
| `Accounting.ReservationCommits` | crates/tensorcache/src/accounting.rs:36-101 | A reservation within the free bytes succeeds, committing it moves exactly that much into use, cancelling it restores the budget. |
| `Accounting.BudgetCell.TakeReservation` | crates/tensorcache/src/accounting.rs:71-84 | The budget object reserves exactly as specified, refusing overflow and overshoot. |
| `Accounting.BudgetCell.Commit` | crates/tensorcache/src/accounting.rs:87-93 | A commit takes the reservation and adds it to use, or reports failure. |
| `Accounting.BudgetCell.Sub` | crates/tensorcache/src/accounting.rs:60-68 | Use never goes below zero: an excessive subtraction fails and changes nothing. |
| `CacheEviction.MakingRoom` | crates/tensorcache/src/runtime.rs:841-882 | Room-making evicts the shortest prefix of the eviction order that reaches the goal; on return there is room or no non-durable entry is in host memory; durable entries and all storage placements are untouched. |
| `CacheEviction.EvictionListMembers` | crates/tensorcache/src/runtime.rs:847-864 | The eviction list names exactly the non-durable entries in host memory. |
| `CacheRanking.RegistrationEvictsLeastWorth` | crates/tensorcache/src/runtime.rs:841-882 | A registration, successful or not, takes out of host memory only objects that are not durable, and none worth more than one it leaves there, worth being the weighted sum of the entry's own uses and recomputation cost less its idle seconds and size; ties go to the smaller identity. |
| `CacheRanking.LeastWorthMakesRoom` | crates/tensorcache/src/eviction.rs:57-86 | The same of making room for any number of bytes. |
| `Eviction.OrderIgnoresEnumeration` | crates/tensorcache/src/eviction.rs:78-86 | The eviction order is the same for any two enumerations of the same candidates. |
| `Eviction.OrderIsSorted` | crates/tensorcache/src/eviction.rs:78-86 | The order is sorted by score, ties by identity. |
| `Eviction.LexIsDictionary` | crates/tensorcache/src/eviction.rs:78-86 | Identities are compared in dictionary order. |
| `Eviction.EvictionPlan` | crates/tensorcache/src/eviction.rs:90-106 | The plan is the shortest prefix of the order that frees the deficit, or every candidate. |
| `Eviction.ShortestPrefixUnique` | crates/tensorcache/src/eviction.rs:90-106 | There is only one shortest prefix, so the plan is determined. |
| `Eviction.KeepScoreIsWeightedSum` | crates/tensorcache/src/eviction.rs:57-75 | Within stated bounds no cast, product or running sum of the score overflows and it is the plain weighted sum. |
| `Eviction.AnyEnumerationGivesOrder` | crates/tensorcache/src/runtime.rs:847-864 | Whatever order the hash map yields its entries in, the runtime evicts in the same order. |
| `TensorCacheRuntime.TensorCache.RegisterObject` | crates/tensorcache/src/runtime.rs:217-308 | The object's registration, with its loops and its two eviction passes, has exactly the specified effect. |
| `TensorCacheRuntime.TensorCache.LookupObject` | crates/tensorcache/src/runtime.rs:311-360 | Lookup has the specified effect; a hit reports a tier that holds the object (devices first), a cheapest plan to have it in host memory with its cost in terms of the cost model, and the recomputation cost avoided. |
| `TensorCacheRuntime.TensorCache.RestoreObject` | crates/tensorcache/src/runtime.rs:363-375 | Restore has the specified effect. |
| `TensorCacheRuntime.TensorCache.PromoteObject` | crates/tensorcache/src/runtime.rs:378-392 | Promote has the specified effect. |
| `TensorCacheRuntime.TensorCache.DemoteObject` | crates/tensorcache/src/runtime.rs:395-410 | Demote has the specified effect, lower copy first. |
| `TensorCacheRuntime.TensorCache.PersistObject` | crates/tensorcache/src/runtime.rs:413-424 | Persist has the specified effect, blocks before manifest. |
| `TensorCacheRuntime.TensorCache.EvictObject` | crates/tensorcache/src/runtime.rs:432-443 | Evict has the specified effect. |
| `TensorCacheRuntime.TensorCache.DeleteObject` | crates/tensorcache/src/runtime.rs:446-460 | Delete has the specified effect, and stops at the first failing removal. |
| `TensorCacheRuntime.TensorCache.VerifyObject` | crates/tensorcache/src/runtime.rs:463-495 | The comparison loop returns the specified verdict. |
| `TensorCacheRuntime.TensorCache.AddPlacementIn` | crates/tensorcache/src/runtime.rs:676-791 | Adding a placement has the specified effect, down to the order of file-system steps. |
| `TensorCacheRuntime.TensorCache.RemovePlacementFrom` | crates/tensorcache/src/runtime.rs:793-837 | Removing a placement has the specified effect, down to the order of file-system steps. |
| `TensorCacheRuntime.TensorCache.EvictUntil` | crates/tensorcache/src/runtime.rs:841-882 | The eviction loop over candidates gathered in any map order has the specified effect. |
| `TensorCacheRuntime.TensorCache.Recover` | crates/tensorcache/src/runtime.rs:562-615 | The recovery loop over the directory listing has the specified effect. |
| `TensorCacheRuntime.TensorCache.WriteFile` | crates/tensorcache/src/persistence.rs:225-244 | The atomic write takes the specified steps in order. |
| `TensorCacheRuntime.TensorCache.PutBlock` | crates/tensorcache/src/persistence.rs:103-118 | A block file is written only when the block is not referenced and not there; a file with other content is an error. |
| `Storage.ChunkPayload` | crates/tensorcache/src/storage.rs:39-66 | The chunking loop computes the specified list. |
| `Storage.ChunkIsAccepted` | crates/tensorcache/src/storage.rs:39-101 | Every chunk list is accepted by the validator, covers the payload exactly and describes its stretches. |
| `Storage.ChunkShape` | crates/tensorcache/src/storage.rs:38-66 | The i-th block starts at i times the block size, is a whole block or what is left, and carries the digest and checksum of those bytes. |
| `Storage.AcceptanceIsExactCover` | crates/tensorcache/src/storage.rs:69-101 | When no block end wraps around, acceptance is equivalent to a gap-free, overlap-free cover of the payload in order; the duplicate check never decides. |
| `Storage.WrappedListIsAccepted` | crates/tensorcache/src/storage.rs:85-98 | A list whose ends wrap around the machine word is accepted although it covers nothing of the kind. |
| `Storage.ValidateBlockList` | crates/tensorcache/src/storage.rs:69-101 | The validation loop computes the specified verdict. |
| `Storage.ReassembleInto` | crates/tensorcache/src/storage.rs:191-221 | The copying loop computes the specified reassembly, with the same error for the same block; it runs past the buffer, which stops the program, exactly when an accepted list has a block end beyond the buffer with every block up to it sound, and then some end wraps around. |
| `Storage.ReassembleInvertsChunk` | crates/tensorcache/src/storage.rs:191-221 | Reassembling a chunked payload gives it back, for every payload and every block size. |
| `Storage.ReassembledIsChecked` | crates/tensorcache/src/storage.rs:191-221 | Whatever a block provider returns, bytes that are reassembled have the length asked for, and at the place of each block what the provider gave, with its length and checksum. |
| `Coordination.Coordinator.HandleMessage` | crates/tensorcache/src/coordinator.rs:155-312 | The coordinator object has the specified transition and replies for every message. |
| `CoordinatorReplies.CreateIsAcknowledgedToOwner` | crates/tensorcache/src/coordinator.rs:167-205 | In every state: a claim is acknowledged if and only if the claimant owns the object afterwards, and the acknowledgement names that owner, its stored fence and the current epoch; a refusal changes nothing. |
| `CoordinatorReplies.OneHolderPerFence` | crates/tensorcache/src/coordinator.rs:167-205 | Over whole runs with restarts: two nodes that were told they hold an object under the same fence are the same node. |
| `CoordinatorReplies.LookupNamesOwner` | crates/tensorcache/src/coordinator.rs:206-227 | A lookup tells exactly whether an object is owned, by whom, and the address that node registered. |
| `CoordinatorReplies.LeaseRunsFromNow` | crates/tensorcache/src/coordinator.rs:228-245 | A lease is granted exactly to the stored fence and expires the lease time from now. |
| `CoordinatorReplies.MigrationIsAccepted` | crates/tensorcache/src/coordinator.rs:246-284 | A migration is accepted if and only if the object exists and the fence given is not below the stored one; it is then pending with the next fence and the new owner's registered address is named. |
| `CoordinatorReplies.AckCommitsPending` | crates/tensorcache/src/coordinator.rs:285-306 | An acknowledgement commits exactly the pending migration it names, and only once. |
| `CoordinatorReplies.RegistrationIsAnswered` | crates/tensorcache/src/coordinator.rs:157-166 | A node that registers is known under its address; no other node changes. |
| `CoordinatorReplies.OthersChangeNothing` | crates/tensorcache/src/coordinator.rs:307-313 | Every other message changes nothing; a heartbeat has no reply, and what is not served is answered as unsupported. |
| `Coordination.SnapshotRestoresOwners` | crates/tensorcache/src/coordinator.rs:69-129 | Loading a snapshot, written in whatever order the map lists its keys, restores every owner and fence and advances the epoch. |
| `Layouts.SnapshotLayout` | crates/tensorcache/src/coordinator.rs:69-83 | The bytes of a snapshot, part by part. |
| `Coordination.Coordinator.Save` | crates/tensorcache/src/coordinator.rs:69-83 | The writing loop produces the specified snapshot. |
| `Coordination.Coordinator.LoadFrom` | crates/tensorcache/src/coordinator.rs:88-129 | The reading loop loads the specified state, and changes nothing on a malformed snapshot. |
| `CoordinatorRuns.OneOwnerPerFence` | crates/tensorcache/src/coordinator.rs:167-305 | Between any two moments of any run, restarts included, no object is forgotten, its fence never decreases, an (object, fence) pair has one owner forever, and a pending migration carries fence + 1. |
| `CoordinatorRuns.OwnerChangesWithFence` | crates/tensorcache/src/coordinator.rs:282-305 | An owner changes only together with its fence, which advances by exactly one, and only by the acknowledgement of the pending migration to that owner. |
| `CoordinatorRuns.StaleLeaseNeverGranted` | crates/tensorcache/src/coordinator.rs:228-245 | A lease is granted exactly to the current fence; once the fence has passed f, no renewal with f is ever granted again. |
| `CoordinatorRuns.RestartPreservesOwners` | crates/tensorcache-cli/src/server.rs:71-128 | A restart at any moment of any run loads successfully, with every owner and fence and no pending migration. |
| `Cluster.AuthoritativeBytesNeverChange` | crates/tensorcache/src/node.rs:79-381 | At any two moments of any run with stores, replica fetches, overlapping migrations asked for only where they can do no harm, late or repeated acknowledgements and coordinator restarts, the owner at the later moment holds the bytes and compatibility key of the owner at the earlier one. |
| `Cluster.OwnersAskedIsSafe` | crates/tensorcache/src/node.rs:324-381 | Asking only current owners to migrate is one way to ask only where no harm can be done. |
| `ClusterMigrations.MigrationSafeIff` | crates/tensorcache/src/node.rs:324-381 | A migration the coordinator would accept leaves every owner authoritative in every continuation if and only if one of the two nodes holds the authoritative copy or they hold different copies. |
| `ClusterMigrations.StrayCopyTakesOver` | crates/tensorcache/src/node.rs:79-138 | A run: two nodes are given different bytes for one address, the first becomes owner, a migration is asked of the second, and the third node ends up owner with the other bytes. |
| `ClusterProgress.FirstWriterOwns` | crates/tensorcache/src/node.rs:79-138 | From any state in which nobody owns an object, the node that is given it owns it three steps later with those bytes. |
| `ClusterProgress.ReplicaArrives` | crates/tensorcache/src/node.rs:157-222 | From any state of the invariant, a lookup at a node without a copy leaves it with the authoritative copy three steps later, and the owner stays. |
| `ClusterProgress.MigrationCompletes` | crates/tensorcache/src/node.rs:324-381 | From any state of the invariant, a migration asked of a node with the authoritative copy makes the new node owner under the next fence, with the authoritative copy, five steps later. |
| `ClusterProgress.EndedChangesNothing` | crates/tensorcache/src/node.rs:91-156 | What ends an activity (a known owner, a missing, unreadable or incompatible copy, a refused instruction, a target that holds something else) starts no other and changes no copy, owner or pending migration. |
| `NodeStore.StoreIsLocal` | crates/tensorcache/src/node.rs:86-114 | Serving a Store through the runtime keeps its invariant and does to the registered objects what the protocol model does to the node's copies, for some outcome of admission and reading back. |
| `NodeStore.StoreAcceptedIff` | crates/tensorcache/src/node.rs:86-114 | A Store is accepted if and only if the payload is well shaped and either the object is new, worth caching and fits, or the same bytes are registered under an equal compatibility identity and can be had in host memory. |
| `NodeStore.ReadIsCopy` | crates/tensorcache/src/node.rs:139-156 | Whatever a node reads back for a peer or a migration is its registered copy, or it fails. |
| `Cluster.NextKeeps` | crates/tensorcache/src/node.rs:79-222 | Every step of every activity keeps: owners hold the authoritative copy, replicas fetched are authoritative, pushes that are accepted are authoritative, local copies are never overwritten. |
| `Cluster.StoredSame` | crates/tensorcache/src/node.rs:79-120 | A Store that succeeds leaves the node with the same bytes and compatibility key, whether it registered them or found them. |
| `Cluster.CanonicalSetting` | crates/tensorcache/src/ident.rs:36-48 | Hexadecimal digests for names and identities satisfy what the protocol needs when no two encodings of the run collide. |
| `Wire.RecordBijection` | crates/tensorcache/src/wire.rs:45-188 | For every list of fields: a byte string decodes to given values if and only if it is the print of those values and they fit. |
| `Wire.Writer.PutField` | crates/tensorcache/src/wire.rs:45-91 | The writer appends exactly the specified print of each field. |
| `Wire.Reader.GetField` | crates/tensorcache/src/wire.rs:123-188 | The reader returns exactly the specified parse of each field, and the position after it. |
| `Wire.ToFromLE` | crates/tensorcache/src/wire.rs:55-63 | Little-endian words and byte strings correspond one to one (this direction: printing what was read). |
| `Utf8.ValidIffSpelled` | crates/tensorcache/src/wire.rs:180-183 | A text is accepted if and only if it is the UTF-8 encoding (section 3 of RFC 3629) of some sequence of Unicode scalar values. |
| `Layouts.WordsArePrinted` | crates/tensorcache/src/wire.rs:50-68 | Words are written lowest byte first. |
| `Compat.CodecBijection` | crates/tensorcache/src/compat.rs:64-162 | A byte string decodes to a key if and only if the key is valid and encodes to that string. |
| `Compat.EncodeInjective` | crates/tensorcache/src/compat.rs:64-90 | No two keys share an encoding, valid layout or not. |
| `Compat.AddressInjective` | crates/tensorcache/src/ident.rs:36-43 | No two addresses share an encoding. |
| `Layouts.AddressLayout` | crates/tensorcache/src/ident.rs:36-43 | The bytes of an address, part by part. |
| `Layouts.KeyLayout` | crates/tensorcache/src/compat.rs:64-89 | The bytes of a compatibility key, part by part. |
| `Layouts.ElementSizes` | crates/tensorcache/src/dtype.rs:58-65 | The element size of every type code. |
| `Compat.EncodeKey` | crates/tensorcache/src/compat.rs:64-90 | The writer-driven encoder produces the specified encoding. |
| `Compat.DecodeKey` | crates/tensorcache/src/compat.rs:93-162 | The reader-driven decoder accepts and returns what is specified. |
| `Manifests.ManifestBijection` | crates/tensorcache/src/persistence.rs:246-351 | A manifest decodes to a record if and only if the record is coherent and encodes to those bytes. |
| `Layouts.ManifestLayout` | crates/tensorcache/src/persistence.rs:246-270 | The bytes of a manifest, part by part, followed by their digest. |
| `Manifests.ReadableIffLayoutValid` | crates/tensorcache/src/persistence.rs:246-351 | A coherent record that was written can be read back if and only if its layout suits its shape. |
| `Manifests.AcceptedBlocksPartitionIff` | crates/tensorcache/src/persistence.rs:272-351 | The blocks of an accepted manifest partition [0, byte_len) if and only if no block end wraps around. |
| `Manifests.WrappingManifestIsAccepted` | crates/tensorcache/src/persistence.rs:272-351 | There is an accepted manifest whose blocks do not partition its length. |
| `Manifests.CoherentLength` | crates/tensorcache/src/persistence.rs:325-339 | The byte length of a coherent record is the product of its dimensions times the element size. |
| `Manifests.WriteManifest` | crates/tensorcache/src/persistence.rs:246-270 | The writer-driven encoder produces the specified manifest. |
| `Manifests.ReadManifest` | crates/tensorcache/src/persistence.rs:272-351 | The reader-driven decoder accepts and returns what is specified. |
| `Manifests.ParseToHex` | crates/tensorcache/src/hash.rs:48-71 | Parsing a hexadecimal name gives the bytes back. |
| `Manifests.HexKeepsOrder` | crates/tensorcache/src/hash.rs:48-56 | Hexadecimal names sort as the bytes they spell. |
| `Layouts.HexLetters` | crates/tensorcache/src/hash.rs:29-32 | A name spells each byte in two lower-case hexadecimal digits, high half first. |
| `Manifests.WriteHex` | crates/tensorcache/src/hash.rs:48-56 | The printing loop spells each byte in two lower-case digits. |
| `Manifests.ReadHex` | crates/tensorcache/src/hash.rs:59-71 | The parsing loop returns the specified bytes and refuses odd lengths and other characters. |
| `Messages.BodyBijection` | crates/tensorcache/src/protocol.rs:194-470 | For each of the sixteen kinds: a body decodes to a message if and only if it is that message's encoding; accepted bodies re-encode byte for byte. |
| `Layouts.MessageLayout` | crates/tensorcache/src/protocol.rs:194-340 | The kind and the bytes of each of the sixteen messages, part by part. |
| `Messages.EncodeMessage` | crates/tensorcache/src/protocol.rs:194-356 | The writer-driven encoder produces the specified body. |
| `Messages.DecodeMessage` | crates/tensorcache/src/protocol.rs:359-470 | The reader-driven decoder accepts and returns what is specified. |
| `Frames.ReadsExactlyFrames` | crates/tensorcache/src/protocol.rs:480-534 | A stream yields a frame if and only if it starts with one: known kind, bounded length, right checksum, any reserved bytes. |
| `Layouts.FrameLayout` | crates/tensorcache/src/protocol.rs:473-497 | The bytes of a frame, part by part. |
| `Frames.StreamRoundTrip` | crates/tensorcache/src/protocol.rs:480-541 | Messages written back to back are read back as the same messages and then a clean end. |
| `Frames.Connection.Fill` | crates/tensorcache/src/protocol.rs:544-568 | However reads are fragmented or interrupted, the buffer receives the next bytes of the stream. |
| `Frames.Connection.ReadFrame` | crates/tensorcache/src/protocol.rs:500-534 | The outcome of reading a frame depends on the bytes alone, not on how they were cut up. |
| `Frames.Deliver` | crates/tensorcache/src/protocol.rs:480-568 | Messages sent over a connection that fragments and interrupts at will arrive as they were sent. |
| `Crc32c.CrcIsBitwise` | crates/tensorcache/src/crc.rs:11-46 | The table-driven checksum equals the bit-by-bit one for every input. |
| `Crc32c.CrcIsDivision` | crates/tensorcache/src/crc.rs:11-46 | The checksum is the mirrored, complemented remainder of long division by 1EDC6F41 started from all ones, for every input. |
| `Crc32c.CheckValue` | crates/tensorcache/src/crc.rs:55-59 | The checksum of the digits 1 to 9 is E3069283, the value that identifies CRC-32C. |
| `Crc32c.MirrorReverses` | crates/tensorcache/src/crc.rs:4-9 | The mirror between the two bit orders really reverses all 32 bits. |
| `Crc32c.CrcComposes` | crates/tensorcache/src/crc.rs:40-46 | Continuing a checksum over the rest of an input gives the checksum of the whole, at every split. |
| `Crc32c.BurstIsDetected` | crates/tensorcache/src/crc.rs:34-46 | Inputs of equal length that differ only within four consecutive bytes have different checksums. |
| `Crc32c.BuildTable` | crates/tensorcache/src/crc.rs:11-30 | The nested loops fill the table with the eight-fold shift of each index. |
| `Crc32c.ContinueCrc` | crates/tensorcache/src/crc.rs:40-46 | The loop computes the specified continuation from any prior checksum. |
| `Integrity.DamagedBlockIsRefused` | crates/tensorcache/src/storage.rs:209-215 | Reassembly fails if any block was damaged within four consecutive bytes. |
| `Integrity.DamagedFrameIsRefused` | crates/tensorcache/src/protocol.rs:518-533 | A frame damaged within four consecutive bytes of what its checksum covers (header, payload, or across the border between them) is refused, as long as its length field arrived as sent. |
| `Integrity.FrameOnWire` | crates/tensorcache/src/protocol.rs:480-500 | A frame is its checksummed part with the checksum and two reserved bytes inserted after the tenth byte. |
| `Sha256.HashInPieces` | crates/tensorcache/src/hash.rs:126-235 | However a message is cut into updates, the digest is that of the block fold over the padded message. |
| `Sha256.PadIsStandard` | crates/tensorcache/src/hash.rs:206-222 | The padding is whole blocks with the fewest zeros, and under 2^61 bytes its length field is the exact bit count. |
| `Sha256.InitialWordsAreRoots` | crates/tensorcache/src/hash.rs:113-119 | The initial words are the fractional bits of the square roots of the first eight primes, as FIPS 180-4 (section 5.3.3) defines them. |
| `Sha256.Hasher.Update` | crates/tensorcache/src/hash.rs:126-151 | After any update the digested blocks and the buffer together are everything fed so far. |
| `Sha256.Hasher.Finish` | crates/tensorcache/src/hash.rs:206-228 | Finishing with one block or two digests exactly the padded message. |
| `Shapes.BuildRowMajor` | crates/tensorcache/src/geometry.rs:163-173 | Succeeds if and only if every suffix product fits a word, and then yields the row-major strides. |
| `Shapes.RowMajorStrideIs` | crates/tensorcache/src/geometry.rs:163-174 | Row-major: a step in a dimension skips the volume of the dimensions after it. |
| `Shapes.BuildColMajor` | crates/tensorcache/src/geometry.rs:176-187 | Succeeds if and only if every prefix product fits a word, and then yields the column-major strides. |
| `Shapes.ColMajorStrideIs` | crates/tensorcache/src/geometry.rs:176-187 | Column-major: a step in a dimension skips the volume of the dimensions before it. |
| `Shapes.RowMajorInjective` | crates/tensorcache/src/geometry.rs:163-173 | Different in-range indices have different row-major offsets. |
| `Shapes.RowMajorOnto` | crates/tensorcache/src/geometry.rs:163-173 | Every offset below the number of elements is that of an in-range index. |
| `Shapes.RowMajorBelowVolume` | crates/tensorcache/src/geometry.rs:163-173 | Row-major offsets of in-range indices are below the number of elements. |
| `Shapes.ColMajorInjective` | crates/tensorcache/src/geometry.rs:176-187 | Different in-range indices have different column-major offsets. |
| `Shapes.ColMajorOnto` | crates/tensorcache/src/geometry.rs:176-187 | Every offset below the number of elements is that of an in-range index. |
| `Shapes.ColMajorBelowVolume` | crates/tensorcache/src/geometry.rs:176-187 | Column-major offsets of in-range indices are below the number of elements. |
| `Shapes.StridedOffsetsFit` | crates/tensorcache/src/geometry.rs:116-148 | Under an accepted strided layout no in-range index has an offset that overflows a word. |
| `Shapes.LayoutAcceptedIff` | crates/tensorcache/src/geometry.rs:116-148 | A layout of a shape that has elements is accepted if and only if it is not strided, or has one non-zero stride for each dimension and the offset of every element fits a machine word. |
| `Shapes.ValidateLayout` | crates/tensorcache/src/geometry.rs:116-148 | The validation loop computes the specified verdict. |
| `Shapes.NumelIsVolume` | crates/tensorcache/src/geometry.rs:59-68 | A successful element count is the product of the dimensions. |
| `Shapes.CountElements` | crates/tensorcache/src/geometry.rs:59-68 | The checked product fails as soon as a prefix product overflows, even if a later dimension is zero. |
| `Planner.Decide` | crates/tensorcache/src/planner.rs:50-117 | The decision is a cheapest available action under saturating costs, ties by priority and then by the order of the placements; a resident destination is reused; rejection exactly when nothing holds the object and it cannot be recomputed; and its cost is as `ActionIsCosted` says. |
| `Planner.ActionIsCosted` | crates/tensorcache/src/cost.rs:71-108 | What each action costs, in the fields of the model: a move takes its latency plus the whole nanoseconds at the smaller of the source tier's read and the destination tier's write bandwidth, a restore likewise from storage with its own latency, recomputation its base plus its rate times the bytes; the largest word exactly on a dead link or overflow. |
| `Planner.DecisionIsCheapest` | crates/tensorcache/src/planner.rs:64-103 | No transfer from a tier that holds the object, no restore while storage holds it and no recomputation that is possible costs less than the decision. |
| `Planner.RestoreNeverWins` | crates/tensorcache/src/planner.rs:75-104 | When transfer latency is at most restore latency, a cheapest plan is never a restore. |

## Left out

- Sockets, threads, timeouts, retries and the command line; only the message exchanges are modelled.
- The gap in `register` between dropping and retaking the lock (runtime.rs:269-271); operations are atomic.
- Input/output failures, directory flushes and torn writes other than of temporary files.
- The SHA-256 compression rounds; they are a parameter of `Sha256`.
- The checksum that a node verifies on the payload of a Store or a fetch reply, beside that of the frame.
- The CUDA backend; devices are byte buffers with a capacity and a use counter.
- The rationale text of a plan, and `metadata`, `resources` and `economics`: they only read.
- The capacity part of admission and the residency module, which the runtime does not call; the object limit in admission reads a counter the runtime never sets.
- The persistent tier's `Accounting.used`, which is never reduced on removal, is only shown to stay within capacity.
- Error texts, and which of two errors in one malformed record is reported.
- Object identities are digests in the runtime model, not their hexadecimal names; the two correspond by `ParseToHex` and `HexKeepsOrder`.
- `recover` on a running cache and `load_state` on a running coordinator; both are start-up operations.
- Node restarts, and nodes that answer untruthfully; a node's store is an in-memory write-once map.
- Overflow of the counters `storage_used`, `accel_used`, `object_count` and of reference counts.
- The floating-point `pressure` field of eviction candidates, which no score reads.
- The clock is read once per operation; the code reads it once per candidate.
- Cluster.AuthoritativeBytesNeverChange: runs of at most 2^64 - 1 steps, because the snapshot counts objects in a machine word; and an owner "holds" a copy that is registered in its cache, which it may be unable to read back after an eviction from memory (`NodeStore.StoreIsLocal`).
- CoordinatorRuns.OneOwnerPerFence: runs of fewer than 2^64 - 1 events, because the fence is a machine word that wraps (`CommitRaisesFenceIff`).
- TensorCacheRuntime.TensorCache.RegisterObject: the room-making and the registration share one clock reading.
- Materialization inside the runtime object uses the specification functions; `ReassembleInto` is the loop proved against them.
