# shale: the overlap handoff, CAS transactions and their companions, verified

shale distributes an embedded key-value store over nodes. Every storage unit has replica positions;
a position's bytes, writer epoch and serving marker live in shared storage, and nodes hand positions
to one another while serving. Transactions buffer reads and writes and commit by compare-and-set on
the unit's owner, whose stamped write-set then reaches the other replicas. This project models those
protocols in Dafny and proves what they promise, over every input and over whole runs.

Modules, in reading order:

- `Basics`, `Lex`: byte strings, their order, and the one ascending enumeration of a set.
- `Envelope` (with `StampClock`), `ApplyIfNewer`, `CommitCas`, `CasRefinement`: stamped envelopes, the
  replica apply, the owner commit, and how the replicated form refines the raw one.
- `ClusterTx`, `TxSimulation`, `Transact`: the client buffer, the proof that a committed transaction
  is an atomic one, and the retry loop.
- `MountTable`, `SharedBacking`, `OverlapProtocol`, `OverlapWitness`: one node's table, the shared
  backing, the handoff of one position as a transition system over any number of nodes, and runs that
  show where its safety argument stops.
- `Reconcile`, `Leave`, `SingleWriter`: one reconcile pass, the graceful leave, and whole histories of
  opens and fenced writes.
- `Routing`, `PendingRoute`: the current/pending/union decision and the two resolvers built on it.
- `FlushGroup`, `Settle`, `BootstrapMarker`, `LeaseExpiry`, `ReducedRing`, `PebbleTx`: the small
  concurrent machines, the lease fold, the memoised ring and the Pebble overlay.

How it is modelled. Code that mutates fields is a class whose methods are tied to functions on values;
lemmas and run invariants speak about those functions. In the transition systems each lock-protected
section is one step, and each unlocked read or write of shared storage is a step of its own: the
serving-marker write is a separate read and put, the own open epoch a read of the record and then of
the durable epoch, and a put that failed or whose node died may still land later. Clocks, I/O errors,
timers and the ring are inputs chosen by the environment.
Go integers used as counts and epochs are unbounded; the uint64 stamp arithmetic, the 16-bit node-id
length and the 8-bit position index are modelled with their widths. `dafny verify dfyconfig.toml`
checks the whole project.

## Where the code does less than its text says

- The comment in `beginDrain` (pkg/cluster/multibackend_overlap.go:533-537) says that a stale read of
  the open epoch can only raise the release gate. It can lower it: a prompt acquire, which does not
  take the reconcile lock, can replace an evicted mount between the read and the arm, and a failed
  fallback read gives gate 0. `OverlapWitness.SelfRelease` ends in a mount released to its own node's
  marker, `OverlapWitness.ReleaseToEarlierOwner` in one released on a marker an earlier owner left.
  `OverlapProtocol.ReleaseHasSuccessorIff` says for every run what a release proves: a different node
  served at the marker's epoch above the mount exactly when that epoch is above the mount and was
  served. `OverlapProtocol.GateIsOwnEpochIff` says when the gate compared is the mount's own epoch, and
  `OverlapProtocol.DrainEndsTooSoonIff` which markers fool a drain and that only unsafe arms and
  publishes admit one.
- A stuck flip reads its recorded epoch after unlocking (pkg/cluster/mounttable.go:394-399). If an
  eviction removed the record, the durable epoch is published, which some node may have opened and
  never served: `OverlapWitness.ReleaseToUnservedMark`. With its record the node publishes a served
  epoch (`OverlapProtocol.RecordedMarkIsServed`); without it, any idle node that opens first makes the
  published epoch an unserved one (`OverlapProtocol.OvertakenMarkIsServedIff`).
- "An acquire in flight and not installed is not mounted" holds in a run exactly when every claim was
  made on an unmounted position; the prompt acquire checks that before the claim and outside the lock,
  and `OverlapWitness.ClaimOverMount` is a run where it fails.
- The leave gate lists the mounts, reads its own epoch and reads the marker at different times. A
  passing gate proves a successor exactly when the marker is above the listed mount, was served, and is
  not one the leaver installed itself after listing (`OverlapProtocol.LeaveGateProvesSuccessorIff`,
  `OverlapWitness.GateFooledByRemount`, `OverlapWitness.GateFooledByUnserved`).
- The text beside the object-store marker write (backends/slate/factory.go:357-362) counts on the read
  before the put to keep the marker from going down. A put lowers the marker exactly when the last put
  to land since its read is a higher one (`OverlapProtocol.MarkerFallsIff`,
  `OverlapWitness.MarkerFalls`); the results about releases hold all the same. The in-memory backing
  writes in one step and its marker never falls.
- A commit stamp fails to dominate a stored stamp only at the uint64 ceiling
  (`CommitCas.CommitStampDominatesIff`, `SingleWriter.CommitKeepsStampsIff`), and histories get there
  (`SingleWriter.CeilingIsReached`).
- A transaction accepts an empty `Put`, which the replicated form stores as a tombstone
  (`CasRefinement.WriteSetRefinesIff`).
- `Encode` cannot carry a node id of 65536 bytes or more (`Envelope.RoundTripIff`), and the exclusion
  key collides outside non-empty sets of NUL-free ids (`ReducedRing.KeyCollides`,
  `ReducedRing.QuietCallIsExactIff`).

## Model

| member | source | states |
|---|---|---|
| Envelope.GreaterIsStrictTotalOrder | pkg/cluster/envelope.go:70-75 | stamp comparison is irreflexive, asymmetric, transitive and total |
| Envelope.DecodeOfEncode | pkg/cluster/envelope.go:93-134 | what decoding an encoding gives for every envelope, the 16-bit id length included |
| Envelope.EncodeLayout | pkg/cluster/envelope.go:93-108 | the wire format byte for byte: magic, timestamp and id length most significant byte first, id, payload |
| Envelope.RoundTripIff | pkg/cluster/envelope.go:93-134 | decoding an encoding returns the envelope exactly when the node id is shorter than 65536 bytes |
| Envelope.DecodeIsCanonical | pkg/cluster/envelope.go:118-162 | a stamped byte string is the encoding of what it decodes to, an unstamped one decodes to itself under the zero stamp, and the header parse agrees with the full parse on every byte string |
| StampClock.NextStampDominatesIff | pkg/cluster/stampclock.go:84-98 | a drawn stamp exceeds the mark unless the mark is at the uint64 ceiling |
| StampClock.NextStampIsLeast | pkg/cluster/stampclock.go:84-98 | no stamp above the mark and not behind the wall clock is below the one drawn |
| StampClock.DrawsRiseIff | pkg/cluster/stampclock.go:84-115 | of two draws of one clock, whatever it observes in between, the later is the larger exactly when the earlier was below the ceiling |
| StampClock.MarkStaysNear | pkg/cluster/stampclock.go:84-115 | the mark is never more than one per draw or observation ahead of the walls and stamps seen, so the ceiling is far |
| StampClock.Clock.Next | pkg/cluster/stampclock.go:84-98 | draws and records the next stamp: above the mark, not behind the wall clock, and (NextStampIsLeast) the least such, saturating |
| StampClock.Clock.Observe | pkg/cluster/stampclock.go:105-115 | the mark ratchets to a larger observed stamp and never falls |
| ApplyIfNewer.ApplyEntry | pkg/cluster/apply_batch.go:97-110 | one compare-and-put, with the stored stamp observed |
| ApplyIfNewer.ApplyEntries | pkg/cluster/apply_if_newer.go:84-107 | the loop over the entries: when it gets through, what it leaves, whether anything won, and the clock mark it ends at |
| ApplyIfNewer.ApplyEnvelopesTx | pkg/cluster/apply_if_newer.go:70-114 | the batch is applied whole or not at all, when each, whether anything won, and the clock mark it ends at |
| ApplyIfNewer.RatchetIs | pkg/cluster/apply_if_newer.go:84-107 | that mark is past every stamp compared and is the old mark or one of those stamps |
| ApplyIfNewer.AnyWinsIff | pkg/cluster/apply_if_newer.go:84-114 | an apply reports that something won exactly when it changed the store; a tie keeps what is stored and reports nothing |
| ApplyIfNewer.StoredTsNeverFalls | pkg/cluster/apply_if_newer.go:70-114 | no sequence of applies lowers a stored timestamp |
| ApplyIfNewer.KeyHoldsNewest | pkg/cluster/apply_if_newer.go:70-114 | a key ends at a maximal-stamp value among its initial and offered values |
| ApplyIfNewer.DeliveredKeyHoldsNewest | pkg/cluster/apply_batch.go:58-110 | the same over any sequence of batches, corrupt ones refused whole |
| ApplyIfNewer.ReplicasConverge | pkg/cluster/apply_batch.go:58-110 | replicas offered the same values per key, in any order, grouping and repetition, end identical |
| ApplyIfNewer.RedeliveryIsNoOp | pkg/cluster/apply_batch.go:58-110 | delivering again what was delivered changes nothing |
| CommitCas.ValidIffAllHold | pkg/cluster/cas.go:217-244 | validation passes exactly when every read-check is true of the store |
| CommitCas.ValidateReads | pkg/cluster/cas.go:217-244 | the validate loop, first failing check first, with every decoded stamp observed |
| CommitCas.ObserveBlindWriteStamps | pkg/cluster/cas.go:493-525 | the stamps of written keys that no check read are observed, up to the first corrupt header or failed Get, which is reported |
| CommitCas.CommitStampDominatesIff | pkg/cluster/cas.go:251-273 | the commit stamp strictly beats the stored stamp of every key written, read or blind, exactly when that stamp is below the ceiling or its node id sorts lower |
| CommitCas.ApplySealed | pkg/cluster/cas.go:283-302 | the write loop at R>1 |
| CommitCas.ApplyRaw | pkg/cluster/cas.go:270-282 | the write loop at R=1 |
| CommitCas.CommitCasApply | pkg/cluster/cas.go:171-400 | the result, the store, the batch and the clock for every read-set, write-set and failure point; a refused commit leaves the store alone and a passed one applies the whole write-set under one stamp |
| CommitCas.PassesIff | pkg/cluster/cas.go:171-308 | a commit passes exactly when every read-check is true of the store, the blind keys can be read where they are looked at, and the transaction fails nowhere |
| CommitCas.ConflictsIff | pkg/cluster/cas.go:222-244 | it is refused as a conflict exactly when the first check that does not hold is reached before any failure and is a mismatch |
| CommitCas.BreaksWith | pkg/cluster/cas.go:198-308 | otherwise a failing transaction reports its own error, a fence after the begin on a mounted unit as the acquiring window |
| CasRefinement.ReplicaEndsAsOwner | pkg/cluster/apply_batch.go:97-110 | a replica holding only older stamps ends with the owner's bytes on every written key and keeps every other key |
| CasRefinement.ReadsAgree | pkg/cluster/cas.go:448-476 | reading an envelope store is reading the raw store it stands for |
| CasRefinement.VerdictsAgree | pkg/cluster/cas.go:217-244 | the replicated and the raw validation give the same verdict |
| CasRefinement.GatesAgree | pkg/cluster/cas.go:171-308 | so they pass and refuse the same commits |
| CasRefinement.WriteSetRefinesIff | pkg/cluster/cas.go:270-303 | the replicated apply stands for the raw one exactly when no Put is empty |
| CasRefinement.SealedRunRefinesRaw | pkg/cluster/cas.go:217-308 | over any sequence of transactions the replicated owner and the raw owner pass and refuse alike and leave related stores, if each transaction that passes at its turn puts no empty value and draws a stamp the codec can carry |
| ClusterTx.Transaction.constructor | pkg/cluster/castx.go:222-229 | a new transaction is unpinned and empty |
| ClusterTx.Transaction.PinOn | pkg/cluster/castx.go:245-256 | the first key fixes the unit, or outside multi-backend mode the owner, it has then |
| ClusterTx.Transaction.GuardShard | pkg/cluster/castx.go:261-306 | a key by now in another unit is refused, for good when it shards differently and retryably when the layout moved; outside multi-backend mode a key with another owner is refused for good |
| ClusterTx.Transaction.Get | pkg/cluster/castx.go:308-338 | buffered writes answer first; a routed read is recorded once and its fresh value returned |
| ClusterTx.Transaction.RecordRead | pkg/cluster/castx.go:345-355 | only the first observation of a key enters the read-set |
| ClusterTx.Transaction.Put | pkg/cluster/castx.go:357-365 | the write is buffered, an empty value included |
| ClusterTx.Transaction.Delete | pkg/cluster/castx.go:367-375 | the delete is buffered |
| ClusterTx.Transaction.BufferWrite | pkg/cluster/castx.go:381-388 | a later write of a key replaces the earlier one in place, so write keys stay distinct |
| ClusterTx.Transaction.Finalize | pkg/cluster/castx.go:404-420 | what is shipped, once, with pairwise distinct write keys |
| TxSimulation.BufferedWriteLands | pkg/cluster/castx.go:381-388 | applying the buffer after buffering a write is applying the buffer and then the write |
| TxSimulation.LetThroughIff | pkg/cluster/castx.go:261-306 | at every step of every run a key is let through exactly when it lies in the unit, or with the owner, the transaction is pinned to; elsewhere the closure is told to retry exactly when, in multi-backend mode, the key shards like the pinned one |
| TxSimulation.LetThroughIsTold | pkg/cluster/castx.go:308-375 | and what it is told: its own last write of the key, else what the cluster holds at that moment |
| TxSimulation.TouchedInPlace | pkg/cluster/castx.go:261-388 | every key a transaction ships lay in its pinned place at the step that touched it |
| TxSimulation.ShipsToOnePlace | pkg/cluster/castx.go:261-388 | while the layout does not change, everything it ships lies in that place |
| TxSimulation.CommittedIsAtomicIff | pkg/cluster/castx.go:261-420 | for every closure and every changing cluster and layout, if the read-set validates in a store, the closure was answered as if run alone on that store exactly when its cluster reads were answered, its repeated reads agreed and no layout change altered a guard's verdict, and its write-set then leaves what that run leaves |
| TxSimulation.TakenIff | pkg/cluster/cas.go:217-308 | a commit is taken exactly when everything the closure was told by the cluster is still so |
| TxSimulation.CommitsAreSerial | pkg/cluster/cas.go:217-308 | no update is lost: any commits of any clients, whatever the refused ones did, leave what running the committed closures one by one leaves, if every client whose commit passes at its turn met the condition of CommittedIsAtomicIff |
| TxSimulation.SealedCommitsAreSerial | pkg/cluster/cas.go:217-308 | the same for the replicated owner's envelope store, whatever stamps its commits draw, if those it takes also put no empty value under a stamp the codec can carry |
| Transact.Transact | pkg/cluster/cas.go:671-753 | ends for every sequence of outcomes within the two budgets added; every run before the last asked to be run again and is unapplied unless it ended in a retried flush; it gives up on conflicts exactly after that many, on transient failures exactly after that many retries or past the deadline, and on anything else at once |
| MountTable.Table.constructor | pkg/cluster/mounttable.go:139-154 | every position starts empty |
| MountTable.Table.ArmDrainAt | pkg/cluster/mounttable.go:350-367 | the Owned to Draining edge, once, for a mounted position in no phase, at the given gate; no other position moves |
| MountTable.Table.ReclaimDrainAt | pkg/cluster/mounttable.go:373-382 | a mounted loser returns to Owned |
| MountTable.Table.DropStuckGainerAt | pkg/cluster/mounttable.go:410-425 | a mounted gainer with nothing in flight becomes Owned |
| MountTable.Table.ClearOrphanedDrain | pkg/cluster/mounttable.go:431-443 | a drain whose mount is gone becomes Absent |
| MountTable.Table.InstallServingAt | pkg/cluster/mounttable.go:529-562 | mount, open epoch and phase move together; closing and draining refuse |
| MountTable.Table.ReleaseDrainedAt | pkg/cluster/mounttable.go:569-591 | the phase re-check and the removal are one step, and the removed mount is returned once |
| MountTable.Table.StartAcquireAt | pkg/cluster/mounttable.go:598-609 | one acquire per position, none when closing |
| MountTable.Table.FinishAcquireAt | pkg/cluster/mounttable.go:612-616 | the claim is given back |
| MountTable.Table.EvictIfSameAt | pkg/cluster/mounttable.go:716-728 | only the failed handle itself is dropped, and never mid-drain |
| MountTable.Table.ReleaseReplicaUnit | pkg/cluster/multibackend_replicated.go:646-650 | the entry and its recorded epoch go |
| MountTable.Table.TakeAll | pkg/cluster/mounttable.go:734-743 | empties the mounts, returns exactly them, and touches nothing else |
| MountTable.DrainCycle | pkg/cluster/mounttable.go:350-591 | an armed position keeps its mount, cannot be armed again or evicted and takes no install; reclaiming gives back the slot it was armed from, releasing takes the mount out once |
| MountTable.AcquireCycle | pkg/cluster/mounttable.go:529-728 | an acquire is claimed once and not when closing, its install mounts the handle under its own epoch and ends the phase, finishing gives the claim back, and evicting that handle and no other empties the slot |
| MountTable.MovesIff | pkg/cluster/mounttable.go:350-728 | when each move acts, and that otherwise the slot stays |
| SharedBacking.FenceEpoch | internal/sharedfactory/sharedfactory.go:218-225 | an open lands strictly above the durable epoch and not below what it intended, at the next epoch or the intended one |
| SharedBacking.Backing.Acquire | internal/sharedfactory/sharedfactory.go:218-225 | the durable epoch moves to where the open landed; bytes and marker stay |
| SharedBacking.Backing.WriteServingMarker | internal/sharedfactory/sharedfactory.go:375-382 | the marker never goes down |
| SharedBacking.MarkedIsTheHigher | internal/sharedfactory/sharedfactory.go:375-382 | the marker written is no lower than either epoch and is one of the two |
| SharedBacking.Backing.ReadServingMarker | internal/sharedfactory/sharedfactory.go:388-393 | the marker, or that there is none |
| SharedBacking.Factory.OpenReplicaUnit | internal/sharedfactory/sharedfactory.go:689-757 | refused exactly when this handle holds the position at or above the epoch asked for, with nothing moved; otherwise opened above every earlier epoch |
| SharedBacking.Factory.CloseReplicaUnit | internal/sharedfactory/sharedfactory.go:770-775 | releases the position on this handle alone |
| SharedBacking.FencedBackend.Put | internal/sharedfactory/sharedfactory.go:860-869 | written exactly when the handle is not fenced |
| SharedBacking.FencedBackend.Delete | internal/sharedfactory/sharedfactory.go:871-876 | deleted exactly when the handle is not fenced |
| OverlapProtocol.StepKeepsInv | pkg/cluster/multibackend_overlap.go:525-1002 | every step of every node keeps the handoff invariant, whose clauses about served markers hold while every publish was safe, and only ever adds installs, opens and releases of its own |
| OverlapProtocol.RunKeepsInv | pkg/cluster/multibackend_overlap.go:525-1002 | the invariant holds after every run of any number of nodes, crashes and late puts included |
| OverlapProtocol.ReleaseHasSuccessorIff | pkg/cluster/multibackend_overlap.go:946-1002 | after every run, whatever its arms: a release has a different node served at the marker's epoch above the mount exactly when that epoch is above the mount and served, with safe publishes exactly when it is above the mount, and always when the gate is not below it |
| OverlapProtocol.ReleaseTakesTheArmedMount | pkg/cluster/mounttable.go:569-591 | after every run the mount released is the one the drain was armed over, the gate compared with the marker is the one of that arming, and no mount is released twice |
| OverlapProtocol.GateIsOwnEpochIff | pkg/cluster/multibackend_overlap.go:525-563 | read off a record, the gate is the released mount's own epoch exactly when that mount was installed by the read, and below it otherwise; off the durable epoch it covers every mount installed by then; off a failed read it is below every mount |
| OverlapProtocol.DrainEndsTooSoonIff | pkg/cluster/multibackend_overlap.go:525-563 | after every run and for every marker, a drain armed and checked by one node releases on a marker that is no successor's exactly when the marker is above the gate and either not above the mount or at an epoch nobody served; with safe publishes a safe arm leaves no such marker, and an unsafe one makes the mount's own marker one |
| OverlapProtocol.RecordedMarkIsServed | pkg/cluster/mounttable.go:394-406 | a stuck flip takes its epoch off the record exactly when the record is still there, and then it was served |
| OverlapProtocol.OvertakenMarkIsServedIff | pkg/cluster/mounttable.go:394-406 | after any run, if another idle node claims and opens just before the epoch is resolved, what is published was served exactly when the record was there |
| OverlapProtocol.OutstandingWasRead | backends/slate/factory.go:363-384 | every put under way, or still to land, goes back to a read in the run that found the marker below it |
| OverlapProtocol.MarkerFallsIff | backends/slate/factory.go:363-384 | after every run only a put can lower the marker, and it does exactly when the last put to land since its own read is a higher one |
| OverlapProtocol.OpensUnmountedIff | pkg/cluster/multibackend_replicated.go:377-403 | "in flight and not installed means not mounted" holds throughout a run exactly when every claim found the position unmounted |
| OverlapProtocol.ClosedNeverServesAgain | pkg/cluster/mounttable.go:529-609 | in every continuation up to its crash a closed node stays closed, its mount stays or goes, it installs nothing, and once it is not acquiring it never is |
| OverlapProtocol.TakenStaysUnmounted | pkg/cluster/mounttable.go:734-743 | after Close has taken the mounts the position stays unmounted there |
| OverlapProtocol.AbandonTakesOut | pkg/cluster/multibackend_replicated.go:646-650 | an abandoned release takes the mount and its record out and nothing else |
| OverlapProtocol.ReclaimUndoesArm | pkg/cluster/mounttable.go:350-382 | reclaiming a position undoes its arming |
| OverlapProtocol.LostPutMayLand | backends/slate/factory.go:363-384 | a marker put that failed or whose node died can still land |
| OverlapProtocol.LeaveGateProvesSuccessorIff | pkg/cluster/multibackend_overlap_leave.go:159-179 | whatever happens between listing the mounts, the two epoch reads and the marker read, a marker above the epoch read proves that a different node served above the listed mount exactly when it is above that mount, was served, and was not installed by this node after listing; above the mount it is unless the epoch read found no record and failed |
| OverlapWitness.SelfRelease | pkg/cluster/multibackend_overlap.go:525-563 | a run with every publish safe reaches a state in which only node 0 ever served and its mount was released to its own marker |
| OverlapWitness.ReleaseToEarlierOwner | pkg/cluster/multibackend_overlap.go:525-563 | a run with every publish safe reaches a state in which a mount at 3 was released on the marker an earlier owner left at 2, the gate read as 0 after an eviction |
| OverlapWitness.GateFooledByRemount | pkg/cluster/multibackend_overlap_leave.go:159-179 | one run, every arm and publish safe, passes from a state whose mount the gate lists and whose epoch it reads to one whose marker passes it, with no other node ever serving |
| OverlapWitness.GateFooledByUnserved | pkg/cluster/multibackend_overlap_leave.go:159-179 | a run with every arm safe reaches a state in which the gate passes on a marker at an epoch nobody served |
| OverlapWitness.ReleaseToUnservedMark | pkg/cluster/mounttable.go:394-406 | a run with every arm safe reaches a state in which a mount at 2 was released although nobody ever served above 2 |
| OverlapWitness.ClaimOverMount | pkg/cluster/multibackend_replicated.go:377-403 | a run with every arm and publish safe reaches an open in flight over a live mount |
| OverlapWitness.MarkerFalls | backends/slate/factory.go:363-384 | a run reaches a marker at 2 and then one at 1 |
| Reconcile.DesiresUnitElsewhere | pkg/cluster/multibackend_overlap.go:309-328 | whether the unit is wanted at another, unmounted position |
| Reconcile.OwnEpochOf | pkg/cluster/multibackend_overlap.go:419-424 | the recorded epoch, else the durable one; PassReleasesIff, PassPublishesIff, PassIs and PassSettlesPhases say so with both written out |
| Reconcile.HeldForMissingSuccessorMarker | pkg/cluster/multibackend_overlap.go:340-374 | an abandoned live position is held unless a marker strictly above its own epoch was read or none was ever written |
| Reconcile.ReclaimLoop | pkg/cluster/multibackend_overlap.go:118-128 | exactly the mounted losers wanted now and later return to Owned |
| Reconcile.DrainOne | pkg/cluster/multibackend_overlap.go:139-200 | one position's drain, hold or release, and no other position |
| Reconcile.DrainLoop | pkg/cluster/multibackend_overlap.go:139-200 | the drain half over every mounted position |
| Reconcile.AcquireOne | pkg/cluster/multibackend_overlap.go:217-252 | one position's stuck flip with the marker it publishes, skip, re-drive or fresh acquire |
| Reconcile.AcquireLoop | pkg/cluster/multibackend_overlap.go:213-299 | both acquire halves and the markers published, list repetitions included |
| Reconcile.LoopsArePass | pkg/cluster/multibackend_overlap.go:118-299 | the four loops in turn give each position the effect of the pass |
| Reconcile.ReconcilePass | pkg/cluster/multibackend_overlap.go:66-302 | the table after the whole pass and the markers it published, for every table, both lists and every marker reading |
| Reconcile.PassReleasesIff | pkg/cluster/multibackend_overlap.go:163-200 | a mount is taken out exactly when it is wanted neither now nor later, is in no transition, its unit is not wanted at another unmounted position, and, if live, a marker above the recorded epoch (the durable one only without a record) was read or none was ever written |
| Reconcile.PassPublishesIff | pkg/cluster/multibackend_overlap.go:217-281 | a marker is published exactly for the mounted pending positions stuck in a gainer phase with nothing in flight, at the recorded epoch, or the durable one without a record |
| Reconcile.PassIs | pkg/cluster/multibackend_overlap.go:66-302 | what one pass does to a position, case by case, with the epochs written out |
| Reconcile.PassStartsIff | pkg/cluster/multibackend_overlap.go:213-299 | an acquire is started exactly for unmounted pending positions that are not draining, on a node that is not closing |
| Reconcile.PassSettlesPhases | pkg/cluster/multibackend_overlap.go:118-160 | a mounted position wanted now and later is not left draining; one wanted only now is left in a transition, drained at its recorded epoch, or the durable one without a record |
| Reconcile.PassKeepsACopy | pkg/cluster/multibackend_overlap.go:168-186 | a node that wants a unit and had a copy mounted has one mounted afterwards |
| Reconcile.PassIsIdempotent | pkg/cluster/multibackend_overlap.go:66-302 | a second pass over the same inputs changes nothing and publishes nothing |
| Leave.NoneAwaitingIff | pkg/cluster/multibackend_overlap_leave.go:150-179 | the gate is empty exactly when every position read has a marker strictly above its epoch |
| Leave.AwaitingNames | pkg/cluster/multibackend_overlap_leave.go:159-179 | the positions that wait are those of the reads that found no marker above the own epoch, once per read and in order |
| Leave.PositionsAwaitingSuccessor | pkg/cluster/multibackend_overlap_leave.go:159-179 | the positions still waiting, in order |
| Leave.DrainForLeave | pkg/cluster/multibackend_overlap_leave.go:80-132 | the role is announced; a clean leave ends at the first poll whose gate passes, a timed-out one at the first expired poll whose gate does not, naming what is stranded |
| Leave.CleanLeaveIsCoveredIff | pkg/cluster/multibackend_overlap_leave.go:80-179 | when a leave passes its gate, each position has a different node that served above the listed mount exactly when its marker is above that mount, was served, and is not one the leaver installed after listing |
| SingleWriter.OpensIncrease | internal/sharedfactory/sharedfactory.go:218-225 | open epochs of a position strictly increase over every history, and the newest is the durable epoch |
| SingleWriter.OneLiveWriter | internal/sharedfactory/sharedfactory.go:840-883 | of all handles ever opened exactly the newest is unfenced |
| SingleWriter.OnlyNewestWrites | internal/sharedfactory/sharedfactory.go:840-883 | the bytes change only through the newest handle |
| SingleWriter.EpochsNeverFall | internal/sharedfactory/sharedfactory.go:218-382 | in the in-memory backing neither the durable epoch nor the marker goes back; the one moves only with an open, the other only with a marker write, to its epoch |
| SingleWriter.CommitKeepsStampsIff | pkg/cluster/cas.go:251-303 | a passed owner commit lowers no stored stamp exactly when it writes no key at the ceiling under a higher node id |
| SingleWriter.EventKeepsStampsIff | pkg/cluster/apply_if_newer.go:70-114 | one event lowers no stored stamp exactly when it is not an unfenced, passing commit over a key at the ceiling under a higher node id |
| SingleWriter.StampsKeptThroughoutIff | pkg/cluster/apply_if_newer.go:70-114 | across any sequence of handoffs, applies and commits no stored stamp ever falls, exactly when no commit that took did that |
| SingleWriter.CeilingIsReached | pkg/cluster/stampclock.go:84-98 | for every key and every two ids in order there is a history in which such a commit takes and a stored stamp falls |
| SingleWriter.StampsNeverFall | pkg/cluster/apply_if_newer.go:70-114 | and then a key's stamp at any moment is not beaten by its stamp at any earlier one |
| Routing.SameMembers | internal/decide/union.go:148-158 | equal length and containment |
| Routing.SameMembersIff | internal/decide/union.go:145-158 | on duplicate-free placements that is set equality |
| Routing.UnionMembers | internal/decide/union.go:162-171 | current, then the pending members that are new |
| Routing.AddNewSpec | internal/decide/union.go:162-171 | the union keeps the first list as a prefix, covers both, repeats nothing and invents nothing |
| Routing.Route | internal/decide/union.go:128-143 | the decision, branch by branch |
| Routing.RouteIsSound | internal/decide/union.go:128-143 | routed is duplicate-free, leads with current, is exactly current and pending together, widens exactly when the two differ, and the ack bar is never below the full ring's |
| Routing.ExcludesIff | internal/decide/union.go:128-143 | the joiners are left out exactly when that costs no holder and keeps r, the drainers exactly when somebody remains, and the ack bar is over the current set |
| Routing.BarsBuy | pkg/cluster/replicate.go:284-295 | two quorums of the same replicas share one, all means every one, one means some one, and no bar asks for more than there are |
| PendingRoute.FindMember | pkg/cluster/multibackend_pending_route.go:410-417 | the first member of that id |
| PendingRoute.MembersById | pkg/cluster/multibackend_pending_route.go:396-408 | ids looked up in the first placement, then the second |
| PendingRoute.RoutedReplicasForKey | pkg/cluster/multibackend_pending_route.go:208-217 | the members routed, with the addresses of the placement each came from |
| PendingRoute.RoutedReplicasWithUnit | pkg/cluster/multibackend_pending_route.go:273-321 | the routed (member, position) pairs |
| PendingRoute.ContainsRoutedReplica | pkg/cluster/multibackend_pending_route.go:362-369 | whether the pair is routed already |
| PendingRoute.CasTargets | pkg/cluster/apply_batch.go:179-204 | one target per member in first-routed order, and the owner's acks: its commit and each other routed position of its own where the batch was applied |
| PendingRoute.ReplicateCasBatch | pkg/cluster/apply_batch.go:162-267 | the bar is met exactly when the owner's and the remote acks reach it, and refused without replicas |
| PendingRoute.LocalCopyIff | pkg/cluster/apply_batch.go:184-197 | the owner's copies are the committed position and its other routed positions where the batch was applied |
| PendingRoute.RemoteCopyIff | pkg/cluster/apply_batch.go:198-204 | the remote copies are the other routed members that acked |
| PendingRoute.AcksAreCopies | pkg/cluster/apply_batch.go:162-267 | the acks counted are exactly the distinct places that hold the batch |
| PendingRoute.MetBarHasCopies | pkg/cluster/apply_batch.go:162-267 | a met bar means that many distinct places, a place being a position of the owner or another member, and no fewer than the full ring's bar |
| PendingRoute.ReportCountsCopies | pkg/cluster/cas.go:323-400 | a commit reports itself replicated exactly when the batch is at as many distinct places as the bar asks for, under-replicated exactly when it is not and the owner flushed, failed exactly when that flush failed |
| PendingRoute.PlacesShareIff | pkg/cluster/apply_batch.go:162-267 | two places stand for one position, hence one database, exactly when that position is changing hands and they are its current and its pending owner |
| PendingRoute.ResolversAgree | pkg/cluster/apply_batch.go:182-204 | the CAS list folded by member is the very sequence the plain resolver returns |
| PendingRoute.PairsRoutedOnce | pkg/cluster/multibackend_pending_route.go:294-321 | in transition every current and pending pair is routed exactly once and nothing else is |
| PendingRoute.RoutedAtIff | pkg/cluster/multibackend_pending_route.go:273-321 | at a position exactly its current owner and, in a transition, its pending one are routed |
| PendingRoute.ReconcileAgreesWithRouting | pkg/cluster/multibackend_pending_route.go:122-140 | the sets a node mounts by are the sets writes are routed by |
| FlushGroup.GroupState.Enqueue | pkg/cluster/cas_flushgroup.go:90-100 | the waiter joins the queue and claims the runner slot exactly when it is free |
| FlushGroup.GroupState.Snapshot | pkg/cluster/cas_flushgroup.go:126-129 | the whole queue is taken |
| FlushGroup.GroupState.Check | pkg/cluster/cas_flushgroup.go:137-143 | the runner leaves exactly when nobody queued meanwhile |
| FlushGroup.RunKeepsInv | pkg/cluster/cas_flushgroup.go:75-159 | every interleaving of callers, runners and forget keeps each waiter in exactly one place |
| FlushGroup.AnswerIsALaterFlush | pkg/cluster/cas_flushgroup.go:75-145 | a waiter is answered at most once, by a flush of its own state that began after it queued |
| FlushGroup.OneRunnerPerState | pkg/cluster/cas_flushgroup.go:90-100 | at most one runner, owed or running, per state |
| FlushGroup.UnansweredHasARunner | pkg/cluster/cas_flushgroup.go:124-145 | an unanswered waiter has a runner that can move |
| FlushGroup.AnsweredAfterIff | pkg/cluster/cas_flushgroup.go:124-145 | in every continuation, whatever the others do, a waiter is unanswered exactly as long as its runner has taken fewer than a number of steps fixed by its place in the queue or batch |
| FlushGroup.QuietMeansAnswered | pkg/cluster/cas_flushgroup.go:124-145 | when the runners are gone every waiter has had exactly one answer |
| Settle.Shell.ScheduleReconcileIn | pkg/cluster/multibackend_rebalance.go:76-90 | the locked half of an arm |
| Settle.Shell.CloseSettle | pkg/cluster/cluster.go:1347-1360 | the locked half of Close |
| Settle.PendingCountsObligations | pkg/cluster/multibackend_rebalance.go:72-124 | in every interleaving the counter is the live timers plus the unfinished callbacks, hence never negative |
| Settle.IdleIff | pkg/cluster/multibackend_rebalance.go:72-124 | the counter reads idle exactly when no timer is live and no callback unfinished |
| Settle.ImmediateNeverPostponed | internal/decide/settle.go:61-72 | a live zero-delay timer is only ever replaced by another one, or stopped by Close |
| Settle.ArmGetsItsDelay | internal/decide/settle.go:61-72 | an arm stops the current timer if live, touches no other, and starts one with its own delay unless it replaces a live zero-delay one |
| Settle.CloseStopsTheTimer | pkg/cluster/cluster.go:1347-1360 | Close stops the current timer if live, leaves none current, and lets no further arm begin |
| Settle.TwoTimersLive | pkg/cluster/multibackend_rebalance.go:105-110 | a run in which two timers are live and the counter is right |
| BootstrapMarker.MemConditionalStore.PutIfAbsent | pkg/storageunit/condstore.go:79-89 | stores exactly when absent, under a fresh version |
| BootstrapMarker.MemConditionalStore.CompareAndSet | pkg/storageunit/condstore.go:92-102 | stores exactly when the version matches, under a fresh version |
| BootstrapMarker.MemConditionalStore.Get | pkg/storageunit/condstore.go:105-113 | the object, or that there is none |
| BootstrapMarker.AtMostOneFounder | pkg/cluster/multibackend_bootstrap_marker.go:64-96 | in every interleaving at most one node founds, over no marker, and the first value held is its own |
| BootstrapMarker.JoinersAdoptHeldValue | pkg/cluster/multibackend_bootstrap_marker.go:64-96 | a joiner adopts a value the marker held, with a unit count a cluster can have |
| BootstrapMarker.BootDecides | pkg/cluster/multibackend_bootstrap_marker.go:64-96 | a booting node joins the very marker it reads, fails on a corrupt one, and founds exactly when there is none at its write |
| BootstrapMarker.GenerationsStrictlyRise | pkg/cluster/multibackend_bootstrap_marker.go:123-156 | every write raises the generation, for any version token under which equal tokens mean equal contents; so no token recurs |
| BootstrapMarker.AdvancedMeansHeld | pkg/cluster/multibackend_bootstrap_marker.go:123-156 | in every interleaving a finalizer that started over a marker and reports done leaves one that has held its generation or a higher one |
| BootstrapMarker.ValidCountIff | pkg/storageunit/unit.go:66-78 | the unit counts accepted are the powers of two up to 2^30 |
| LeaseExpiry.ExpireSilent | internal/decide/expiry.go:60-79 | the record and the expired ids of one pass, in row order |
| LeaseExpiry.StaleIsStreak | internal/decide/expiry.go:60-79 | after any passes the recorded count is the length of the unchanged streak less one |
| LeaseExpiry.ReportedIff | internal/decide/expiry.go:60-79 | over unbounded passes a member is reported exactly when its row was there and unchanged in each of the last threshold-plus-one passes; self never |
| LeaseExpiry.ExpiredInOrder | internal/decide/expiry.go:60-79 | the expired ids come once each, in row order |
| LeaseExpiry.RejoinStartsOver | internal/decide/expiry.go:60-79 | a new incarnation on an equal counter restarts the count |
| ReducedRing.ExcludeKey | internal/coordstatic/coordstatic.go:256-263 | the ascending members joined by NUL |
| ReducedRing.KeyIsAFunction | internal/coordstatic/coordstatic.go:253-263 | the key does not depend on iteration order |
| ReducedRing.KeyIsInjective | internal/coordstatic/coordstatic.go:256-263 | non-empty sets of NUL-free ids have different keys |
| ReducedRing.KeyCollides | internal/coordstatic/coordstatic.go:256-263 | the two families outside that where keys collide: the empty set with the set of the empty id, and every id with a NUL between a smaller and a larger part with the set of the two parts |
| ReducedRing.CollidingCallIsExactIff | internal/coordstatic/coordstatic.go:233-251 | after a colliding call the memo answers right exactly when both sets leave out the same members |
| ReducedRing.Coordinator.ReducedRing | internal/coordstatic/coordstatic.go:233-251 | the memo when key and epoch match, else the rebuilt ring, which replaces it |
| ReducedRing.Coordinator.SetMembers | internal/coordstatic/coordstatic.go:297-315 | the ring becomes exactly the nodes given, later addresses winning, and the epoch moves |
| ReducedRing.FromNodesHolds | internal/coordstatic/coordstatic.go:297-315 | that ring holds exactly the ids listed, each with the address of its last entry |
| ReducedRing.Coordinator.RemoveFromRing | internal/coordstatic/coordstatic.go:333-342 | one member goes and the epoch moves |
| ReducedRing.QuietCallIsExact | internal/coordstatic/coordstatic.go:233-251 | in every interleaving of calls for non-empty sets of NUL-free ids, a call that no mutation overlaps returns exactly the current members that are not excluded, with their addresses |
| ReducedRing.QuietCallIsExactIff | internal/coordstatic/coordstatic.go:233-251 | in every interleaving of any calls such a call returns the current members without those of some set under the same key, which is exact exactly when both leave out the same members |
| PebbleTx.PrefixIsRange | backends/pebble/pebble.go:195-205 | a key has the prefix exactly when it is not below the prefix and below its upper bound, if there is one |
| PebbleTx.PrefixUpperBound | backends/pebble/pebble.go:195-205 | the bound, none for an empty or all-0xff prefix |
| PebbleTx.OverlayIsReplay | backends/pebble/pebble.go:291-315 | for any sequence of Put and Delete and any store, the overlay reads as the batch replayed |
| PebbleTx.Transaction.Get | backends/pebble/pebble.go:268-289 | the snapshot with the batch replayed, or closed |
| PebbleTx.Transaction.Put | backends/pebble/pebble.go:291-302 | one entry more in the batch, the overlay in agreement |
| PebbleTx.Transaction.Delete | backends/pebble/pebble.go:304-315 | the same for a delete |
| PebbleTx.Transaction.Merge | backends/pebble/pebble.go:330-356 | the rows of the view under the prefix |
| PebbleTx.Transaction.ScanPrefix | backends/pebble/pebble.go:317-359 | strictly ascending, complete for the prefix, with the view's values |
| PebbleTx.Transaction.Commit | backends/pebble/pebble.go:361-381 | exactly the overlay's keys change in the database, all or none, once |
| PebbleTx.MemIterator.constructor | backends/pebble/pebble.go:415-427 | the pairs in ascending key order |
| PebbleTx.MemIterator.Next | backends/pebble/pebble.go:429-437 | one row at a time, then none |

## Left out

- SingleWriter.StampsNeverFall: asks for node ids an envelope can carry and for no commit that takes over a key at the uint64 ceiling under a higher node id; StampsKeptThroughoutIff shows that the second is exactly what it needs.
- TxSimulation.CommitsAreSerial: asks of the clients whose commits are taken, and of no others, the exact condition of TxSimulation.CommittedIsAtomicIff.
- TxSimulation.SealedCommitsAreSerial: asks of the commits that are taken, besides, no empty Put, the exact condition of CasRefinement.WriteSetRefinesIff, and a node id an envelope can carry.
- CasRefinement.SealedRunRefinesRaw: asks the same two things of the transactions that are taken.
- ReducedRing.QuietCallIsExact: asks for non-empty exclusion sets of NUL-free ids, as Locate passes them; QuietCallIsExactIff covers the rest.
- PendingRoute.PlacesShareIff: asks for at most 256 replicas, what the 8-bit position index can tell apart, and for a commit that landed at a routed position of the owner.
- Reconcile.ReconcilePass: takes the pass as one undisturbed sequence of table calls; other threads between those calls are steps of OverlapProtocol.
- Leave.DrainForLeave: takes what each gate read after the reconcile it drove as an input, and asks for a budget that expires at some poll; without one the source's loop need not end.
- BootstrapMarker.AdvancedMeansHeld: asks for a marker to be there when the finalizer starts; over none the source reports done and writes nothing, as creating it is the founder's part.
- SingleWriter.EpochsNeverFall: is about the one-step marker write of the in-memory backing; the read-then-put one is in OverlapProtocol.MarkerFallsIff.
- Boot-time mounts, reshard mounts and the clean-cut reconcile, which install outside the in-flight claim, are not steps of the handoff system.
- A position's fenced writes and its handoff are two models of the same opens; a whole apply is one fenced step, as the backend contract intends, not the in-memory double's check followed by a put.
- The reshard driver and arbiter; a cut-over is a change of layout under an open transaction.
- A remote CommitCAS whose reply is lost after the commit; the at-most-once statement is for the owner's own process.
- Put, Get, read repair, hints and tombstone purge outside transactions.
- The hash ring's placement: it is a function from exclusion sets to member lists.
- JSON text of the init marker and the object store's own behaviour beyond conditional writes.
- Failures inside the Pebble library other than a failed commit.
- Liveness of the handoff (that a successor eventually mounts), timers as durations, backoff, permits and the drain poller's lifetime.
- gRPC status mapping, iterators over streams, DebugState, the blob plane, command-line tools.
