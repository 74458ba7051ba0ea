# Verification of tee-dist

`tee-dist` is a replicated key/value store in which the memory nodes do next to nothing. A node offers a flat
region holding three arrays of slots (PRIME, CACHE and BACKUP), answers reads, writes and compare-and-swaps on
it, and evicts from CACHE. The client does everything else: it hashes keys, probes the open-addressing tables,
seals and opens slots, collects the votes of the backups, commits to the primary, repairs and refreshes caches.

This project models that client and those nodes and proves what they keep:

* as the program runs: classes whose methods change arrays and fields step by step (`RegionMemory.Region`,
  `Client.Client`, `Codec.SlotRecord`, `Allocation.SlotConfig`, `Layout.NodeConfig`), each method proved equal to
  a specification function of the old state;
* one client whose transport calls may each be delivered, lost, or carried out with the answer lost
  (`FaultyRuns`, `Durability`, and `Outcomes` for what exactly is reported), one client without faults (`Refinement`),
  and when the cache may be trusted (`CachedReads`, `StaleCache`);
* any number of clients and evictors, as a machine of single transport calls (`Machine`, `Steps`, `Chains`,
  `CommitOrder`, `Majorities`, `Ties`, `Comeback`, `Values`, `CacheRuns`), and of single field accesses (`FieldStores`);
  `Solo` proves that the machine and the sequential account agree;
* the arithmetic around it: slot budget (`Allocation`), byte layout (`Layout`), sizes as text (`SizeText`), the
  clock sweep (`Eviction`).

The fate of the n-th transport call of a run is `script(n)`; `clock` counts the calls. A probe, a commit, a whole
write and a whole read are functions of the nodes, the script and the clock. The tables a node holds are
sequences of slots in the specifications and arrays in `Region`.

## What the proofs found

* A cached read can return an old value although every write reported rule 1: when a key has lost its PRIME slot
  and come back in another, its epochs start again, and a CACHE slot whose refreshes were lost can carry the very
  epoch the new slot has reached. As the cache is not asked whether PRIME's slot is live, a deleted key can be
  found the same way (`StaleCache.CachedReadCanBeStale`). A cached read is right exactly when the slot CACHE
  offers does not have PRIME's epoch, or does not decode, or decodes to the key's value
  (`CachedReads.CachedReadIff`). Without lost calls, evictions or other clients it always is
  (`Refinement.CachedReadsAgree`); with evictions and other readers it is while keys keep their PRIME slots
  (`CacheRuns.CacheHitsArePrime`).
* A lost commit at a replica costs a write that vote only, but a replica that cannot be probed, or that has no place
  for the key, ends the write, whatever majority the others make (`Outcomes.WriteReports` has the exact condition
  under which a write is refused).
* Rule 3 is not exclusive. The tie-breaker a lost vote records is that of the slot to be overwritten and not the
  rival's, so both contenders of a split vote may be let through, and even one that lost every backup beside one
  that won them all (`Votes.TieBreakNotExclusive`). Two get through together exactly when one of them is below
  every non-zero tie-breaker it recorded and the other is too or has a majority (`Votes.BothPassIff`); then the
  CAS on PRIME decides (`CommitOrder.CommitsOrdered`).
* Nor is a majority, once there are more than two writers. Two writes of one key that probed the same backup slots
  with the same guards can both get rule 1, because a third, whose PRIME probe dates from an earlier epoch, may set
  a guard back in between (`Comeback.GuardsCanComeBack`). Whenever two writes of one key both get rule 1 or 2, in
  any interleaving, they have won a common backup with other slots or guards probed, or the guard came back in
  between (`Majorities.MajoritiesMeet`); otherwise one of them at most does (`Majorities.OneMajority`).
* The sum of configured slot counts is taken in 64 bits. A configuration whose sum wraps is accepted with slots
  that lie on top of each other; an accepted configuration has a sound layout just when the sum did not wrap
  (`Layout.AcceptedIsSoundIff`, `Layout.WrappedSumIsAccepted`).
* The eviction loop can run for ever. Evictors count and sweep under separate locks, and besides the eviction
  thread every connection runs one on request (src/transport_tcp.c:467-473). Two that count the same VALID slot
  hang the node under any threshold up to 100 percent (`Eviction.TwoEvictorsHang`). Where all accesses take the
  lock, as over TCP, a run over the threshold returns exactly when the VALID slots at its count and those filled
  since are enough for the sweeps in between and its own (`Eviction.EvictionReturnsIff`); with a single evictor it
  fails to return only if the threshold is zero percent and nothing was VALID or filled
  (`Eviction.OneEvictorReturnsIff`). Over RDMA body writes take no lock (src/transport_rdma.c:303-355), so bodies
  stored into CACHE during a hanging sweep can still release it.
* The documentation says in one place that a read looks at CACHE first (README.md:11) and in another that PRIME
  is probed first (README.md:33-36). The code probes PRIME first, and the model does so too.

## Model

| member | source | states |
|---|---|---|
| Table.ProbeMeetsTable | src/cluster.c:112-200 | an answered probe of a table in order reports the key's one stable slot, or that it has none together with the slot the key may take (empty, or the earliest stable tombstone, with no empty slot before it), and "full" only when no slot is either |
| Table.ProbeExact | src/cluster.c:112-200 | a probe fetches, and does nothing else, up to the first slot from the key's home on that is empty or holds the key; it is answered exactly when all these fetches are and the table has the key or a place for it; an unanswered fetch ends it there |
| Table.FetchesMeaning | src/cluster.c:123-193 | the fetches of a scan run to the first slot that is empty or holds the key, and over all slots where there is none |
| Table.HomesSpread | src/layout.c:110-113 | of as many consecutive hashes as there are slots no two have the same home, and each slot is the home of one |
| Table.SlotOfAt | src/cluster.c:146-157 | where a key has one slot at most, finding any stable slot of it is finding its slot |
| Table.SlotOfNone | src/cluster.c:188-198 | a key has no stable slot exactly when no slot of the table holds it |
| Table.StoppedAtEmpty | src/cluster.c:174-189 | an empty slot met from the key's home on means the key is nowhere in the table |
| Table.OverwriteCandidate | src/cluster.c:90-105 | overwriting a probed candidate keeps chains and one slot per key, changes no other live key, whatever word its guard ends with |
| Table.CommitAttempts | src/cluster.c:90-110 | a commit, faulty or not, leaves its key with the old slot, none or the proposal; an answered one with the proposal and the compared guard observed |
| Table.CommitExact | src/cluster.c:90-110 | a commit touches one slot only, changes a guard only over its own body and after that was answered, is answered exactly when both its calls are, and makes no second call after an unanswered first |
| Table.StoreMeets | src/cluster.c:533-566 | probe and commit together: what they may change under faults, and that without faults only a key the table does not hold is refused |
| Codec.CtrTwice | src/crypto.c:141-155 | applying the CTR keystream (section 6.5 of NIST SP 800-38A) twice gives the text back |
| Codec.CtrTurnsBits | src/crypto.c:147-154 | CTR mode turns exactly the bits the keystream has set: of zeros it makes the keystream itself, and two texts under one IV differ exactly where their images do |
| Codec.MacInputLayout | src/crypto.c:44-50 | the MAC covers, at these offsets and in little-endian order, key hash, visible epoch, tie-breaker, flags with VALID and TOMBSTONE as its low bits, length, IV and the used bytes |
| Codec.MacInputInjective | src/crypto.c:44-50 | the bytes fed to the MAC determine key hash, epoch, tie-breaker, flags, length, IV and the used ciphertext bytes |
| Codec.DecodeMade | src/crypto.c:106-229 | decoding a made slot returns the bytes that went in, for every key, epoch, flag and value up to 256 bytes |
| Codec.MadeIsSealed | src/crypto.c:106-166 | a made slot has the IV of its key and epoch, the tie-breaker of key, value and epoch, and a ciphertext that of zeros is the keystream, differs between two values of one key and epoch exactly where they do, and is blank behind the value |
| Codec.DecodedIsOneCall | src/crypto.c:179-229 | a slot whose MAC field came whole from some make call, or is blank, and which decodes, agrees with one single call in every MACed field, returns that call's value and carries its epoch; assumed of the MAC is only that this slot's is not blank and that no other input among the calls has the same one |
| FieldStores.AfterTraced | src/transport_rdma.c:303-355 | in every run of single-field stores, fetches, relays by refreshes, zeroing and guard swaps, by any number of clients, whatever a node or a client has assembled has its MAC field from one of the make calls, or blank |
| FieldStores.TornReadIsOneCall | src/crypto.c:194-208 | a copy put together from fetches of single fields at different times amid such a run either does not decode, or agrees with one single make call in every MACed field and decodes to its value at its epoch, if the MAC of the copy is not blank and collides with none of the calls' |
| FieldStores.TornReadHasInstance | src/crypto.c:44-50 | a concrete cipher and MAC, a run of two writers and a copy that meet everything the theorem assumes |
| FieldStores.UntornReadsBack | src/transport_rdma.c:303-355 | a slot stored field by field and fetched field by field without interference comes back as it was made, from any memory |
| Codec.SlotRecord.Make | src/crypto.c:106-166 | filling the record field by field yields the specified slot; a value that is too long is refused and leaves the record alone |
| Codec.SlotRecord.Decode | src/crypto.c:179-230 | writes exactly the value's bytes into the caller's buffer when the slot decodes, in all other cases nothing |
| Codec.CtrInto | src/crypto.c:147-152 | one cipher update fills the front of the target with the CTR image of the text and leaves the rest |
| Votes.EvaluateVotes | src/cluster.c:406-429 | the loop over the votes computes the rule: 1 all, 2 majority, 3 lower tie-breaker than every one seen where a vote was lost, else 0 |
| Votes.RuleIff | src/cluster.c:406-429 | each rule exactly when: 1 all votes won, 2 a majority, 3 no majority but a tie-breaker below every non-zero one met where a vote was lost, 0 otherwise |
| Votes.SuccessesCount | src/cluster.c:411-416 | the successes are as many as there are votes won |
| Votes.RuleMonotone | src/cluster.c:406-429 | turning a lost vote into a won one never turns a winning rule into 0, nor into a weaker one |
| Votes.OneWinnerPerBackup | src/cluster.c:556-559 | contenders that probed the same guard and propose other epochs: one of them at most wins that backup |
| Votes.MajorityExclusive | src/cluster.c:406-429 | among contenders that probed the same backups before any CAS, at most one gets rule 1 or 2, whatever the order of the CASes |
| Votes.PassesIff | src/cluster.c:556-567 | in a run of CASes, where lost votes carry the tie-breakers of the probed slots, a contender gets a rule exactly when it wins all or a majority, or is below every non-zero tie-breaker where it lost |
| Votes.OnePrevails | src/cluster.c:419-424 | of two contenders of one run at most one wins all or a majority |
| Votes.BothPassIff | src/cluster.c:406-429 | two contenders get a rule together exactly when one undercuts its recorded tie-breakers and the other undercuts or prevails |
| Votes.TieBreakNotExclusive | src/cluster.c:425-427 | two concrete runs: in a split vote both contenders get rule 3, and a contender that lost every backup gets rule 3 beside one that won them all |
| Cluster.ReplicasDistinct | src/cluster.c:202-209 | a key's primary and its replicas are pairwise distinct nodes |
| Cluster.PrimariesSpread | src/cluster.c:202-204 | of as many consecutive hashes as there are sessions no two have the same primary, and each session is the primary of one |
| Cluster.CopiesMade | src/cluster.c:457-460 | a key has its places on the smaller of replication and session count many nodes: the primary and those that follow it around the ring |
| RegionMemory.Region.constructor | src/layout.c:29-82 | a fresh region holds only zero slots |
| RegionMemory.Region.ReadSlot | src/layout.c:128-136 | a read returns the slot stored there |
| RegionMemory.Region.WriteBody | src/layout.c:138-146 | a body write replaces all of one slot but its guard, and nothing else |
| RegionMemory.Region.Cas64 | src/layout.c:148-168 | a CAS reports the guard it found and swaps it exactly when it is the one compared with |
| RegionMemory.Region.CountCacheUsage | src/layout.c:170-184 | counts the VALID CACHE slots that are not half-committed |
| RegionMemory.Region.SweepSlot | src/layout.c:207-213 | one round zeroes the slot under the cursor if VALID and moves the cursor on, cyclically |
| RegionMemory.Region.Sweep | src/layout.c:205-215 | the sweep ends, with the table and the cursor at exactly the span that frees its target |
| RegionMemory.Region.EvictIfNeeded | src/layout.c:186-217 | evicts exactly when the used share of the slots reaches the threshold; after whatever clients and other evictors do between its count and its sweep, it frees, of the table it then finds and from the cursor it then finds, a quarter of the slots it counted as used, but at least one (`4 * freed <= used < 4 * freed + 4`); after what they do once more it records the usage of that table; PRIME and BACKUP stay |
| RegionMemory.Region.SweepLater | src/layout.c:195-215 | the sweep of a run that has counted, after what happens meanwhile |
| RegionMemory.Region.CarryOut | src/layout.c:195-205 | what clients and other evictors do while the lock is free, body writes, CASes and whole sweeps, changes CACHE and cursor as specified |
| Eviction.SweepExact | src/layout.c:205-215 | a sweep frees exactly its target of VALID slots within one lap, leaves no VALID slot in the span it passed, changes no other slot, and stops on the last slot it freed |
| Eviction.SweepFreesQuarter | src/layout.c:200-214 | a run frees a quarter, rounded down, of the slots it counted as used, but at least one: `4 * freed <= used < 4 * freed + 4`, or 1 of fewer than four; and no slot becomes VALID |
| Eviction.SweepsGoOn | src/layout.c:205-215 | a sweep goes on where the one before it stopped: two in a row leave the table and the cursor as one for both targets does |
| Eviction.OverThresholdMeans | src/layout.c:195-198 | a run goes on exactly when the used share of all slots is at least the threshold percentage, in exact fractions |
| Eviction.UsedCountMeans | src/layout.c:170-184 | the usage is the number of VALID slots that are not half-committed |
| Eviction.ValidCountMeans | src/layout.c:206-214 | the VALID count is the number of VALID slots |
| Eviction.PassedAll | src/layout.c:207-214 | one lap passes every VALID slot once |
| Eviction.UsedAtMostValid | src/layout.c:170-184 | the counted usage never exceeds the number of VALID slots |
| Eviction.SweepEndsIff | src/layout.c:206-214 | the loop ends if and only if there are as many VALID slots as it is to free, and then within cache_slot_count rounds |
| Eviction.CarriedBalance | src/layout.c:186-217 | VALID slots are conserved between count and sweep: those there are and those freed are those there were and those filled |
| Eviction.CarriedIff | src/layout.c:205-215 | any number of evictors' sweeps among client calls all end exactly when at each of them the targets so far do not exceed the VALID slots at the start and those filled since |
| Eviction.EvictionReturnsIff | src/layout.c:186-217 | a run over the threshold returns exactly when that holds of the sweeps between its count and its own sweep, and of its own |
| Eviction.EvictorsReturnIff | src/layout.c:195-206 | with no stores in between: exactly when the targets of the sweeps in between and its own do not exceed the VALID slots it found at its count |
| Eviction.OneEvictorReturnsIff | src/layout.c:186-217 | with one evictor, whatever clients store in between, a run over the threshold never returns just when the threshold is zero, nothing was VALID at the count and nothing was filled since |
| Eviction.TwoEvictorsHang | src/layout.c:195-206 | under any threshold up to 100 percent, two evictors that count the same single VALID slot: the first frees it, the second never returns |
| Eviction.StoresKeepValid | src/layout.c:195-205 | body writes and CASes of clients make no VALID slot invalid |
| Client.Client.FetchSlotAt | src/cluster.c:76-88 | a fetch that is answered returns the slot and changes no node |
| Client.Client.WriteRegion | src/cluster.c:96-98 | a body write is carried out unless it is dropped, answered only if delivered |
| Client.Client.Cas64 | src/cluster.c:103-105 | a CAS on a guard is carried out unless it is dropped, answered only if delivered |
| Client.Client.ProbeSlotAt | src/cluster.c:112-200 | the probe loop computes the specified probe, call by call |
| Client.Client.CommitSlotAt | src/cluster.c:90-110 | body write, then CAS, as specified under every fate of the two calls |
| Client.Client.StoreAt | src/cluster.c:533-566 | one backup's round: probe, commit, vote with the tie-breaker seen where it was lost |
| Client.Client.RefreshCacheBestEffort | src/cluster.c:233-267 | the cache refresh, nothing when the cache is off |
| Client.Client.CollectVotes | src/cluster.c:533-572 | the vote loop computes the specified votes, or gives up at a backup that cannot be probed |
| Client.Client.Submit | src/cluster.c:488-518 | from the answered probe of PRIME on: update check, sealing, proposal, as specified |
| Client.Client.Propose | src/cluster.c:533-600 | from the votes to the reported rule, as specified |
| Client.Client.Decide | src/cluster.c:574-600 | from the counted votes on, as specified |
| Client.Client.CommitPrimary | src/cluster.c:585-637 | commit, repair and refresh, as specified |
| Client.Client.Repair | src/cluster.c:602-634 | the repair loop offers the proposal once more exactly where the vote was lost |
| Client.Client.WriteValue | src/cluster.c:431-638 | the whole write changes all nodes, counts calls and reports its rule exactly as Cluster.WriteValue says |
| Client.Client.ReadValue | src/cluster.c:269-404 | the whole read, cache validation included, as Cluster.ReadValue says |
| Effects.BackupPhaseAttempts | src/cluster.c:533-572 | under any faults collecting votes keeps every table in order, and each recorded success stands for a replica that holds the proposal |
| Outcomes.VotesReport | src/cluster.c:533-572 | under any faults: collecting votes is given up exactly when some replica, in its turn, is not probed or has no place; otherwise a vote is won exactly when probe, body write and CAS were answered, and a lost one carries the tie-breaker of the slot it was to overwrite |
| Outcomes.WriteReports | src/cluster.c:431-638 | under any faults, the report of a write exactly: -1, changing no node, when the PRIME probe is unanswered or full, the key to update is not live or the value too long; -1, leaving PRIME and CACHE alone, when a replica is given up or the votes won are neither all nor a majority and the tie-breaker is not below every non-zero one, of the key's slot or the first place it may take, where a vote was lost; -1 too when the PRIME commit at the guard found is unanswered; otherwise 1 for all, 2 for a majority, else 3 |
| Outcomes.RuleReports | src/cluster.c:579-600 | so a majority of won votes with answered PRIME calls gives rule 2, all rule 1, and rule 3 means a tie-breaker below every non-zero one of the slots it was to overwrite where it lost |
| Outcomes.ReadReports | src/cluster.c:269-404 | under any faults a read errs when its PRIME probe is unanswered or finds no place; otherwise it replies what the live PRIME slot says, "not found" where there is none, or what a live CACHE slot of the same epoch decodes to |
| Outcomes.CacheOffIsLeft | src/cluster.c:241-243 | with the cache off, under any faults, a write changes no CACHE and a read nothing at all |
| Effects.RepairRestores | src/cluster.c:602-634 | once calls are delivered again, repair leaves the proposal on every replica that has any place for its key |
| Effects.RepairAttempts | src/cluster.c:602-634 | a repair under any faults keeps every table in order |
| FaultyRuns.WriteMeets | src/cluster.c:431-638 | a write under any faults keeps order and every other live key; its key's slot is its own if it reports a rule, else the old one, none, or its own |
| FaultyRuns.WriteValues | src/cluster.c:431-638 | the same for values: reported means set; not reported leaves the old value, the new one or none |
| FaultyRuns.HopelessIsUnsent | src/cluster.c:485-518 | a write whose value is too long, or that updates a key without a value, is refused and changes no node |
| FaultyRuns.ReadMeets | src/cluster.c:269-404 | a read changes no PRIME or BACKUP slot |
| FaultyRuns.RunValues | src/cluster.c:90-110 | through every run of one client with any faults each PRIME and BACKUP keeps at most one stable slot per key and every live slot decodes to a value the key's history allows |
| FaultyRuns.ReadIsValue | src/cluster.c:357-404 | a fault-free read with the cache off replies with the key's value; for a key without one "not found", or an error exactly where PRIME of its primary has neither the key nor a place for it |
| FaultyRuns.ReadAfterFaults | src/cluster.c:533-634 | after any faulty run, a fault-free cache-off read replies only what the history of its key allows: the last reported write, or what later unreported attempts left open; "not found" where PRIME has a place, an error where it has none |
| Durability.RepairKeepsVotes | src/cluster.c:602-634 | repair, faulty or not, never disturbs a replica whose vote was won |
| Durability.RuleMeansReplicas | src/cluster.c:579-634 | a write that reports rule 1 left its slot on all replicas, rule 2 on a majority, whatever was lost; if calls are delivered from the votes on, on all that have a place |
| Refinement.FullVote | src/cluster.c:533-572 | without faults all votes are won, or the vote is given up, and that exactly when some replica neither has the key nor a place for it |
| Refinement.FullNotLive | src/cluster.c:195-198 | a replica can be full only for keys that are not live |
| Refinement.WriteOutcome | src/cluster.c:431-638 | without faults a write succeeds, always under rule 1, unless the value is too long, the key to update is not live, or PRIME or a replica has no place, and exactly then it is refused, changing no PRIME slot; a live key is refused only for a value that is too long; afterwards CACHE holds the new slot or is full for the key; replica agreement and cache coherence are kept |
| Refinement.WriteGood | src/cluster.c:431-638 | the same together with the values: the key has the new value, no other key's value changes, and every invariant holds again |
| Refinement.ReadGood | src/cluster.c:269-404 | without faults a read replies with the key's value, from CACHE or PRIME, and leaves it in CACHE unless that is full; for a key without one "not found", or an error exactly where PRIME is full for it; agreement and coherence are kept |
| Refinement.CachedReadsAgree | src/cluster.c:308-356 | in every state a fault-free client leaves, reads with the cache on and off reply the same |
| Refinement.WriteRefines | src/cluster.c:431-638 | a write is a step of a map: put, update-if-present or remove; it is refused, leaving the map alone, exactly when the value is too long, the key to update is absent, or PRIME or a replica has no room for the key |
| Refinement.ReadRefines | src/cluster.c:269-404 | a read is a lookup in the map and leaves it alone; for an absent key it replies "not found", or an error exactly where PRIME has no room for the key |
| Refinement.RunRefines | src/cluster.c:658-693 | every sequence of operations on a fresh cluster is answered exactly as a map answers it, given where there was room, and at its end every live key has the identical slot on all its replicas and every live cache slot is current |
| CachedReads.CachedReadIff | src/cluster.c:308-356 | whatever evictions left of CACHE: a fault-free read replies the same with the cache on and off exactly when not (the live slot a probe of CACHE finds has the epoch of PRIME's slot, which may be a tombstone, and decodes to something else than the key's value) |
| CachedReads.CachedReadInOrderIff | src/cluster.c:308-356 | the same with the key's live CACHE slot, where CACHE is in order |
| CachedReads.RunKeepsCaches | src/cluster.c:233-267 | every faulty run of one client without evictions leaves CACHE in order |
| CachedReads.CachedReadAfterFaultsIff | src/cluster.c:328-355 | after every faulty run of one client without evictions a later fault-free cached read is right exactly under that condition |
| StaleCache.CachedReadCanBeStale | src/cluster.c:328-355 | with three refreshes lost, four writes report rule 1, the last one storing any value or deleting the key, and a cached read returns the first value where a read of PRIME returns the last one, or nothing |
| Solo.SoloIsSequential | src/cluster.c:269-638 | in the machine a client left alone comes to return exactly the result, over exactly the nodes, of the sequential account, for every operation and every fate of its calls |
| Solo.ProbeLeads | src/cluster.c:112-200 | the machine's scan, fetch by fetch, ends as the specified probe |
| Solo.CommitLeads | src/cluster.c:90-110 | the machine's body write and CAS, as two steps, end as the specified commit |
| Steps.AdvanceShape | src/cluster.c:90-110 | whatever a client stores is a proposal for its own key, at a place the key belongs to, and a guard it swaps in is that proposal's epoch |
| Chains.EffectChains | src/cluster.c:62-67 | a body write or CAS of any client keeps every probe chain of PRIME and BACKUP, half-finished commits of others included |
| Chains.ChainsAlways | src/cluster.c:123-193 | in every interleaving of any clients and evictors, faults included, no empty slot lies between a key's home and a slot written for it, nor before any candidate a scan or a commit in flight holds |
| Majorities.RecordAlways | src/cluster.c:556-567 | in every interleaving the guards of BACKUP are what the recorded CASes left, each CAS found what the one before on its slot had left, and every vote won, and every rule computed, rests on such CASes |
| Majorities.TwiceNeedsReturn | src/layout.c:156-162 | a guard is swapped away twice only if it has come back in between |
| Majorities.MajoritiesMeet | src/cluster.c:406-429 | in every interleaving of clients, evictors, faults and repairs, two writes of one key that both get rule 1 or 2 have won the same backup one after the other, and there probed different slots or guards, or the guard came back in between |
| Majorities.OneMajority | src/cluster.c:406-429 | so of two writes that probed the same backup slots, with guards that did not come back, one at most gets rule 1 or 2 |
| Ties.SightsAreFetches | src/cluster.c:539-562 | each recorded sight is the slot as it stood in BACKUP when a client, at that vote of that write, fetched it |
| Ties.SeenAlways | src/cluster.c:563-566 | in every interleaving, the tie-breaker a lost vote carries is that of a slot its own scan fetched on its replica, the key's own, a stable tombstone or an empty one; so are the guard compared with and the slot overwritten |
| Ties.RuleThreeUndercuts | src/cluster.c:425-427 | in every interleaving, a write that goes to PRIME under rule 3 has, for each vote it lost, fetched a slot to overwrite whose tie-breaker is zero or above its own |
| Comeback.GuardsCanComeBack | src/cluster.c:484-566 | a run of three clients, with any values, in which two writes probe the same backup slot with the same guard and both get rule 1, a sleeping third having set the guard back |
| CommitOrder.CommitsUnique | src/cluster.c:585-595 | no two successful CASes on a PRIME slot set the same epoch |
| CommitOrder.CommitsOrdered | src/layout.c:156-162 | in every interleaving the guard of a PRIME slot is the number of successful CASes on it, their epochs are 1, 2, 3, ..., and at most one write per slot and epoch returns a rule |
| Values.ValuesAlways | src/cluster.c:90-110 | in every interleaving every VALID slot of every region, and every slot a client holds, is the whole of one proposal |
| Values.NoInventedValues | src/cluster.c:328-378 | in every interleaving a read that finds a value finds one that a started write, no deletion, proposed whole for its key hash at the epoch its PRIME probe saw |
| CacheRuns.CacheHitsArePrime | src/cluster.c:308-356 | with one writer, any refreshing readers and any evictions, while keys keep their PRIME slots: a cache hit is the very slot that PRIME was seen to hold |
| Allocation.SlotConfig.ClearAutomatic | src/config.c:172-177 | clears the automatic counts only, and adds up their weights |
| Allocation.SlotConfig.GiveFloors | src/config.c:182-188 | gives each automatic bucket the floor of its quota and keeps the remainder |
| Allocation.SlotConfig.FindBest | src/config.c:191-202 | finds the automatic bucket with the largest remainder, the earliest among equals |
| Allocation.SlotConfig.AllocateWeightedSlots | src/config.c:138-206 | the result is a largest-remainder division: explicit counts kept, all slots given out, no bucket topped twice, larger remainders first |
| Allocation.SharesAreFair | src/config.c:182-188 | every automatic count is the floor or the ceiling of its exact quota |
| Allocation.SharesAsWeighted | src/config.c:156-188 | what remains is divided 4 : 1 : 4 among the automatic buckets: 9n slots give 4n, n and 4n |
| Allocation.NoMoveIsNearer | src/config.c:182-205 | no slot moved from one automatic bucket to another brings the two nearer to their exact quotas |
| Allocation.PrimeAndBackupClose | src/config.c:190-205 | automatic prime minus automatic backup is 0 or 1 |
| Allocation.DivisionUnique | src/config.c:138-206 | the conditions of the division leave exactly one result |
| Allocation.ToppingLeft | src/config.c:190-205 | while slots are left over, some bucket not yet topped has a remainder |
| Layout.OffsetOfOrdinal | src/layout.c:96-117 | in 64-bit arithmetic the slots of the three regions lie one behind the other |
| Layout.SlotImageIs | include/td_layout.h:10-20 | the serialised fields of a slot take SLOT_BYTES bytes, the guard the first word, and the bytes behind it tell the body |
| Layout.HeaderImageIs | include/td_layout.h:22-34 | the eleven words of the header take HEADER_BYTES bytes |
| Layout.RangeAcceptedIff | src/layout.c:128-154 | a range whose end does not wrap is accepted exactly when every byte of it lies in the memory, a CAS exactly when it is to a word that does |
| Layout.CapacityIsMost | src/config.c:219-224 | the capacity is the largest number of slots that fits behind the header |
| Layout.FittingIsSound | src/layout.c:96-168 | with as many slots as fit, slots are pairwise disjoint, aligned, clear of the header and inside, and every fetch, body write and CAS on them is accepted |
| Layout.TooManyCollide | src/layout.c:96-117 | more than 2^61 slots always collide |
| Layout.NodeConfig.ManualSlots | src/config.c:226 | the configured counts are added in 64 bits |
| Layout.NodeConfig.ResolveSlots | src/config.c:208-247 | a configuration is accepted if and only if it is admissible, with the counts of the one division there is; the cases in which it is rejected |
| Layout.OneHeader | src/config.c:234-246 | an admissible configuration can end with one set of counts only |
| Layout.AcceptedIsSoundIff | src/config.c:226-236 | an accepted configuration has a sound layout if and only if the configured sum did not wrap, and then the counts fill the capacity if any is automatic |
| Layout.WrappedSumIsAccepted | src/config.c:226-233 | for every memory size with room for a slot, a configuration whose sum wraps is admissible, and its layout unsound |
| SizeText.ParseSizeIff | src/config.c:72-136 | a text is read as n exactly when it is digits, perhaps space, one of the units b, kb, mb, gb in any case, perhaps space, and n is the number times 1024^0 to 1024^3, within a word |
| SizeText.PrintedReadsBack | src/mn_main.c:15-30 | reading what was printed gives the same count, for every 64-bit count |
| SizeText.PrintedUnit | src/mn_main.c:15-30 | a count is printed in the largest of the units 1024^0 to 1024^3 that divides it |
| SizeText.LeadingDigit | src/config.c:113 | digits read as a decimal number: the first one counts the power of ten of its place |
| SizeText.DecimalOfValue | src/mn_main.c:15-30 | digits without leading zeros are just those printed for the number they denote |
| SizeText.ParseSizeBytes | src/config.c:72-136 | the reader, position and buffers and all, computes the specified reading |
| SizeText.TakeDigits | src/config.c:87-93 | takes the longest run of digits, or fails when they overrun the buffer |
| SizeText.TakeUnit | src/config.c:98-104 | takes the letters in lower case, or fails when they overrun the buffer |
| SizeText.Scale | src/config.c:112-134 | multiplies by the unit exactly when the unit is known and the product fits a word |

## Left out

* Linearizability for several writers: the body write comes before the CAS and is unconditional, so a loser's body can lie under the winner's guard. For many writers only chains, commit order and genuine values are proved.
* `not found` under concurrency: a reader skips half-committed slots and may miss a key another client is committing; claims about concurrent reads are about found values only.
* Cached reads of faulty runs are not always right, as `StaleCache` shows; `FaultyRuns` speaks of reads with the cache off, and `CachedReads` says exactly when the cache may be on.
* Epochs are unbounded naturals; the 64-bit wrap of an epoch is not modelled. Layout and size arithmetic is in 64 bits.
* Keys are identified with their 64-bit hashes, as the code does after hashing; two keys with one hash are one key.
* AES, HMAC-SHA256, SHA-256 and the key hash are uninterpreted functions; no cryptographic claim is made, and failures to set up a cipher or a MAC are not modelled.
* The flags word is modelled as its two bits VALID and TOMBSTONE.
* Client.Client.ReadValue: opens slots with the specification function, not through a `SlotRecord`; the record's `Decode` is proved equal to it.
* RegionMemory.Region.WriteBody: works on slots, not on bytes; that the byte ranges of these calls are disjoint, aligned and accepted is `Layout.FittingIsSound`.
* RegionMemory.Region.EvictIfNeeded: requires that the run returns, which `Eviction.EvictionReturnsIff` states in numbers; a method cannot be given a run that never ends. All calls are taken to be under the lock, as over TCP.
* Eviction.OverThresholdMeans: its products are unbounded; in 64 bits, with thresholds up to 100, they would wrap beyond 2^57 slots, more than a node can map.
* Majorities.OneMajority: assumes that the guards probed did not come back; `Comeback.GuardsCanComeBack` shows that they can.
* CacheRuns.CacheHitsArePrime: assumes that every key keeps its PRIME slot during the run; `StaleCache` shows what a key that has left its slot can do.
* `FieldStores` stores and fetches whole fields; a field torn inside itself is not modelled.
* In `Machine` the sweep is one step per slot, at any slot and any time, which allows more than the clock does.
* The wait for a change of the primary after a lost vote (src/cluster.c:211-231) only reads, and its result is ignored; its calls are not counted.
* The epoch recorded in a lost vote (src/cluster.c:564), which nothing reads.
* Socket and RDMA plumbing, sessions and control messages, memory mapping, threads and signals, the sleep between evictions.
* Latency profiles, benchmark statistics and workload generation, status output, the interactive shell, configuration lines other than sizes and slot counts.
* `SizeText` takes the C locale's character classes and texts without NUL characters.
