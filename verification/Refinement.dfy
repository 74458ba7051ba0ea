/** One client, no transport failure, no eviction: the cluster is a map, its replicas agree,
    and its caches never disagree with it. */
module Refinement {
  import opened Slots
  import opened Table
  import opened Codec
  import opened Votes
  import opened Cluster
  import opened Effects
  import opened FaultyRuns

  // ----------------------------------------------------------------- invariants

  /** Each replica of k holds exactly s. */
  ghost predicate OnAllReplicas(cfg: Config, nodes: seq<Node>, k: nat, s: Slot)
    requires |nodes| > 0
  {
    forall o :: 1 <= o <= BackupCount(cfg, |nodes|) ==> BackupSlot(nodes, k, o) == Some(s)
  }

  /** Every key live in its primary's PRIME has the identical slot in BACKUP on every one of its replicas. */
  ghost predicate ReplicasAgree(cfg: Config, nodes: seq<Node>)
    requires |nodes| > 0
  {
    forall k :: PrimeLive(nodes, k).Some? ==> OnAllReplicas(cfg, nodes, k, PrimeLive(nodes, k).value)
  }

  ghost predicate CachesOk(nodes: seq<Node>) {
    forall m :: 0 <= m < |nodes| ==> TableOk(nodes[m].cache)
  }

  /** Every live CACHE slot at a key's primary equals the key's live PRIME slot. */
  ghost predicate CachesCoherent(nodes: seq<Node>)
    requires |nodes| > 0
  {
    forall k :: CacheLive(nodes, k).Some? ==> PrimeLive(nodes, k) == CacheLive(nodes, k)
  }

  function CacheLive(nodes: seq<Node>, k: nat): Option<Slot>
    requires |nodes| > 0
  {
    LiveOf(nodes[Primary(k, |nodes|)].cache, k)
  }

  ghost predicate Good(cfg: Config, nodes: seq<Node>) {
    && |nodes| > 0
    && NodesOk(nodes) && Decodable(cfg.crypto, nodes)
    && ReplicasAgree(cfg, nodes)
    && CachesOk(nodes) && (cfg.cacheOn ==> CachesCoherent(nodes))
  }

  lemma FreshGood(cfg: Config, nodes: seq<Node>)
    requires Fresh(nodes)
    ensures Good(cfg, nodes)
  {
    FreshNodes(cfg.crypto, nodes);
    forall k ensures PrimeLive(nodes, k) == None {
      assert ValueOf(cfg.crypto, nodes, k) == None;
    }
  }

  // -------------------------------------------------------------- frame of attempts

  lemma AgreeOn(cfg: Config, nodes: seq<Node>, nodes': seq<Node>, p: Slot, k: nat, s: Slot)
    requires |nodes| > 0 && AllAttempted(nodes, nodes', p) && k != p.body.key && !s.body.tombstone
    requires OnAllReplicas(cfg, nodes, k, s)
    ensures OnAllReplicas(cfg, nodes', k, s)
  {
    forall o | 1 <= o <= BackupCount(cfg, |nodes|) ensures BackupSlot(nodes', k, o) == Some(s) {
      var m := Replica(k, o, |nodes|);
      assert NodeAttempted(nodes[m], nodes'[m], p);
      assert BackupSlot(nodes, k, o) == Some(s);
      assert LiveOf(nodes'[m].backup, k) == LiveOf(nodes[m].backup, k);
    }
  }

  lemma AgreeElsewhere(cfg: Config, nodes: seq<Node>, nodes': seq<Node>, p: Slot)
    requires |nodes| > 0 && ReplicasAgree(cfg, nodes) && AllAttempted(nodes, nodes', p)
    requires PrimeLive(nodes', p.body.key).Some?
             ==> OnAllReplicas(cfg, nodes', p.body.key, PrimeLive(nodes', p.body.key).value)
    ensures ReplicasAgree(cfg, nodes')
  {
    AttemptedElsewhere(nodes, nodes', p);
    forall k | PrimeLive(nodes', k).Some? && k != p.body.key
      ensures OnAllReplicas(cfg, nodes', k, PrimeLive(nodes', k).value)
    {
      AgreeOn(cfg, nodes, nodes', p, k, PrimeLive(nodes, k).value);
    }
  }

  lemma CachesElsewhere(nodes: seq<Node>, nodes': seq<Node>, p: Slot)
    requires |nodes| > 0 && CachesOk(nodes) && CachesCoherent(nodes) && AllAttempted(nodes, nodes', p)
    requires CacheLive(nodes', p.body.key).Some? ==> PrimeLive(nodes', p.body.key) == CacheLive(nodes', p.body.key)
    ensures CachesCoherent(nodes')
  {
    AttemptedElsewhere(nodes, nodes', p);
    forall k | CacheLive(nodes', k).Some? && k != p.body.key ensures PrimeLive(nodes', k) == CacheLive(nodes', k) {
      var m := Primary(k, |nodes|);
      assert NodeAttempted(nodes[m], nodes'[m], p);
    }
  }

  lemma AttemptedCaches(nodes: seq<Node>, nodes': seq<Node>, p: Slot)
    requires CachesOk(nodes) && AllAttempted(nodes, nodes', p)
    ensures CachesOk(nodes')
  {
    forall m | 0 <= m < |nodes'| ensures TableOk(nodes'[m].cache) {
      assert NodeAttempted(nodes[m], nodes'[m], p);
    }
  }

  // -------------------------------------------------------------------- the vote

  /** The replica neither holds the key nor has a place for it. */
  ghost predicate ReplicaFull(nodes: seq<Node>, k: nat, ordinal: nat)
    requires |nodes| > 0
  {
    NoCandidate(nodes[Replica(k, ordinal, |nodes|)].backup, k)
  }

  ghost predicate SomeReplicaFull(cfg: Config, nodes: seq<Node>, k: nat, after: nat)
    requires |nodes| > 0
  {
    exists o :: after < o <= BackupCount(cfg, |nodes|) && ReplicaFull(nodes, k, o)
  }

  /** A replica can be full only for a key that is not live. */
  lemma FullNotLive(cfg: Config, nodes: seq<Node>, k: nat)
    requires |nodes| > 0 && ReplicasAgree(cfg, nodes) && SomeReplicaFull(cfg, nodes, k, 0)
    ensures PrimeLive(nodes, k) == None
  {
    var o :| 0 < o <= BackupCount(cfg, |nodes|) && ReplicaFull(nodes, k, o);
    SlotOfNone(nodes[Replica(k, o, |nodes|)].backup, k);
    assert BackupSlot(nodes, k, o) == None;
    assert PrimeLive(nodes, k).Some? ==> OnAllReplicas(cfg, nodes, k, PrimeLive(nodes, k).value);
  }

  lemma FullElsewhere(cfg: Config, nodes: seq<Node>, k: nat, j: nat, t: SlotArray)
    requires |nodes| > 0 && 1 <= j <= BackupCount(cfg, |nodes|)
    ensures SomeReplicaFull(cfg, Put(nodes, Replica(k, j, |nodes|), Backup, t), k, j)
            <==> SomeReplicaFull(cfg, nodes, k, j)
  {
    var next := Put(nodes, Replica(k, j, |nodes|), Backup, t);
    forall o | j < o <= BackupCount(cfg, |nodes|) ensures ReplicaFull(next, k, o) == ReplicaFull(nodes, k, o) {
      OtherReplica(cfg, nodes, k, t, o, j);
    }
  }

  lemma FullNext(cfg: Config, nodes: seq<Node>, k: nat, idx: nat, t: SlotArray)
    requires |nodes| > 0 && idx < BackupCount(cfg, |nodes|)
    ensures ReplicaFull(nodes, k, idx + 1) ==> SomeReplicaFull(cfg, nodes, k, idx)
    ensures !ReplicaFull(nodes, k, idx + 1) ==>
              (SomeReplicaFull(cfg, Put(nodes, Replica(k, idx + 1, |nodes|), Backup, t), k, idx + 1)
               <==> SomeReplicaFull(cfg, nodes, k, idx))
  {
    FullElsewhere(cfg, nodes, k, idx + 1, t);
  }

  lemma VoteStep(cfg: Config, nodes: seq<Node>, p: Slot, idx: nat, script: Script, clock: nat)
    requires |nodes| > 0 && NodesOk(nodes) && IsProposal(p) && ReliableFrom(script, clock)
    requires idx < BackupCount(cfg, |nodes|)
    ensures var m := Replica(p.body.key, idx + 1, |nodes|);
            var s := Store(nodes[m].backup, p, script, clock);
            && s.clock >= clock
            && (s.reached ==> s.won && NodesOk(Put(nodes, m, Backup, s.table)))
            && (s.reached ==> (SomeReplicaFull(cfg, Put(nodes, m, Backup, s.table), p.body.key, idx + 1)
                               <==> SomeReplicaFull(cfg, nodes, p.body.key, idx)))
            && (!s.reached ==> SomeReplicaFull(cfg, nodes, p.body.key, idx))
  {
    var m := Replica(p.body.key, idx + 1, |nodes|);
    StoreMeets(nodes[m].backup, p, script, clock);
    StoreForward(nodes[m].backup, p, script, clock);
    StoreAttempts(nodes, m, Backup, p, script, clock);
    AttemptedOk(nodes, Offered(nodes, m, Backup, p, script, clock).nodes, p);
    FullNext(cfg, nodes, p.body.key, idx, Store(nodes[m].backup, p, script, clock).table);
    assert ReplicaFull(nodes, p.body.key, idx + 1) == NoCandidate(nodes[m].backup, p.body.key);
  }

  /** The vote b from replica idx + 1 on is full, or is given up because some replica from there on neither has the key
      nor a place for it. */
  ghost predicate Unanimous(cfg: Config, nodes: seq<Node>, k: nat, idx: nat, b: Backups, clock: nat)
    requires |nodes| > 0
  {
    && b.clock >= clock
    && (!b.aborted ==> forall i :: 0 <= i < |b.votes| ==> b.votes[i].success)
    && (b.aborted <==> SomeReplicaFull(cfg, nodes, k, idx))
  }

  lemma UnanimousOn(cfg: Config, nodes: seq<Node>, next: seq<Node>, k: nat, idx: nat, b: Backups, clock: nat, now: nat)
    requires |next| == |nodes| > 0 && now >= clock && Unanimous(cfg, next, k, idx + 1, b, now)
    requires SomeReplicaFull(cfg, next, k, idx + 1) <==> SomeReplicaFull(cfg, nodes, k, idx)
    ensures Unanimous(cfg, nodes, k, idx, b, clock)
  {
  }

  lemma UnanimousEnd(cfg: Config, nodes: seq<Node>, k: nat, votes: seq<Vote>, clock: nat)
    requires |nodes| > 0 && |votes| == BackupCount(cfg, |nodes|) && forall i :: 0 <= i < |votes| ==> votes[i].success
    ensures Unanimous(cfg, nodes, k, |votes|, Backups(nodes, votes, false, clock), clock)
  {
  }

  /** Without faults the vote is unanimous. */
  lemma {:induction false} FullVote(cfg: Config, nodes: seq<Node>, p: Slot, idx: nat, votes: seq<Vote>, script: Script,
                                    clock: nat)
    requires |nodes| > 0 && NodesOk(nodes) && IsProposal(p) && ReliableFrom(script, clock)
    requires idx <= |votes| == BackupCount(cfg, |nodes|)
    requires forall i :: 0 <= i < idx ==> votes[i].success
    ensures Unanimous(cfg, nodes, p.body.key, idx, BackupPhase(nodes, p, idx, votes, script, clock), clock)
    decreases |votes| - idx
  {
    if idx == |votes| {
      UnanimousEnd(cfg, nodes, p.body.key, votes, clock);
    } else {
      var k := p.body.key;
      var m := Replica(k, idx + 1, |nodes|);
      var s := Store(nodes[m].backup, p, script, clock);
      VoteStep(cfg, nodes, p, idx, script, clock);
      if s.reached {
        var next, voted := Put(nodes, m, Backup, s.table), votes[idx := VoteOf(s)];
        FullVote(cfg, next, p, idx + 1, voted, script, s.clock);
        UnanimousOn(cfg, nodes, next, k, idx, BackupPhase(next, p, idx + 1, voted, script, s.clock), clock, s.clock);
      }
    }
  }

  // ---------------------------------------------------------------------- writing

  /** CACHE holds what PRIME holds of the key, or is full for it. */
  ghost predicate Cached(nodes: seq<Node>, k: nat)
    requires |nodes| > 0
  {
    var t := nodes[Primary(k, |nodes|)].cache;
    SlotOf(t, k) == PrimeSlot(nodes, k) || NoCandidate(t, k)
  }

  lemma RefreshCoherent(cfg: Config, nodes: seq<Node>, p: Slot, script: Script, clock: nat)
    requires |nodes| > 0 && NodesOk(nodes) && CachesOk(nodes) && IsProposal(p) && ReliableFrom(script, clock)
    requires PrimeSlot(nodes, p.body.key) == Some(p)
    ensures var r := RefreshCache(cfg, nodes, p, script, clock);
            && AllAttempted(nodes, r.nodes, p)
            && (cfg.cacheOn && CacheLive(r.nodes, p.body.key).Some? ==>
                  PrimeLive(r.nodes, p.body.key) == CacheLive(r.nodes, p.body.key))
            && (cfg.cacheOn ==> Cached(r.nodes, p.body.key))
            && (forall m :: 0 <= m < |nodes| ==>
                  r.nodes[m].prime == nodes[m].prime && r.nodes[m].backup == nodes[m].backup)
  {
    var m := Primary(p.body.key, |nodes|);
    if cfg.cacheOn {
      StoreAttempts(nodes, m, Cache, p, script, clock);
      StoreMeets(nodes[m].cache, p, script, clock);
    } else {
      NothingAttempted(nodes, p);
    }
  }

  lemma CommitPhaseGood(cfg: Config, b: Backups, prim: nat, q: Probe, p: Slot, rule: nat, script: Script)
    requires |b.nodes| > 0 && NodesOk(b.nodes) && CachesOk(b.nodes) && |b.votes| == BackupCount(cfg, |b.nodes|)
    requires prim == Primary(p.body.key, |b.nodes|) && IsProposal(p)
    requires ProbeMeets(b.nodes[prim].prime, p.body.key, Some(q))
    requires rule > 0 && ReliableFrom(script, b.clock)
    requires forall i :: 0 <= i < |b.votes| ==> b.votes[i].success
    requires OnAllReplicas(cfg, b.nodes, p.body.key, p)
    ensures var r := CommitPhase(cfg, b, prim, q, p, rule, script);
            && r.rule == rule
            && AllAttempted(b.nodes, r.nodes, p)
            && PrimeSlot(r.nodes, p.body.key) == Some(p)
            && OnAllReplicas(cfg, r.nodes, p.body.key, p)
            && (cfg.cacheOn && CacheLive(r.nodes, p.body.key).Some? ==>
                  PrimeLive(r.nodes, p.body.key) == CacheLive(r.nodes, p.body.key))
            && (cfg.cacheOn ==> Cached(r.nodes, p.body.key))
  {
    var k := p.body.key;
    var t := b.nodes[prim].prime;
    var c := CommitSlot(t, q.candIndex, p, q.cand.guard, script, b.clock);
    CommitAttempts(t, q, p, script, b.clock);
    CommitPhaseAttempts(cfg, b, prim, q, p, rule, script);
    var committed := Put(b.nodes, prim, Prime, c.table);
    PutAttempted(b.nodes, prim, Prime, c.table, p);
    AttemptedOk(b.nodes, committed, p);
    AttemptedCaches(b.nodes, committed, p);
    NothingToRepair(committed, p, 0, b.votes, script, c.clock);
    RefreshCoherent(cfg, committed, p, script, c.clock);
    var r := CommitPhase(cfg, b, prim, q, p, rule, script);
    forall o | 1 <= o <= BackupCount(cfg, |b.nodes|) ensures BackupSlot(r.nodes, k, o) == Some(p) {
      assert BackupSlot(b.nodes, k, o) == Some(p);
    }
  }

  lemma {:induction false} NothingToRepair(nodes: seq<Node>, p: Slot, idx: nat, votes: seq<Vote>, script: Script,
                                           clock: nat)
    requires |nodes| > 0 && idx <= |votes| && forall i :: 0 <= i < |votes| ==> votes[i].success
    ensures RepairPhase(nodes, p, idx, votes, script, clock) == Touched(nodes, clock)
    decreases |votes| - idx
  {
    if idx < |votes| {
      NothingToRepair(nodes, p, idx + 1, votes, script, clock);
    }
  }

  /** The primary or some replica neither holds the key nor has a place for it. */
  ghost predicate NoPlace(cfg: Config, nodes: seq<Node>, k: nat)
    requires |nodes| > 0
  {
    PrimeFull(nodes, k) || SomeReplicaFull(cfg, nodes, k, 0)
  }

  /** When a write over a good cluster is refused: when the value is too long, the key to update is not live, or
      there is no place for it; and that in all cases replicas go on agreeing and caches stay current. */
  ghost predicate SettledWrite(cfg: Config, nodes: seq<Node>, w: Write, r: Written)
    requires |nodes| > 0 && |r.nodes| == |nodes|
  {
    var k := cfg.crypto.hash(w.key);
    && (r.rule == 1 || r.rule == -1)
    && (r.rule == -1 <==>
          |w.value| > MAX_VALUE_SIZE || (w.updateOnly && PrimeLive(nodes, k) == None) || NoPlace(cfg, nodes, k))
    && (r.rule == -1 ==> PrimeLive(nodes, k) == None || |w.value| > MAX_VALUE_SIZE)
    && (r.rule == -1 ==> forall m :: 0 <= m < |nodes| ==> r.nodes[m].prime == nodes[m].prime)
    && (r.rule == 1 && cfg.cacheOn ==> Cached(r.nodes, k))
    && ReplicasAgree(cfg, r.nodes) && CachesOk(r.nodes) && (cfg.cacheOn ==> CachesCoherent(r.nodes))
  }

  /** How a write over a good cluster turns out. */
  ghost predicate GoodWrite(cfg: Config, nodes: seq<Node>, w: Write, r: Written)
    requires |nodes| > 0 && |r.nodes| == |nodes|
  {
    Good(cfg, r.nodes) && SettledWrite(cfg, nodes, w, r) && ValueEffect(cfg.crypto, nodes, w, r)
  }

  lemma AttemptGood(cfg: Config, nodes: seq<Node>, nodes': seq<Node>, p: Slot)
    requires Good(cfg, nodes) && AllAttempted(nodes, nodes', p)
    requires PrimeLive(nodes', p.body.key).Some?
             ==> OnAllReplicas(cfg, nodes', p.body.key, PrimeLive(nodes', p.body.key).value)
    requires cfg.cacheOn && CacheLive(nodes', p.body.key).Some?
             ==> PrimeLive(nodes', p.body.key) == CacheLive(nodes', p.body.key)
    ensures ReplicasAgree(cfg, nodes') && CachesOk(nodes') && (cfg.cacheOn ==> CachesCoherent(nodes'))
  {
    AgreeElsewhere(cfg, nodes, nodes', p);
    AttemptedCaches(nodes, nodes', p);
    if cfg.cacheOn {
      CachesElsewhere(nodes, nodes', p);
    }
  }

  lemma FullVoteHolds(cfg: Config, nodes: seq<Node>, p: Slot, votes: seq<Vote>)
    requires |nodes| > 0 && |votes| == BackupCount(cfg, |nodes|) && VotesTrue(nodes, p, votes)
    requires forall i :: 0 <= i < |votes| ==> votes[i].success
    ensures OnAllReplicas(cfg, nodes, p.body.key, p) && Rule(votes, p.body.tie) == 1
  {
    SuccessesAll(votes);
    forall o | 1 <= o <= BackupCount(cfg, |nodes|) ensures BackupSlot(nodes, p.body.key, o) == Some(p) {
      assert votes[o - 1].success;
      assert OnReplica(nodes, p, o - 1 + 1);
    }
  }

  /** How the proposal for k over a good cluster turns out. */
  ghost predicate SettledProposal(cfg: Config, nodes: seq<Node>, k: nat, r: Written)
    requires |nodes| > 0 && |r.nodes| == |nodes|
  {
    && (r.rule == 1 || r.rule == -1)
    && (r.rule == -1 <==> SomeReplicaFull(cfg, nodes, k, 0))
    && (r.rule == -1 ==> PrimeLive(nodes, k) == None)
    && (r.rule == -1 ==> forall m :: 0 <= m < |nodes| ==> r.nodes[m].prime == nodes[m].prime)
    && (r.rule == 1 && cfg.cacheOn ==> Cached(r.nodes, k))
    && ReplicasAgree(cfg, r.nodes) && CachesOk(r.nodes) && (cfg.cacheOn ==> CachesCoherent(r.nodes))
  }

  lemma GivenUpGood(cfg: Config, nodes: seq<Node>, p: Slot, b: Backups)
    requires Good(cfg, nodes) && Taken(nodes, p, b) && SomeReplicaFull(cfg, nodes, p.body.key, 0)
    requires forall m :: 0 <= m < |nodes| ==> b.nodes[m].prime == nodes[m].prime && b.nodes[m].cache == nodes[m].cache
    ensures |b.nodes| == |nodes| && SettledProposal(cfg, nodes, p.body.key, Written(b.nodes, -1, b.clock))
  {
    FullNotLive(cfg, nodes, p.body.key);
    AttemptGood(cfg, nodes, b.nodes, p);
  }

  lemma VotedGood(cfg: Config, nodes: seq<Node>, q: Probe, p: Slot, b: Backups, script: Script)
    requires Good(cfg, nodes) && IsProposal(p) && Taken(nodes, p, b) && |b.votes| == BackupCount(cfg, |nodes|)
    requires ProbeMeets(b.nodes[Primary(p.body.key, |nodes|)].prime, p.body.key, Some(q))
    requires ReliableFrom(script, b.clock) && !SomeReplicaFull(cfg, nodes, p.body.key, 0)
    requires forall i :: 0 <= i < |b.votes| ==> b.votes[i].success
    ensures SettledProposal(cfg, nodes, p.body.key, CommitPhase(cfg, b, Primary(p.body.key, |nodes|), q, p, 1, script))
    ensures Rule(b.votes, p.body.tie) == 1
  {
    var r := CommitPhase(cfg, b, Primary(p.body.key, |nodes|), q, p, 1, script);
    AttemptedOk(nodes, b.nodes, p);
    AttemptedCaches(nodes, b.nodes, p);
    FullVoteHolds(cfg, b.nodes, p, b.votes);
    CommitPhaseGood(cfg, b, Primary(p.body.key, |nodes|), q, p, 1, script);
    AllAttemptedAgain(nodes, b.nodes, r.nodes, p);
    AttemptGood(cfg, nodes, r.nodes, p);
  }

  lemma ProposeGood(cfg: Config, nodes: seq<Node>, q: Probe, p: Slot, script: Script, clock: nat)
    requires Good(cfg, nodes) && IsProposal(p) && ReliableFrom(script, clock)
    requires ProbeMeets(nodes[Primary(p.body.key, |nodes|)].prime, p.body.key, Some(q))
    ensures SettledProposal(cfg, nodes, p.body.key,
                            Propose(cfg, nodes, Primary(p.body.key, |nodes|), q, p, script, clock))
  {
    var votes := NoVotes(BackupCount(cfg, |nodes|));
    var b := BackupPhase(nodes, p, 0, votes, script, clock);
    BackupPhaseAttempts(cfg, nodes, p, 0, votes, script, clock);
    FullVote(cfg, nodes, p, 0, votes, script, clock);
    if b.aborted {
      GivenUpGood(cfg, nodes, p, b);
    } else {
      VotedGood(cfg, nodes, q, p, b, script);
    }
  }

  lemma WriteOutcome(cfg: Config, nodes: seq<Node>, w: Write, script: Script, clock: nat)
    requires Good(cfg, nodes) && ReliableFrom(script, clock)
    ensures SettledWrite(cfg, nodes, w, WriteValue(cfg, nodes, w, script, clock))
  {
    var k := cfg.crypto.hash(w.key);
    var t := nodes[Primary(k, |nodes|)].prime;
    var probed := ProbeSlot(t, k, script, clock);
    ProbeMeetsTable(t, k, script, clock);
    ClockForwardFrom(t, k, 0, NO_PROBE, script, clock);
    SlotOfNone(t, k);
    if probed.result.Some? {
      var q := probed.result.value;
      assert w.updateOnly && !(q.found && q.slot.Present(k)) <==> w.updateOnly && PrimeLive(nodes, k) == None;
      var made := MakeSlot(cfg.crypto, w.key, w.value, w.tombstone, q.cand.guard + 1);
      if !(w.updateOnly && !(q.found && q.slot.Present(k))) && made.Some? {
        WriteProposes(cfg, nodes, w, script, clock, q, made.value);
        ProposeGood(cfg, nodes, q, made.value, script, probed.clock);
      }
    }
  }

  /** Without faults a write succeeds under rule 1, sets the value and refreshes the cache, or is refused and changes no
      PRIME slot; of the keys that are live, none is refused but for a value that is too long. */
  lemma WriteGood(cfg: Config, nodes: seq<Node>, w: Write, script: Script, clock: nat)
    requires Good(cfg, nodes) && ReliableFrom(script, clock)
    ensures GoodWrite(cfg, nodes, w, WriteValue(cfg, nodes, w, script, clock))
  {
    WriteOutcome(cfg, nodes, w, script, clock);
    WriteValues(cfg, nodes, w, script, clock);
  }

  // ---------------------------------------------------------------------- reading

  ghost predicate GoodRead(cfg: Config, nodes: seq<Node>, key: string, r: Answer)
    requires |nodes| > 0 && |r.nodes| == |nodes|
  {
    var k := cfg.crypto.hash(key);
    && Good(cfg, r.nodes)
    && (forall m :: 0 <= m < |nodes| ==> r.nodes[m].prime == nodes[m].prime)
    && r.reply == ReplyDue(ValueOf(cfg.crypto, nodes, k), PrimeFull(nodes, k))
    && (r.reply.Found? && cfg.cacheOn ==> Cached(r.nodes, k))
  }

  lemma SamePrimes(cfg: Config, nodes: seq<Node>, nodes': seq<Node>)
    requires |nodes| == |nodes'| > 0
    requires forall m :: 0 <= m < |nodes| ==> nodes'[m].prime == nodes[m].prime
    ensures forall k :: PrimeLive(nodes', k) == PrimeLive(nodes, k)
  {
    forall k ensures PrimeLive(nodes', k) == PrimeLive(nodes, k) {
      assert nodes'[Primary(k, |nodes|)].prime == nodes[Primary(k, |nodes|)].prime;
    }
  }

  lemma RefreshGood(cfg: Config, nodes: seq<Node>, p: Slot, script: Script, clock: nat)
    requires Good(cfg, nodes) && IsProposal(p) && ReliableFrom(script, clock)
    requires PrimeSlot(nodes, p.body.key) == Some(p)
    ensures Good(cfg, RefreshCache(cfg, nodes, p, script, clock).nodes)
  {
    var r := RefreshCache(cfg, nodes, p, script, clock);
    RefreshCoherent(cfg, nodes, p, script, clock);
    AttemptedOk(nodes, r.nodes, p);
    AttemptedCaches(nodes, r.nodes, p);
    SamePrimes(cfg, nodes, r.nodes);
    if cfg.cacheOn {
      CachesElsewhere(nodes, r.nodes, p);
    }
    forall k | PrimeLive(r.nodes, k).Some? ensures OnAllReplicas(cfg, r.nodes, k, PrimeLive(r.nodes, k).value) {
      assert OnAllReplicas(cfg, nodes, k, PrimeLive(nodes, k).value);
      forall o | 1 <= o <= BackupCount(cfg, |nodes|) ensures BackupSlot(r.nodes, k, o) == BackupSlot(nodes, k, o) {
        assert r.nodes[Replica(k, o, |nodes|)].backup == nodes[Replica(k, o, |nodes|)].backup;
      }
    }
  }

  lemma ReadPrimeGood(cfg: Config, nodes: seq<Node>, key: string, q: Probe, script: Script, clock: nat)
    requires Good(cfg, nodes) && ReliableFrom(script, clock)
    requires ProbeMeets(nodes[Primary(cfg.crypto.hash(key), |nodes|)].prime, cfg.crypto.hash(key), Some(q))
    ensures GoodRead(cfg, nodes, key, ReadPrime(cfg, nodes, cfg.crypto.hash(key), q, script, clock))
  {
    var k := cfg.crypto.hash(key);
    if q.found && q.slot.Present(k) {
      assert PrimeLive(nodes, k) == Some(q.slot);
      assert IsProposal(q.slot) by {
        assert SlotOk(nodes[Primary(k, |nodes|)].prime[q.candIndex]);
      }
      RefreshGood(cfg, nodes, q.slot, script, clock);
      RefreshCoherent(cfg, nodes, q.slot, script, clock);
    }
  }

  /** Without faults a read replies with the key's value, from CACHE or from PRIME; without one it finds nothing, or
      errs where PRIME is full for the key. */
  lemma ReadGood(cfg: Config, nodes: seq<Node>, key: string, script: Script, clock: nat)
    requires Good(cfg, nodes) && ReliableFrom(script, clock)
    ensures GoodRead(cfg, nodes, key, ReadValue(cfg, nodes, key, script, clock))
  {
    var k := cfg.crypto.hash(key);
    var prim := Primary(k, |nodes|);
    var t := nodes[prim].prime;
    var probed := ProbeSlot(t, k, script, clock);
    ProbeMeetsTable(t, k, script, clock);
    ClockForwardFrom(t, k, 0, NO_PROBE, script, clock);
    if probed.result.None? {
      SlotOfNone(t, k);
    } else if !cfg.cacheOn {
      ReadPrimeGood(cfg, nodes, key, probed.result.value, script, probed.clock);
    } else {
      var cached := ProbeSlot(nodes[prim].cache, k, script, probed.clock);
      ProbeMeetsTable(nodes[prim].cache, k, script, probed.clock);
      ClockForwardFrom(nodes[prim].cache, k, 0, NO_PROBE, script, probed.clock);
      ReadPrimeGood(cfg, nodes, key, probed.result.value, script, cached.clock);
      if cached.result.Some? && CacheConsistent(probed.result.value, cached.result.value, k) {
        assert CacheLive(nodes, k) == Some(cached.result.value.slot);
      }
    }
  }

  /** With the cache on or off, reads of a coherent cluster agree. */
  lemma CachedReadsAgree(cfg: Config, nodes: seq<Node>, key: string, script: Script, clock: nat)
    requires cfg.cacheOn && Good(cfg, nodes) && ReliableFrom(script, clock)
    ensures var on := ReadValue(cfg, nodes, key, script, clock).reply;
            var off := ReadValue(cfg.(cacheOn := false), nodes, key, script, clock).reply;
            on == off
  {
    ReadGood(cfg, nodes, key, script, clock);
    ReadGood(cfg.(cacheOn := false), nodes, key, script, clock);
  }

  // --------------------------------------------------------------------- refinement

  type Mapping = map<nat, seq<byte>>

  function StoreAfter(c: Crypto, store: Mapping, op: Op, result: Result): Mapping {
    match (op, result)
    case (DoWrite(w), Ruled(1)) => if w.tombstone then store - {c.hash(w.key)} else store[c.hash(w.key) := w.value]
    case _ => store
  }

  /** What a map answers to an operation, given whether there is room for its key. A refused write leaves the map
      alone, and no write to a live key with a value within the limit is refused. */
  predicate StoreAnswers(c: Crypto, store: Mapping, op: Op, full: bool, result: Result) {
    match (op, result)
    case (DoWrite(w), Ruled(rule)) =>
      && rule in {1, -1}
      && (rule == -1 <==> |w.value| > MAX_VALUE_SIZE || (w.updateOnly && c.hash(w.key) !in store) || full)
      && (rule == -1 ==> |w.value| > MAX_VALUE_SIZE || c.hash(w.key) !in store)
    case (DoRead(key), Replied(reply)) => reply == ReplyDue(Lookup(store, c.hash(key)), full)
    case _ => false
  }

  /** No room for the key of an operation: for a write, in PRIME or on some replica; for a read, in PRIME. */
  ghost predicate NoRoom(cfg: Config, nodes: seq<Node>, op: Op)
    requires |nodes| > 0
  {
    match op
    case DoWrite(w) => NoPlace(cfg, nodes, cfg.crypto.hash(w.key))
    case DoRead(key) => PrimeFull(nodes, cfg.crypto.hash(key))
  }

  function StoreRun(c: Crypto, ops: seq<Op>, results: seq<Result>): Mapping
    requires |ops| == |results|
  {
    if ops == [] then map[]
    else
      var n := |ops| - 1;
      StoreAfter(c, StoreRun(c, ops[..n], results[..n]), ops[n], results[n])
  }

  function Lookup(store: Mapping, k: nat): Option<seq<byte>> {
    if k in store then Some(store[k]) else None
  }

  ghost predicate Represents(c: Crypto, nodes: seq<Node>, store: Mapping)
    requires |nodes| > 0
  {
    forall k :: ValueOf(c, nodes, k) == Lookup(store, k)
  }

  lemma LookupAfter(c: Crypto, store: Mapping, w: Write, rule: int, k: nat)
    requires rule in {1, -1}
    ensures Lookup(StoreAfter(c, store, DoWrite(w), Ruled(rule)), k)
         == if k == c.hash(w.key) && rule == 1 then ValueWritten(w) else Lookup(store, k)
  {
  }

  lemma RepresentsAfter(c: Crypto, nodes: seq<Node>, nodes': seq<Node>, store: Mapping, w: Write, rule: int)
    requires |nodes| > 0 && |nodes'| > 0 && Represents(c, nodes, store) && rule in {1, -1}
    requires forall k :: k != c.hash(w.key) || rule == -1 ==> ValueOf(c, nodes', k) == ValueOf(c, nodes, k)
    requires rule == 1 ==> ValueOf(c, nodes', c.hash(w.key)) == ValueWritten(w)
    ensures Represents(c, nodes', StoreAfter(c, store, DoWrite(w), Ruled(rule)))
  {
    forall k ensures ValueOf(c, nodes', k) == Lookup(StoreAfter(c, store, DoWrite(w), Ruled(rule)), k) {
      LookupAfter(c, store, w, rule, k);
      assert ValueOf(c, nodes, k) == Lookup(store, k);
    }
  }

  lemma WriteRefines(cfg: Config, nodes: seq<Node>, store: Mapping, w: Write, script: Script, clock: nat)
    requires Good(cfg, nodes) && Represents(cfg.crypto, nodes, store) && ReliableFrom(script, clock)
    ensures var r := WriteValue(cfg, nodes, w, script, clock);
            && Good(cfg, r.nodes)
            && StoreAnswers(cfg.crypto, store, DoWrite(w), NoRoom(cfg, nodes, DoWrite(w)), Ruled(r.rule))
            && Represents(cfg.crypto, r.nodes, StoreAfter(cfg.crypto, store, DoWrite(w), Ruled(r.rule)))
  {
    var r := WriteValue(cfg, nodes, w, script, clock);
    var k := cfg.crypto.hash(w.key);
    WriteGood(cfg, nodes, w, script, clock);
    if r.rule == -1 {
      SamePrimes(cfg, nodes, r.nodes);
    }
    RepresentsAfter(cfg.crypto, nodes, r.nodes, store, w, r.rule);
    assert ValueOf(cfg.crypto, nodes, k) == Lookup(store, k);
  }

  lemma ReadRefines(cfg: Config, nodes: seq<Node>, store: Mapping, key: string, script: Script, clock: nat)
    requires Good(cfg, nodes) && Represents(cfg.crypto, nodes, store) && ReliableFrom(script, clock)
    ensures var r := ReadValue(cfg, nodes, key, script, clock);
            && Good(cfg, r.nodes)
            && StoreAnswers(cfg.crypto, store, DoRead(key), NoRoom(cfg, nodes, DoRead(key)), Replied(r.reply))
            && Represents(cfg.crypto, r.nodes, store)
  {
    var k := cfg.crypto.hash(key);
    ReadGood(cfg, nodes, key, script, clock);
    SamePrimes(cfg, nodes, ReadValue(cfg, nodes, key, script, clock).nodes);
    assert ValueOf(cfg.crypto, nodes, k) == Lookup(store, k);
  }

  lemma StepRefines(cfg: Config, nodes: seq<Node>, store: Mapping, op: Op, script: Script, clock: nat)
    requires Good(cfg, nodes) && Represents(cfg.crypto, nodes, store) && ReliableFrom(script, clock)
    ensures var d := Step(cfg, nodes, op, script, clock);
            && Good(cfg, d.nodes)
            && StoreAnswers(cfg.crypto, store, op, NoRoom(cfg, nodes, op), d.result)
            && Represents(cfg.crypto, d.nodes, StoreAfter(cfg.crypto, store, op, d.result))
  {
    match op
    case DoWrite(w) => WriteRefines(cfg, nodes, store, w, script, clock);
    case DoRead(key) => ReadRefines(cfg, nodes, store, key, script, clock);
  }

  /** The i-th result is the one a map gives after the operations before it. */
  ghost predicate AnswersAt(cfg: Config, nodes: seq<Node>, ops: seq<Op>, script: Script, results: seq<Result>, i: nat)
    requires |nodes| > 0 && i < |ops| == |results|
  {
    StoreAnswers(cfg.crypto, StoreRun(cfg.crypto, ops[..i], results[..i]), ops[i],
                 NoRoom(cfg, Run(cfg, nodes, ops[..i], script, 0).nodes, ops[i]), results[i])
  }

  ghost predicate AllAnswer(cfg: Config, nodes: seq<Node>, ops: seq<Op>, script: Script, results: seq<Result>)
    requires |nodes| > 0 && |ops| == |results|
  {
    forall i :: 0 <= i < |ops| ==> AnswersAt(cfg, nodes, ops, script, results, i)
  }

  lemma AnswersEarlier(cfg: Config, nodes: seq<Node>, ops: seq<Op>, script: Script, results: seq<Result>, n: nat,
                       i: nat)
    requires |nodes| > 0 && i < n <= |ops| == |results|
    ensures AnswersAt(cfg, nodes, ops[..n], script, results[..n], i) == AnswersAt(cfg, nodes, ops, script, results, i)
  {
    assert ops[..n][..i] == ops[..i] && results[..n][..i] == results[..i];
  }

  lemma AnswersNext(cfg: Config, nodes: seq<Node>, ops: seq<Op>, script: Script, results: seq<Result>)
    requires |nodes| > 0 && |ops| == |results| > 0
    requires AllAnswer(cfg, nodes, ops[..|ops| - 1], script, results[..|ops| - 1])
    requires AnswersAt(cfg, nodes, ops, script, results, |ops| - 1)
    ensures AllAnswer(cfg, nodes, ops, script, results)
  {
    forall i | 0 <= i < |ops| - 1 ensures AnswersAt(cfg, nodes, ops, script, results, i) {
      AnswersEarlier(cfg, nodes, ops, script, results, |ops| - 1, i);
      assert AnswersAt(cfg, nodes, ops[..|ops| - 1], script, results[..|ops| - 1], i);
    }
  }

  lemma FreshRefines(cfg: Config, nodes: seq<Node>)
    requires Fresh(nodes)
    ensures Good(cfg, nodes) && Represents(cfg.crypto, nodes, map[])
  {
    FreshGood(cfg, nodes);
    FreshNodes(cfg.crypto, nodes);
  }

  /** Every sequence of operations on a fresh cluster is answered as a map would answer it, step by step,
      and leaves the cluster standing for that map, its replicas in agreement and its caches coherent. */
  lemma {:induction false} RunRefines(cfg: Config, nodes: seq<Node>, ops: seq<Op>, script: Script)
    requires Fresh(nodes) && ReliableFrom(script, 0)
    ensures var r := Run(cfg, nodes, ops, script, 0);
            && Good(cfg, r.nodes)
            && Represents(cfg.crypto, r.nodes, StoreRun(cfg.crypto, ops, r.results))
            && AllAnswer(cfg, nodes, ops, script, r.results)
  {
    if ops == [] {
      FreshRefines(cfg, nodes);
    } else {
      var n := |ops| - 1;
      var before := Run(cfg, nodes, ops[..n], script, 0);
      var r := Run(cfg, nodes, ops, script, 0);
      RunRefines(cfg, nodes, ops[..n], script);
      assert r.results[..n] == before.results;
      StepRefines(cfg, before.nodes, StoreRun(cfg.crypto, ops[..n], before.results), ops[n], script, before.clock);
      AnswersNext(cfg, nodes, ops, script, r.results);
    }
  }
}
