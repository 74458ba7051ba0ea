/** What one read or write may do to the nodes when any transport call of it may be lost. */
module Effects {
  import opened Slots
  import opened Table
  import opened Votes
  import opened Cluster

  /** PRIME and BACKUP of every node are in order; CACHE need not be, its slots may be evicted. */
  ghost predicate NodesOk(nodes: seq<Node>) {
    forall m :: 0 <= m < |nodes| ==> TableOk(nodes[m].prime) && TableOk(nodes[m].backup)
  }

  function PrimeSlot(nodes: seq<Node>, k: nat): Option<Slot>
    requires |nodes| > 0
  {
    SlotOf(nodes[Primary(k, |nodes|)].prime, k)
  }

  function PrimeLive(nodes: seq<Node>, k: nat): Option<Slot>
    requires |nodes| > 0
  {
    LiveOf(nodes[Primary(k, |nodes|)].prime, k)
  }

  function BackupSlot(nodes: seq<Node>, k: nat, ordinal: nat): Option<Slot>
    requires |nodes| > 0
  {
    SlotOf(nodes[Replica(k, ordinal, |nodes|)].backup, k)
  }

  ghost predicate NodeAttempted(n: Node, n': Node, p: Slot) {
    && Attempted(n.prime, n'.prime, p)
    && Attempted(n.backup, n'.backup, p)
    && (TableOk(n.cache) ==> Attempted(n.cache, n'.cache, p))
  }

  /** Everywhere, at most attempts to store p were made. */
  ghost predicate AllAttempted(nodes: seq<Node>, nodes': seq<Node>, p: Slot) {
    && |nodes'| == |nodes|
    && forall m :: 0 <= m < |nodes| ==> NodeAttempted(nodes[m], nodes'[m], p)
  }

  lemma NothingAttempted(nodes: seq<Node>, p: Slot)
    requires NodesOk(nodes)
    ensures AllAttempted(nodes, nodes, p)
  {
    forall m | 0 <= m < |nodes| ensures NodeAttempted(nodes[m], nodes[m], p) {
      AttemptedNothing(nodes[m].prime, p);
      AttemptedNothing(nodes[m].backup, p);
      if TableOk(nodes[m].cache) {
        AttemptedNothing(nodes[m].cache, p);
      }
    }
  }

  lemma NodeAttemptAgain(n0: Node, n1: Node, n2: Node, p: Slot)
    requires NodeAttempted(n0, n1, p) && NodeAttempted(n1, n2, p)
    ensures NodeAttempted(n0, n2, p)
  {
    AttemptAgain(n0.prime, n1.prime, n2.prime, p);
    AttemptAgain(n0.backup, n1.backup, n2.backup, p);
    if TableOk(n0.cache) {
      AttemptAgain(n0.cache, n1.cache, n2.cache, p);
    }
  }

  lemma AllAttemptedAgain(n0: seq<Node>, n1: seq<Node>, n2: seq<Node>, p: Slot)
    requires AllAttempted(n0, n1, p) && AllAttempted(n1, n2, p)
    ensures AllAttempted(n0, n2, p)
  {
    forall m | 0 <= m < |n0| ensures NodeAttempted(n0[m], n2[m], p) {
      assert NodeAttempted(n0[m], n1[m], p) && NodeAttempted(n1[m], n2[m], p);
      NodeAttemptAgain(n0[m], n1[m], n2[m], p);
    }
  }

  lemma AttemptedOk(nodes: seq<Node>, nodes': seq<Node>, p: Slot)
    requires AllAttempted(nodes, nodes', p)
    ensures NodesOk(nodes')
  {
    forall m | 0 <= m < |nodes'| ensures TableOk(nodes'[m].prime) && TableOk(nodes'[m].backup) {
      assert NodeAttempted(nodes[m], nodes'[m], p);
    }
  }

  lemma PutAttempted(nodes: seq<Node>, m: nat, kind: Kind, t: SlotArray, p: Slot)
    requires NodesOk(nodes) && m < |nodes|
    requires TableOk(nodes[m].Part(kind)) ==> Attempted(nodes[m].Part(kind), t, p)
    ensures AllAttempted(nodes, Put(nodes, m, kind, t), p)
  {
    NothingAttempted(nodes, p);
    var nodes' := Put(nodes, m, kind, t);
    forall i | 0 <= i < |nodes| ensures NodeAttempted(nodes[i], nodes'[i], p) {
      assert NodeAttempted(nodes[i], nodes[i], p);
    }
  }

  lemma StoreAttempts(nodes: seq<Node>, m: nat, kind: Kind, p: Slot, script: Script, clock: nat)
    requires NodesOk(nodes) && m < |nodes| && IsProposal(p)
    ensures AllAttempted(nodes, Offered(nodes, m, kind, p, script, clock).nodes, p)
  {
    if TableOk(nodes[m].Part(kind)) {
      StoreMeets(nodes[m].Part(kind), p, script, clock);
    }
    PutAttempted(nodes, m, kind, Store(nodes[m].Part(kind), p, script, clock).table, p);
  }

  // --------------------------------------------------------------------- the vote

  ghost predicate OnReplica(nodes: seq<Node>, p: Slot, ordinal: nat)
    requires |nodes| > 0
  {
    BackupSlot(nodes, p.body.key, ordinal) == Some(p)
  }

  /** A vote recorded as won stands for a replica that holds the proposal. */
  ghost predicate VotesTrue(nodes: seq<Node>, p: Slot, votes: seq<Vote>)
    requires |nodes| > 0
  {
    forall i :: 0 <= i < |votes| && votes[i].success ==> OnReplica(nodes, p, i + 1)
  }

  lemma OtherReplica(cfg: Config, nodes: seq<Node>, k: nat, t: SlotArray, i: nat, j: nat)
    requires |nodes| > 0 && 1 <= i <= BackupCount(cfg, |nodes|) && 1 <= j <= BackupCount(cfg, |nodes|) && i != j
    ensures Put(nodes, Replica(k, j, |nodes|), Backup, t)[Replica(k, i, |nodes|)] == nodes[Replica(k, i, |nodes|)]
  {
    ReplicasDistinct(cfg, k, i, j, |nodes|);
  }

  lemma VoteRecorded(cfg: Config, nodes: seq<Node>, p: Slot, idx: nat, votes: seq<Vote>, script: Script, clock: nat)
    requires NodesOk(nodes) && |nodes| > 0 && IsProposal(p)
    requires idx < |votes| == BackupCount(cfg, |nodes|)
    requires VotesTrue(nodes, p, votes)
    ensures var m := Replica(p.body.key, idx + 1, |nodes|);
            var s := Store(nodes[m].backup, p, script, clock);
            VotesTrue(Put(nodes, m, Backup, s.table), p, votes[idx := VoteOf(s)])
  {
    var k := p.body.key;
    var m := Replica(k, idx + 1, |nodes|);
    var s := Store(nodes[m].backup, p, script, clock);
    StoreMeets(nodes[m].backup, p, script, clock);
    var nodes', votes' := Put(nodes, m, Backup, s.table), votes[idx := VoteOf(s)];
    forall i | 0 <= i < |votes'| && votes'[i].success ensures OnReplica(nodes', p, i + 1) {
      if i != idx {
        assert OnReplica(nodes, p, i + 1);
        OtherReplica(cfg, nodes, k, s.table, i + 1, idx + 1);
      }
    }
  }

  lemma VoteAttempts(cfg: Config, nodes: seq<Node>, p: Slot, idx: nat, votes: seq<Vote>, script: Script, clock: nat)
    requires NodesOk(nodes) && |nodes| > 0 && IsProposal(p)
    requires idx < |votes| == BackupCount(cfg, |nodes|) && VotesTrue(nodes, p, votes)
    ensures var m := Replica(p.body.key, idx + 1, |nodes|);
            var s := Store(nodes[m].backup, p, script, clock);
            var next := Put(nodes, m, Backup, s.table);
            AllAttempted(nodes, next, p) && NodesOk(next) && VotesTrue(next, p, votes[idx := VoteOf(s)])
  {
    var m := Replica(p.body.key, idx + 1, |nodes|);
    StoreAttempts(nodes, m, Backup, p, script, clock);
    AttemptedOk(nodes, Put(nodes, m, Backup, Store(nodes[m].backup, p, script, clock).table), p);
    VoteRecorded(cfg, nodes, p, idx, votes, script, clock);
  }

  /** The votes b taken over nodes: attempts everywhere, and only true votes. */
  ghost predicate Taken(nodes: seq<Node>, p: Slot, b: Backups) {
    |nodes| > 0 && AllAttempted(nodes, b.nodes, p) && VotesTrue(b.nodes, p, b.votes)
  }

  lemma TakenNone(nodes: seq<Node>, p: Slot, votes: seq<Vote>, aborted: bool, clock: nat)
    requires NodesOk(nodes) && |nodes| > 0 && VotesTrue(nodes, p, votes)
    ensures Taken(nodes, p, Backups(nodes, votes, aborted, clock))
  {
    NothingAttempted(nodes, p);
  }

  lemma TakenOn(nodes: seq<Node>, next: seq<Node>, p: Slot, b: Backups)
    requires |nodes| > 0 && AllAttempted(nodes, next, p) && Taken(next, p, b)
    ensures Taken(nodes, p, b)
  {
    AllAttemptedAgain(nodes, next, b.nodes, p);
  }

  /** What collecting the votes comes to, whatever is lost. */
  lemma {:induction false} BackupPhaseAttempts(cfg: Config, nodes: seq<Node>, p: Slot, idx: nat, votes: seq<Vote>,
                                               script: Script, clock: nat)
    requires NodesOk(nodes) && |nodes| > 0 && IsProposal(p)
    requires idx <= |votes| == BackupCount(cfg, |nodes|)
    requires VotesTrue(nodes, p, votes)
    ensures Taken(nodes, p, BackupPhase(nodes, p, idx, votes, script, clock))
    decreases |votes| - idx
  {
    if idx == |votes| {
      TakenNone(nodes, p, votes, false, clock);
    } else {
      var m := Replica(p.body.key, idx + 1, |nodes|);
      var s := Store(nodes[m].backup, p, script, clock);
      if s.reached {
        var next, voted := Put(nodes, m, Backup, s.table), votes[idx := VoteOf(s)];
        VoteAttempts(cfg, nodes, p, idx, votes, script, clock);
        BackupPhaseAttempts(cfg, next, p, idx + 1, voted, script, s.clock);
        TakenOn(nodes, next, p, BackupPhase(next, p, idx + 1, voted, script, s.clock));
      } else {
        TakenNone(nodes, p, votes, true, s.clock);
      }
    }
  }

  // --------------------------------------------------------------------- repair

  /** The replica holds the proposal, or has no place left that the key could take. */
  ghost predicate Repaired(nodes: seq<Node>, p: Slot, ordinal: nat)
    requires |nodes| > 0
  {
    OnReplica(nodes, p, ordinal)
    || NoCandidate(nodes[Replica(p.body.key, ordinal, |nodes|)].backup, p.body.key)
  }

  lemma {:induction false} RepairAttempts(cfg: Config, nodes: seq<Node>, p: Slot, idx: nat, votes: seq<Vote>,
                                          script: Script, clock: nat)
    requires NodesOk(nodes) && |nodes| > 0 && IsProposal(p)
    requires idx <= |votes| == BackupCount(cfg, |nodes|)
    ensures AllAttempted(nodes, RepairPhase(nodes, p, idx, votes, script, clock).nodes, p)
    decreases |votes| - idx
  {
    NothingAttempted(nodes, p);
    if idx < |votes| && votes[idx].success {
      RepairAttempts(cfg, nodes, p, idx + 1, votes, script, clock);
    } else if idx < |votes| {
      var m := Replica(p.body.key, idx + 1, |nodes|);
      var o := Offered(nodes, m, Backup, p, script, clock);
      StoreAttempts(nodes, m, Backup, p, script, clock);
      AttemptedOk(nodes, o.nodes, p);
      RepairAttempts(cfg, o.nodes, p, idx + 1, votes, script, o.clock);
      AllAttemptedAgain(nodes, o.nodes, RepairPhase(o.nodes, p, idx + 1, votes, script, o.clock).nodes, p);
    }
  }

  lemma RepairStep(cfg: Config, nodes: seq<Node>, p: Slot, idx: nat, script: Script, clock: nat)
    requires NodesOk(nodes) && |nodes| > 0 && IsProposal(p) && ReliableFrom(script, clock)
    requires idx < BackupCount(cfg, |nodes|)
    ensures var o := Offered(nodes, Replica(p.body.key, idx + 1, |nodes|), Backup, p, script, clock);
            && Repaired(o.nodes, p, idx + 1) && o.clock >= clock
            && forall i :: 1 <= i <= BackupCount(cfg, |nodes|) && i != idx + 1 ==>
                 (OnReplica(nodes, p, i) ==> OnReplica(o.nodes, p, i))
                     && (Repaired(nodes, p, i) ==> Repaired(o.nodes, p, i))
  {
    var k := p.body.key;
    var m := Replica(k, idx + 1, |nodes|);
    var s := Store(nodes[m].backup, p, script, clock);
    StoreMeets(nodes[m].backup, p, script, clock);
    StoreForward(nodes[m].backup, p, script, clock);
    forall i | 1 <= i <= BackupCount(cfg, |nodes|) && i != idx + 1
      ensures Put(nodes, m, Backup, s.table)[Replica(k, i, |nodes|)] == nodes[Replica(k, i, |nodes|)]
    {
      OtherReplica(cfg, nodes, k, s.table, i, idx + 1);
    }
  }

  /** Once the transport works again, repair leaves the proposal on every replica that has any place for it. */
  lemma {:induction false} RepairRestores(cfg: Config, nodes: seq<Node>, p: Slot, idx: nat, votes: seq<Vote>,
                                          script: Script, clock: nat)
    requires NodesOk(nodes) && |nodes| > 0 && IsProposal(p) && ReliableFrom(script, clock)
    requires idx <= |votes| == BackupCount(cfg, |nodes|)
    requires forall i :: idx <= i < |votes| && votes[i].success ==> OnReplica(nodes, p, i + 1)
    requires forall o :: 1 <= o <= idx ==> Repaired(nodes, p, o)
    ensures var r := RepairPhase(nodes, p, idx, votes, script, clock);
            r.clock >= clock && forall o :: 1 <= o <= |votes| ==> Repaired(r.nodes, p, o)
    decreases |votes| - idx
  {
    if idx < |votes| && votes[idx].success {
      assert OnReplica(nodes, p, idx + 1);
      RepairRestores(cfg, nodes, p, idx + 1, votes, script, clock);
    } else if idx < |votes| {
      var m := Replica(p.body.key, idx + 1, |nodes|);
      var o := Offered(nodes, m, Backup, p, script, clock);
      StoreAttempts(nodes, m, Backup, p, script, clock);
      AttemptedOk(nodes, o.nodes, p);
      RepairStep(cfg, nodes, p, idx, script, clock);
      RepairRestores(cfg, o.nodes, p, idx + 1, votes, script, o.clock);
    }
  }
}
