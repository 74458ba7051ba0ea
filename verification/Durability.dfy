/** What the rule a write reports says about its replicas, whatever the transport does. */
module Durability {
  import opened Slots
  import opened Table
  import opened Codec
  import opened Votes
  import opened Cluster
  import opened Effects
  import opened FaultyRuns

  /** How many of the replicas 1 .. n hold the proposal. */
  ghost function Holders(nodes: seq<Node>, p: Slot, n: nat): (c: nat)
    requires |nodes| > 0
    ensures c <= n
  {
    if n == 0 then 0 else Holders(nodes, p, n - 1) + if OnReplica(nodes, p, n) then 1 else 0
  }

  lemma {:induction false} WonVotesHold(nodes: seq<Node>, p: Slot, votes: seq<Vote>)
    requires |nodes| > 0 && VotesTrue(nodes, p, votes)
    ensures Successes(votes) <= Holders(nodes, p, |votes|)
  {
    if votes != [] {
      var n := |votes| - 1;
      forall i | 0 <= i < n && votes[..n][i].success ensures OnReplica(nodes, p, i + 1) {
        assert votes[i].success;
      }
      WonVotesHold(nodes, p, votes[..n]);
    }
  }

  lemma {:induction false} AllHold(nodes: seq<Node>, p: Slot, n: nat)
    requires |nodes| > 0 && Holders(nodes, p, n) == n
    ensures forall o :: 1 <= o <= n ==> OnReplica(nodes, p, o)
  {
    if n > 0 {
      AllHold(nodes, p, n - 1);
    }
  }

  /** Repair, faulty or not, leaves alone the replicas whose vote was won. */
  lemma {:induction false} RepairKeepsVotes(cfg: Config, nodes: seq<Node>, p: Slot, idx: nat, votes: seq<Vote>,
                                            script: Script, clock: nat)
    requires |nodes| > 0 && idx <= |votes| == BackupCount(cfg, |nodes|) && VotesTrue(nodes, p, votes)
    ensures VotesTrue(RepairPhase(nodes, p, idx, votes, script, clock).nodes, p, votes)
    decreases |votes| - idx
  {
    if idx < |votes| && votes[idx].success {
      RepairKeepsVotes(cfg, nodes, p, idx + 1, votes, script, clock);
    } else if idx < |votes| {
      var m := Replica(p.body.key, idx + 1, |nodes|);
      var o := Offered(nodes, m, Backup, p, script, clock);
      forall i | 0 <= i < |votes| && votes[i].success ensures OnReplica(o.nodes, p, i + 1) {
        assert OnReplica(nodes, p, i + 1);
        OtherReplica(cfg, nodes, p.body.key, Store(nodes[m].backup, p, script, clock).table, i + 1, idx + 1);
      }
      RepairKeepsVotes(cfg, o.nodes, p, idx + 1, votes, script, o.clock);
    }
  }

  lemma SameBackups(nodes: seq<Node>, nodes': seq<Node>, p: Slot)
    requires |nodes| == |nodes'| > 0
    requires forall m :: 0 <= m < |nodes| ==> nodes'[m].backup == nodes[m].backup
    ensures forall o: nat ::
              OnReplica(nodes', p, o) == OnReplica(nodes, p, o) && Repaired(nodes', p, o) == Repaired(nodes, p, o)
  {
    forall o: nat
      ensures OnReplica(nodes', p, o) == OnReplica(nodes, p, o) && Repaired(nodes', p, o) == Repaired(nodes, p, o)
    {
      var m := Replica(p.body.key, o, |nodes|);
      assert nodes'[m].backup == nodes[m].backup;
    }
  }

  lemma CommitKeepsVotes(cfg: Config, b: Backups, prim: nat, q: Probe, p: Slot, rule: nat, script: Script)
    requires |b.nodes| > 0 && prim < |b.nodes| && q.candIndex < |b.nodes[prim].prime|
    requires |b.votes| == BackupCount(cfg, |b.nodes|) && VotesTrue(b.nodes, p, b.votes)
    ensures VotesTrue(CommitPhase(cfg, b, prim, q, p, rule, script).nodes, p, b.votes)
  {
    var c := CommitSlot(b.nodes[prim].prime, q.candIndex, p, q.cand.guard, script, b.clock);
    var committed := Put(b.nodes, prim, Prime, c.table);
    SameBackups(b.nodes, committed, p);
    if c.ok && c.observed == q.cand.guard {
      RepairKeepsVotes(cfg, committed, p, 0, b.votes, script, c.clock);
      var repaired := RepairPhase(committed, p, 0, b.votes, script, c.clock);
      SameBackups(repaired.nodes, RefreshCache(cfg, repaired.nodes, p, script, repaired.clock).nodes, p);
    }
  }

  lemma CommitRepairs(cfg: Config, b: Backups, prim: nat, q: Probe, p: Slot, rule: nat, script: Script)
    requires |b.nodes| > 0 && NodesOk(b.nodes) && IsProposal(p) && prim == Primary(p.body.key, |b.nodes|)
    requires |b.votes| == BackupCount(cfg, |b.nodes|) && VotesTrue(b.nodes, p, b.votes)
    requires ProbeMeets(b.nodes[prim].prime, p.body.key, Some(q)) && ReliableFrom(script, b.clock) && rule > 0
    ensures var r := CommitPhase(cfg, b, prim, q, p, rule, script);
            r.rule == rule && forall o :: 1 <= o <= BackupCount(cfg, |b.nodes|) ==> Repaired(r.nodes, p, o)
  {
    var c := CommitSlot(b.nodes[prim].prime, q.candIndex, p, q.cand.guard, script, b.clock);
    CommitAttempts(b.nodes[prim].prime, q, p, script, b.clock);
    var committed := Put(b.nodes, prim, Prime, c.table);
    PutAttempted(b.nodes, prim, Prime, c.table, p);
    AttemptedOk(b.nodes, committed, p);
    SameBackups(b.nodes, committed, p);
    forall i | 0 <= i < |b.votes| && b.votes[i].success ensures OnReplica(committed, p, i + 1) {
      assert OnReplica(b.nodes, p, i + 1);
    }
    RepairRestores(cfg, committed, p, 0, b.votes, script, c.clock);
    var repaired := RepairPhase(committed, p, 0, b.votes, script, c.clock);
    SameBackups(repaired.nodes, RefreshCache(cfg, repaired.nodes, p, script, repaired.clock).nodes, p);
  }

  /** The replicas of a committed proposal p: all under rule 1, a majority under rule 2, and all that have a
      place once the transport works again from call number settled on. */
  ghost predicate Durable(cfg: Config, nodes: seq<Node>, p: Slot, rule: int, script: Script, settled: nat)
    requires |nodes| > 0
  {
    var n := BackupCount(cfg, |nodes|);
    && (rule == 1 ==> forall o :: 1 <= o <= n ==> OnReplica(nodes, p, o))
    && (rule == 2 ==> 2 * Holders(nodes, p, n) > n)
    && (ReliableFrom(script, settled) ==> forall o :: 1 <= o <= n ==> Repaired(nodes, p, o))
  }

  /** The vote on proposal p, taken from call number clock on. */
  function VoteOn(cfg: Config, nodes: seq<Node>, p: Slot, script: Script, clock: nat): Backups
    requires |nodes| > 0
  {
    BackupPhase(nodes, p, 0, NoVotes(BackupCount(cfg, |nodes|)), script, clock)
  }

  lemma CommitDurable(cfg: Config, b: Backups, prim: nat, q: Probe, p: Slot, script: Script)
    requires |b.nodes| > 0 && NodesOk(b.nodes) && IsProposal(p) && prim == Primary(p.body.key, |b.nodes|)
    requires |b.votes| == BackupCount(cfg, |b.nodes|) && VotesTrue(b.nodes, p, b.votes)
    requires ProbeMeets(b.nodes[prim].prime, p.body.key, Some(q))
    requires CommitPhase(cfg, b, prim, q, p, Rule(b.votes, p.body.tie), script).rule > 0
    ensures var r := CommitPhase(cfg, b, prim, q, p, Rule(b.votes, p.body.tie), script);
            Durable(cfg, r.nodes, p, r.rule, script, b.clock)
  {
    var rule := Rule(b.votes, p.body.tie);
    var r := CommitPhase(cfg, b, prim, q, p, rule, script);
    CommitKeepsVotes(cfg, b, prim, q, p, rule, script);
    WonVotesHold(r.nodes, p, b.votes);
    if rule == 1 {
      AllHold(r.nodes, p, |b.votes|);
    }
    if ReliableFrom(script, b.clock) {
      CommitRepairs(cfg, b, prim, q, p, rule, script);
    }
  }

  lemma ProposeDurable(cfg: Config, nodes: seq<Node>, prim: nat, q: Probe, p: Slot, script: Script, clock: nat)
    requires |nodes| > 0 && NodesOk(nodes) && IsProposal(p) && prim == Primary(p.body.key, |nodes|)
    requires ProbeMeets(nodes[prim].prime, p.body.key, Some(q))
    requires Propose(cfg, nodes, prim, q, p, script, clock).rule > 0
    ensures var r := Propose(cfg, nodes, prim, q, p, script, clock);
            && PrimeSlot(r.nodes, p.body.key) == Some(p)
            && Durable(cfg, r.nodes, p, r.rule, script, VoteOn(cfg, nodes, p, script, clock).clock)
  {
    ProposeAttempts(cfg, nodes, prim, q, p, script, clock);
    BackupPhaseAttempts(cfg, nodes, p, 0, NoVotes(BackupCount(cfg, |nodes|)), script, clock);
    var b := VoteOn(cfg, nodes, p, script, clock);
    AttemptedOk(nodes, b.nodes, p);
    CommitDurable(cfg, b, prim, q, p, script);
  }

  /** A write that reports rule 1 has left its slot on every replica, one that reports rule 2 on a majority
      of them, whatever else was lost; and if the transport works again once the votes are in, the
      slot is on every replica that has a place for it. */
  lemma RuleMeansReplicas(cfg: Config, nodes: seq<Node>, w: Write, script: Script, clock: nat)
    requires |nodes| > 0 && NodesOk(nodes)
    requires WriteValue(cfg, nodes, w, script, clock).rule > 0
    ensures var r := WriteValue(cfg, nodes, w, script, clock);
            var k := cfg.crypto.hash(w.key);
            && PrimeSlot(r.nodes, k).Some?
            && var p := PrimeSlot(r.nodes, k).value;
               var start := ProbeSlot(nodes[Primary(k, |nodes|)].prime, k, script, clock).clock;
               && MadeBy(cfg.crypto, w, p)
               && Durable(cfg, r.nodes, p, r.rule, script, VoteOn(cfg, nodes, p, script, start).clock)
  {
    var k := cfg.crypto.hash(w.key);
    var prim := Primary(k, |nodes|);
    var probed := ProbeSlot(nodes[prim].prime, k, script, clock);
    ProbeMeetsTable(nodes[prim].prime, k, script, clock);
    var q := probed.result.value;
    var p := MakeSlot(cfg.crypto, w.key, w.value, w.tombstone, q.cand.guard + 1).value;
    WriteProposes(cfg, nodes, w, script, clock, q, p);
    ProposeDurable(cfg, nodes, prim, q, p, script, probed.clock);
  }
}
