/** The client node: where a key lives, and what reading and writing it does to the
    memory nodes, call by call. `script` says what becomes of every transport call. */
module Cluster {
  import opened Slots
  import opened Table
  import opened Codec
  import opened Votes

  datatype Node = Node(prime: SlotArray, cache: SlotArray, backup: SlotArray) {
    function Part(kind: Kind): SlotArray {
      match kind
      case Prime => prime
      case Cache => cache
      case Backup => backup
    }

    function With(kind: Kind, t: SlotArray): Node {
      match kind
      case Prime => this.(prime := t)
      case Cache => this.(cache := t)
      case Backup => this.(backup := t)
    }
  }

  datatype Config = Config(crypto: Crypto, replication: nat, cacheOn: bool)

  // ---------------------------------------------------------------- placement

  function Primary(k: nat, sessions: nat): (p: nat)
    requires sessions > 0
    ensures p < sessions
  {
    k % sessions
  }

  function Replica(k: nat, ordinal: nat, sessions: nat): (p: nat)
    requires sessions > 0
    ensures p < sessions
  {
    (k % sessions + ordinal) % sessions
  }

  function BackupCount(cfg: Config, sessions: nat): nat {
    var replicas := if cfg.replication > sessions then sessions else cfg.replication;
    if replicas > 0 then replicas - 1 else 0
  }

  lemma ReplicaAt(k: nat, ordinal: nat, sessions: nat)
    requires ordinal < sessions
    ensures Replica(k, ordinal, sessions)
         == if k % sessions + ordinal < sessions then k % sessions + ordinal else k % sessions + ordinal - sessions
  {
  }

  /** A key's primary and its replicas are distinct nodes. */
  lemma ReplicasDistinct(cfg: Config, k: nat, i: nat, j: nat, sessions: nat)
    requires sessions > 0 && i <= BackupCount(cfg, sessions) && j <= BackupCount(cfg, sessions) && i != j
    ensures Replica(k, i, sessions) != Replica(k, j, sessions)
    ensures Replica(k, 0, sessions) == Primary(k, sessions)
  {
    ReplicaAt(k, i, sessions);
    ReplicaAt(k, j, sessions);
    ReplicaAt(k, 0, sessions);
  }

  /** Keys spread evenly: of as many consecutive hashes as there are sessions, no two have the same primary, and each
      session is the primary of one. */
  lemma PrimariesSpread(k: nat, sessions: nat, d: nat, e: nat) returns (f: nat)
    requires d < sessions && e < sessions
    ensures Primary(k + d, sessions) == Primary(k + e, sessions) <==> d == e
    ensures f < sessions && Primary(k + f, sessions) == d
  {
    ModShift(k, d, sessions);
    ModShift(k, e, sessions);
    f := if d >= k % sessions then d - k % sessions else d + sessions - k % sessions;
    ModShift(k, f, sessions);
  }

  /** The first nodes of a key's ring: its primary, and the one after the last so far. */
  function CopyNodes(k: nat, last: nat, sessions: nat): set<nat>
    requires sessions > 0
  {
    if last == 0 then {Primary(k, sessions)}
    else CopyNodes(k, last - 1, sessions) + {(Primary(k, sessions) + last) % sessions}
  }

  lemma {:induction false} CopyNodesAre(k: nat, last: nat, sessions: nat, m: nat)
    requires last < sessions
    ensures m in CopyNodes(k, last, sessions) <==> exists o: nat :: o <= last && m == Replica(k, o, sessions)
  {
    ReplicaAt(k, last, sessions);
    if last > 0 {
      CopyNodesAre(k, last - 1, sessions, m);
      assert m == Replica(k, last, sessions) ==> m in CopyNodes(k, last, sessions);
    } else {
      assert Replica(k, 0, sessions) == Primary(k, sessions);
    }
  }

  lemma {:induction false} CopyNodesCount(k: nat, last: nat, sessions: nat)
    requires last < sessions
    ensures |CopyNodes(k, last, sessions)| == last + 1
  {
    if last > 0 {
      var next := Replica(k, last, sessions);
      CopyNodesCount(k, last - 1, sessions);
      CopyNodesAre(k, last - 1, sessions, next);
      ReplicaAt(k, last, sessions);
      forall o: nat | o <= last - 1 ensures Replica(k, o, sessions) != next {
        ReplicaAt(k, o, sessions);
      }
    }
  }

  /** A key's slot has its place on as many nodes as the replication asks for, if there are so many: on the primary and
      those that follow it. */
  lemma CopiesMade(cfg: Config, k: nat, sessions: nat, m: nat)
    requires sessions > 0 && cfg.replication > 0
    ensures var nodes := CopyNodes(k, BackupCount(cfg, sessions), sessions);
            && |nodes| == (if cfg.replication < sessions then cfg.replication else sessions)
            && (m in nodes <==> exists o: nat :: o <= BackupCount(cfg, sessions) && m == Replica(k, o, sessions))
  {
    CopyNodesCount(k, BackupCount(cfg, sessions), sessions);
    CopyNodesAre(k, BackupCount(cfg, sessions), sessions, m);
  }

  // -------------------------------------------------------------- node updates

  function Put(nodes: seq<Node>, p: nat, kind: Kind, t: SlotArray): (r: seq<Node>)
    requires p < |nodes|
    ensures |r| == |nodes|
  {
    nodes[p := nodes[p].With(kind, t)]
  }

  // ------------------------------------------------------------------- writing

  datatype Touched = Touched(nodes: seq<Node>, clock: nat)

  /** A probe for the key of p and, if it names a candidate, a commit of p to it, whatever comes of either. */
  function Offered(nodes: seq<Node>, m: nat, kind: Kind, p: Slot, script: Script, clock: nat): (r: Touched)
    requires m < |nodes|
    ensures |r.nodes| == |nodes|
  {
    var s := Store(nodes[m].Part(kind), p, script, clock);
    Touched(Put(nodes, m, kind, s.table), s.clock)
  }

  function VoteOf(s: Stored): Vote {
    if s.won then Vote(true, 0) else Vote(false, s.tie)
  }

  datatype Backups = Backups(nodes: seq<Node>, votes: seq<Vote>, aborted: bool, clock: nat)

  /** The proposal is offered to the backups idx, idx + 1, ... in turn; a backup that cannot be probed ends the
      write. */
  function BackupPhase(nodes: seq<Node>, p: Slot, idx: nat, votes: seq<Vote>, script: Script, clock: nat): (r: Backups)
    requires |nodes| > 0 && idx <= |votes|
    ensures |r.nodes| == |nodes| && |r.votes| == |votes|
    ensures forall m :: 0 <= m < |nodes| ==> r.nodes[m].prime == nodes[m].prime && r.nodes[m].cache == nodes[m].cache
    decreases |votes| - idx
  {
    if idx == |votes| then Backups(nodes, votes, false, clock)
    else
      var m := Replica(p.body.key, idx + 1, |nodes|);
      var s := Store(nodes[m].backup, p, script, clock);
      if !s.reached then Backups(nodes, votes, true, s.clock)
      else BackupPhase(Put(nodes, m, Backup, s.table), p, idx + 1, votes[idx := VoteOf(s)], script, s.clock)
  }

  /** After the primary has committed, the proposal is offered once more where the vote was lost; the outcome is
      ignored. */
  function RepairPhase(nodes: seq<Node>, p: Slot, idx: nat, votes: seq<Vote>, script: Script, clock: nat): (r: Touched)
    requires |nodes| > 0 && idx <= |votes|
    ensures |r.nodes| == |nodes|
    ensures forall m :: 0 <= m < |nodes| ==> r.nodes[m].prime == nodes[m].prime && r.nodes[m].cache == nodes[m].cache
    decreases |votes| - idx
  {
    if idx == |votes| then Touched(nodes, clock)
    else if votes[idx].success then RepairPhase(nodes, p, idx + 1, votes, script, clock)
    else
      var r := Offered(nodes, Replica(p.body.key, idx + 1, |nodes|), Backup, p, script, clock);
      RepairPhase(r.nodes, p, idx + 1, votes, script, r.clock)
  }

  function RefreshCache(cfg: Config, nodes: seq<Node>, p: Slot, script: Script, clock: nat): (r: Touched)
    requires |nodes| > 0
    ensures |r.nodes| == |nodes|
  {
    if cfg.cacheOn then Offered(nodes, Primary(p.body.key, |nodes|), Cache, p, script, clock) else Touched(nodes, clock)
  }

  datatype Written = Written(nodes: seq<Node>, rule: int, clock: nat)

  datatype Write = Write(key: string, value: seq<byte>, updateOnly: bool, tombstone: bool)

  /** td_cluster_write_value: the rule the write was committed under, or -1. */
  function WriteValue(cfg: Config, nodes: seq<Node>, w: Write, script: Script, clock: nat): (r: Written)
    requires |nodes| > 0
    ensures |r.nodes| == |nodes|
  {
    var k := cfg.crypto.hash(w.key);
    var prim := Primary(k, |nodes|);
    var probed := ProbeSlot(nodes[prim].prime, k, script, clock);
    match probed.result
    case None => Written(nodes, -1, probed.clock)
    case Some(q) => Submit(cfg, nodes, w, prim, q, script, probed.clock)
  }

  /** From the answer q to the probe of PRIME on. */
  function Submit(cfg: Config, nodes: seq<Node>, w: Write, prim: nat, q: Probe, script: Script,
                  clock: nat): (r: Written)
    requires prim < |nodes| && q.candIndex < |nodes[prim].prime|
    ensures |r.nodes| == |nodes|
  {
    if w.updateOnly && !(q.found && q.slot.Present(cfg.crypto.hash(w.key))) then Written(nodes, -1, clock)
    else
      match MakeSlot(cfg.crypto, w.key, w.value, w.tombstone, q.cand.guard + 1)
      case None => Written(nodes, -1, clock)
      case Some(p) => Propose(cfg, nodes, prim, q, p, script, clock)
  }

  lemma SubmitProposes(cfg: Config, nodes: seq<Node>, w: Write, prim: nat, q: Probe, p: Slot, script: Script,
                       clock: nat)
    requires prim < |nodes| && q.candIndex < |nodes[prim].prime|
    requires !w.updateOnly || (q.found && q.slot.Present(cfg.crypto.hash(w.key)))
    requires MakeSlot(cfg.crypto, w.key, w.value, w.tombstone, q.cand.guard + 1) == Some(p)
    ensures Submit(cfg, nodes, w, prim, q, script, clock) == Propose(cfg, nodes, prim, q, p, script, clock)
  {
  }

  lemma WriteProposes(cfg: Config, nodes: seq<Node>, w: Write, script: Script, clock: nat, q: Probe, p: Slot)
    requires |nodes| > 0
    requires var k := cfg.crypto.hash(w.key);
             && ProbeSlot(nodes[Primary(k, |nodes|)].prime, k, script, clock).result == Some(q)
             && (!w.updateOnly || (q.found && q.slot.Present(k)))
    requires MakeSlot(cfg.crypto, w.key, w.value, w.tombstone, q.cand.guard + 1) == Some(p)
    ensures var k := cfg.crypto.hash(w.key);
            var prim := Primary(k, |nodes|);
            var probed := ProbeSlot(nodes[prim].prime, k, script, clock);
            WriteValue(cfg, nodes, w, script, clock) == Propose(cfg, nodes, prim, q, p, script, probed.clock)
  {
    var k := cfg.crypto.hash(w.key);
    var prim := Primary(k, |nodes|);
    SubmitProposes(cfg, nodes, w, prim, q, p, script, ProbeSlot(nodes[prim].prime, k, script, clock).clock);
  }

  /** From the vote over the backups on. */
  function Propose(cfg: Config, nodes: seq<Node>, prim: nat, q: Probe, p: Slot, script: Script,
                   clock: nat): (r: Written)
    requires prim < |nodes| && q.candIndex < |nodes[prim].prime|
    ensures |r.nodes| == |nodes|
  {
    Decide(cfg, BackupPhase(nodes, p, 0, NoVotes(BackupCount(cfg, |nodes|)), script, clock), prim, q, p, script)
  }

  /** What the votes come to. */
  function Decide(cfg: Config, b: Backups, prim: nat, q: Probe, p: Slot, script: Script): (r: Written)
    requires prim < |b.nodes| && q.candIndex < |b.nodes[prim].prime|
    ensures |r.nodes| == |b.nodes|
  {
    var rule := Rule(b.votes, p.body.tie);
    if b.aborted || rule == 0 then Written(b.nodes, -1, b.clock) else CommitPhase(cfg, b, prim, q, p, rule, script)
  }

  function CommitPhase(cfg: Config, b: Backups, prim: nat, q: Probe, p: Slot, rule: nat, script: Script): (r: Written)
    requires prim < |b.nodes| && q.candIndex < |b.nodes[prim].prime|
    ensures |r.nodes| == |b.nodes|
  {
    var c := CommitSlot(b.nodes[prim].prime, q.candIndex, p, q.cand.guard, script, b.clock);
    var committed := Put(b.nodes, prim, Prime, c.table);
    if !c.ok || c.observed != q.cand.guard then Written(committed, -1, c.clock)
    else
      var repaired := RepairPhase(committed, p, 0, b.votes, script, c.clock);
      var refreshed := RefreshCache(cfg, repaired.nodes, p, script, repaired.clock);
      Written(refreshed.nodes, rule, refreshed.clock)
  }

  // ------------------------------------------------------------------- reading

  datatype Reply = Failed | NotFound | Found(value: seq<byte>)

  datatype Answer = Answer(nodes: seq<Node>, reply: Reply, clock: nat)

  /** The cached slot of k may stand in for the primary one only at the same epochs. */
  predicate CacheConsistent(prime: Probe, cache: Probe, k: nat) {
    && cache.found && prime.found
    && cache.slot.guard == prime.slot.guard
    && cache.slot.body.visible == prime.slot.body.visible
    && cache.slot.Present(k)
  }

  /** td_cluster_read_value. */
  function ReadValue(cfg: Config, nodes: seq<Node>, key: string, script: Script, clock: nat): (r: Answer)
    requires |nodes| > 0
    ensures |r.nodes| == |nodes|
  {
    var k := cfg.crypto.hash(key);
    var prim := Primary(k, |nodes|);
    var probed := ProbeSlot(nodes[prim].prime, k, script, clock);
    match probed.result
    case None => Answer(nodes, Failed, probed.clock)
    case Some(q) =>
      if !cfg.cacheOn then ReadPrime(cfg, nodes, k, q, script, probed.clock)
      else
        var cached := ProbeSlot(nodes[prim].cache, k, script, probed.clock);
        if cached.result.Some? && CacheConsistent(q, cached.result.value, k)
           && DecodeSlot(cfg.crypto, cached.result.value.slot).Some?
        then Answer(nodes, Found(DecodeSlot(cfg.crypto, cached.result.value.slot).value), cached.clock)
        else ReadPrime(cfg, nodes, k, q, script, cached.clock)
  }

  function ReadPrime(cfg: Config, nodes: seq<Node>, k: nat, q: Probe, script: Script, clock: nat): (r: Answer)
    requires |nodes| > 0
    ensures |r.nodes| == |nodes|
  {
    if !q.found || !q.slot.Present(k) then Answer(nodes, NotFound, clock)
    else
      match DecodeSlot(cfg.crypto, q.slot)
      case None => Answer(nodes, Failed, clock)
      case Some(v) =>
        var r := RefreshCache(cfg, nodes, q.slot, script, clock);
        Answer(r.nodes, Found(v), r.clock)
  }
}
