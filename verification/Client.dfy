/** The client node as it runs: loops over sessions and slots, changing the nodes step by step. */
module Client {
  import opened Slots
  import opened Table
  import opened Codec
  import opened Votes
  import opened Cluster
  import opened RegionMemory

  class Client {
    const cfg: Config
    const sessions: seq<Region>
    /** What becomes of the transport calls, the next one being number clock. */
    const script: Script
    var clock: nat

    constructor (cfg: Config, sessions: seq<Region>, script: Script)
      requires |sessions| > 0
      requires forall s :: s in sessions ==> s.Separate()
      requires forall i, j :: 0 <= i < j < |sessions| ==> sessions[i].Arrays() !! sessions[j].Arrays()
      ensures Valid() && this.cfg == cfg && this.sessions == sessions && this.script == script && clock == 0
    {
      this.cfg, this.sessions, this.script, this.clock := cfg, sessions, script, 0;
    }

    ghost predicate Valid() {
      && |sessions| > 0
      && (forall i :: 0 <= i < |sessions| ==> sessions[i].Separate())
      && (forall i, j :: 0 <= i < j < |sessions| ==> sessions[i].Arrays() !! sessions[j].Arrays())
    }

    ghost function Memory(): set<object> {
      set s, a | s in sessions && a in s.Arrays() :: a
    }

    ghost function Nodes(): (r: seq<Node>)
      reads Memory()
      ensures |r| == |sessions|
    {
      seq(|sessions|, i requires 0 <= i < |sessions| reads Memory() =>
        (InMemory(i); sessions[i].Contents()))
    }

    lemma InMemory(i: nat)
      requires i < |sessions|
      ensures sessions[i].prime in Memory() && sessions[i].cache in Memory() && sessions[i].backup in Memory()
    {
      var s := sessions[i];
      assert s in sessions && s.prime in s.Arrays() && s.cache in s.Arrays() && s.backup in s.Arrays();
    }

    /** An array of one region is none of another's. */
    lemma Elsewhere(m: nat, kind: Kind)
      requires Valid() && m < |sessions|
      ensures sessions[m].Part(kind) in Memory()
      ensures forall i :: 0 <= i < |sessions| && i != m ==>
                sessions[m].Part(kind) != sessions[i].prime && sessions[m].Part(kind) != sessions[i].cache
                && sessions[m].Part(kind) != sessions[i].backup
    {
      InMemory(m);
      assert sessions[m].Part(kind) in sessions[m].Arrays();
      forall i | 0 <= i < |sessions| && i != m
        ensures sessions[m].Part(kind) != sessions[i].prime && sessions[m].Part(kind) != sessions[i].cache
                && sessions[m].Part(kind) != sessions[i].backup
      {
        assert sessions[i].Arrays() !! sessions[m].Arrays();
        assert sessions[i].prime in sessions[i].Arrays() && sessions[i].cache in sessions[i].Arrays()
               && sessions[i].backup in sessions[i].Arrays();
      }
    }

    // ------------------------------------------------------------ transport calls

    method FetchSlotAt(m: nat, kind: Kind, i: nat) returns (ok: bool, slot: Slot)
      requires Valid() && m < |sessions| && i < |Nodes()[m].Part(kind)|
      modifies this
      ensures clock == old(clock) + 1 && ok == (script(old(clock)) == Delivered)
      ensures ok ==> slot == Nodes()[m].Part(kind)[i]
      ensures Nodes() == old(Nodes())
    {
      var fault := script(clock);
      clock := clock + 1;
      slot := sessions[m].ReadSlot(kind, i);
      ok := fault == Delivered;
    }

    method WriteRegion(m: nat, kind: Kind, i: nat, b: Body) returns (ok: bool)
      requires Valid() && m < |sessions| && i < |Nodes()[m].Part(kind)|
      modifies this, Memory()
      ensures clock == old(clock) + 1 && ok == (script(old(clock)) == Delivered)
      ensures Nodes() == if script(old(clock)) == Dropped then old(Nodes())
                         else Put(old(Nodes()), m, kind, WriteBody(old(Nodes())[m].Part(kind), i, b))
    {
      var fault := script(clock);
      clock := clock + 1;
      if fault != Dropped {
        Elsewhere(m, kind);
        sessions[m].WriteBody(kind, i, b);
      }
      ok := fault == Delivered;
    }

    method Cas64(m: nat, kind: Kind, i: nat, compare: nat, swap: nat) returns (ok: bool, observed: nat)
      requires Valid() && m < |sessions| && i < |Nodes()[m].Part(kind)|
      modifies this, Memory()
      ensures clock == old(clock) + 1 && ok == (script(old(clock)) == Delivered)
      ensures ok ==> observed == old(Nodes())[m].Part(kind)[i].guard
      ensures Nodes() == if script(old(clock)) == Dropped then old(Nodes())
                         else Put(old(Nodes()), m, kind, CasGuard(old(Nodes())[m].Part(kind), i, compare, swap))
    {
      var fault := script(clock);
      clock := clock + 1;
      observed := 0;
      if fault != Dropped {
        Elsewhere(m, kind);
        observed := sessions[m].Cas64(kind, i, compare, swap);
      }
      ok := fault == Delivered;
    }

    // --------------------------------------------------------- probing, committing

    method ProbeSlotAt(m: nat, kind: Kind, k: nat) returns (ok: bool, probe: Probe)
      requires Valid() && m < |sessions|
      modifies this
      ensures Nodes() == old(Nodes())
      ensures var r := ProbeSlot(Nodes()[m].Part(kind), k, script, old(clock));
              clock == r.clock && ok == r.result.Some? && (ok ==> probe == r.result.value)
    {
      ghost var t := Nodes()[m].Part(kind);
      var count := sessions[m].Part(kind).Length;
      probe := NO_PROBE;
      if count == 0 {
        return false, probe;
      }
      var home := k % count;
      for idx := 0 to count
        invariant Nodes() == old(Nodes()) && (probe.candValid ==> probe.candIndex < count)
        invariant ProbeSlot(t, k, script, old(clock)) == ProbeFrom(t, k, idx, probe, script, clock)
      {
        var slotIndex := (home + idx) % count;
        assert slotIndex == Pos(Home(k, |t|), idx, |t|);
        var fetched, slot := FetchSlotAt(m, kind, slotIndex);
        if !fetched {
          return false, probe;
        }
        if !slot.Stable() {
          continue;
        }
        if slot.body.valid && slot.body.key == k {
          return true, Probe(true, slot, slotIndex, true, slot, slotIndex);
        }
        if slot.body.valid && slot.body.tombstone {
          if !probe.candValid {
            probe := probe.(candValid := true, cand := slot, candIndex := slotIndex);
          }
          continue;
        }
        if slot.IsEmpty() {
          if !probe.candValid {
            probe := probe.(candValid := true, cand := slot, candIndex := slotIndex);
          }
          return true, probe;
        }
      }
      ok := probe.candValid;
    }

    method CommitSlotAt(m: nat, kind: Kind, i: nat, p: Slot, compare: nat) returns (ok: bool, observed: nat)
      requires Valid() && m < |sessions| && i < |Nodes()[m].Part(kind)|
      modifies this, Memory()
      ensures var r := CommitSlot(old(Nodes())[m].Part(kind), i, p, compare, script, old(clock));
              Nodes() == Put(old(Nodes()), m, kind, r.table) && clock == r.clock && ok == r.ok
                  && (ok ==> observed == r.observed)
    {
      ghost var before := Nodes();
      assert Put(before, m, kind, before[m].Part(kind)) == before;
      ok := WriteRegion(m, kind, i, p.body);
      observed := 0;
      if ok {
        ok, observed := Cas64(m, kind, i, compare, p.body.visible);
      }
    }

    /** A probe for the key of p and, where it names a candidate, a commit of p to it. */
    method StoreAt(m: nat, kind: Kind, p: Slot) returns (reached: bool, vote: Vote)
      requires Valid() && m < |sessions|
      modifies this, Memory()
      ensures var r := Store(old(Nodes())[m].Part(kind), p, script, old(clock));
              && Nodes() == (if r.reached then Put(old(Nodes()), m, kind, r.table) else old(Nodes()))
              && clock == r.clock && reached == r.reached && (reached ==> vote == VoteOf(r))
    {
      vote := NO_VOTE;
      var probe;
      reached, probe := ProbeSlotAt(m, kind, p.body.key);
      if !reached || !probe.candValid {
        return false, vote;
      }
      var priorEpoch := probe.cand.guard;
      var committed, observed := CommitSlotAt(m, kind, probe.candIndex, p, priorEpoch);
      if committed && observed == priorEpoch {
        vote := Vote(true, 0);
      } else {
        vote := Vote(false, probe.cand.body.tie);
      }
    }

    /** The same with the outcome ignored. */
    method OfferTo(m: nat, kind: Kind, p: Slot)
      requires Valid() && m < |sessions|
      modifies this, Memory()
      ensures var r := Offered(old(Nodes()), m, kind, p, script, old(clock));
              Nodes() == r.nodes && clock == r.clock
    {
      ghost var nodes := Nodes();
      assert Put(nodes, m, kind, nodes[m].Part(kind)) == nodes;
      var _, _ := StoreAt(m, kind, p);
    }

    method RefreshCacheBestEffort(p: Slot)
      requires Valid()
      modifies this, Memory()
      ensures var r := RefreshCache(cfg, old(Nodes()), p, script, old(clock));
              Nodes() == r.nodes && clock == r.clock
    {
      if !cfg.cacheOn {
        return;
      }
      OfferTo(p.body.key % |sessions|, Cache, p);
    }

    // ------------------------------------------------------------ reading, writing

    method ReadValue(key: string) returns (reply: Reply)
      requires Valid()
      modifies this, Memory()
      ensures var r := Cluster.ReadValue(cfg, old(Nodes()), key, script, old(clock));
              Nodes() == r.nodes && clock == r.clock && reply == r.reply
    {
      var k := cfg.crypto.hash(key);
      var primary := k % |sessions|;
      var ok, prime := ProbeSlotAt(primary, Prime, k);
      if !ok {
        return Failed;
      }
      if cfg.cacheOn {
        var cacheOk, cache := ProbeSlotAt(primary, Cache, k);
        if cacheOk && CacheConsistent(prime, cache, k) {
          var cached := DecodeSlot(cfg.crypto, cache.slot);
          if cached.Some? {
            return Found(cached.value);
          }
        }
      }
      if !prime.found || !prime.slot.Present(k) {
        return NotFound;
      }
      var value := DecodeSlot(cfg.crypto, prime.slot);
      if value.None? {
        return Failed;
      }
      RefreshCacheBestEffort(prime.slot);
      reply := Found(value.value);
    }

    method WriteValue(w: Write) returns (rule: int)
      requires Valid()
      modifies this, Memory()
      ensures var r := Cluster.WriteValue(cfg, old(Nodes()), w, script, old(clock));
              Nodes() == r.nodes && clock == r.clock && rule == r.rule
    {
      var k := cfg.crypto.hash(w.key);
      var primary := k % |sessions|;
      var replicas := if cfg.replication > |sessions| then |sessions| else cfg.replication;
      var backups := if replicas > 0 then replicas - 1 else 0;
      var ok, probe := ProbeSlotAt(primary, Prime, k);
      if !ok {
        return -1;
      }
      rule := Submit(w, primary, probe, backups);
    }

    method Submit(w: Write, primary: nat, probe: Probe, backups: nat) returns (rule: int)
      requires Valid() && primary < |sessions| && probe.candIndex < |Nodes()[primary].prime|
      requires backups == BackupCount(cfg, |sessions|)
      modifies this, Memory()
      ensures var r := Cluster.Submit(cfg, old(Nodes()), w, primary, probe, script, old(clock));
              Nodes() == r.nodes && clock == r.clock && rule == r.rule
    {
      ghost var nodes := Nodes();
      ghost var goal := Cluster.Submit(cfg, nodes, w, primary, probe, script, clock);
      if w.updateOnly && (!probe.found || !probe.slot.Present(cfg.crypto.hash(w.key))) {
        return -1;
      }
      var made := Seal(cfg.crypto, w.key, w.value, w.tombstone, probe.cand.guard + 1);
      assert Nodes() == nodes;
      if made.None? {
        return -1;
      }
      SubmitProposes(cfg, nodes, w, primary, probe, made.value, script, clock);
      rule := Propose(primary, probe, made.value, backups);
      assert Nodes() == goal.nodes && clock == goal.clock && rule == goal.rule;
    }

    method Propose(primary: nat, probe: Probe, p: Slot, backups: nat) returns (rule: int)
      requires Valid() && primary < |sessions| && probe.candIndex < |Nodes()[primary].prime|
      requires backups == BackupCount(cfg, |sessions|)
      modifies this, Memory()
      ensures var r := Cluster.Propose(cfg, old(Nodes()), primary, probe, p, script, old(clock));
              Nodes() == r.nodes && clock == r.clock && rule == r.rule
    {
      ghost var b := BackupPhase(Nodes(), p, 0, NoVotes(backups), script, clock);
      var votesOk, votes := CollectVotes(p, backups);
      if !votesOk {
        return -1;
      }
      assert b == Backups(Nodes(), votes, false, clock);
      rule := Decide(primary, probe, p, votes);
    }

    method Decide(primary: nat, probe: Probe, p: Slot, votes: seq<Vote>) returns (rule: int)
      requires Valid() && primary < |sessions| && probe.candIndex < |Nodes()[primary].prime|
      modifies this, Memory()
      ensures var r := Cluster.Decide(cfg, Backups(old(Nodes()), votes, false, old(clock)), primary, probe, p, script);
              Nodes() == r.nodes && clock == r.clock && rule == r.rule
    {
      ghost var b := Backups(Nodes(), votes, false, clock);
      ghost var goal := Cluster.Decide(cfg, b, primary, probe, p, script);
      var won := EvaluateVotes(votes, p.body.tie);
      if won == 0 {
        return -1;
      }
      assert goal == CommitPhase(cfg, b, primary, probe, p, won, script);
      rule := CommitPrimary(primary, probe, p, won, votes);
      assert Nodes() == goal.nodes && clock == goal.clock && rule == goal.rule;
    }

    method CommitPrimary(primary: nat, probe: Probe, p: Slot, won: nat, votes: seq<Vote>) returns (rule: int)
      requires Valid() && primary < |sessions| && probe.candIndex < |Nodes()[primary].prime|
      modifies this, Memory()
      ensures var r := CommitPhase(cfg, Backups(old(Nodes()), votes, false, old(clock)), primary, probe, p, won,
                                   script);
              Nodes() == r.nodes && clock == r.clock && rule == r.rule
    {
      var currentEpoch := probe.cand.guard;
      var committed, observed := CommitSlotAt(primary, Prime, probe.candIndex, p, currentEpoch);
      if !committed || observed != currentEpoch {
        return -1;
      }
      Repair(p, votes);
      RefreshCacheBestEffort(p);
      rule := won;
    }

    method CollectVotes(p: Slot, backups: nat) returns (ok: bool, votes: seq<Vote>)
      requires Valid()
      modifies this, Memory()
      ensures var r := BackupPhase(old(Nodes()), p, 0, NoVotes(backups), script, old(clock));
              Nodes() == r.nodes && clock == r.clock && ok == !r.aborted && (ok ==> votes == r.votes)
    {
      votes := NoVotes(backups);
      ghost var goal := BackupPhase(Nodes(), p, 0, votes, script, clock);
      for idx := 0 to backups
        invariant |votes| == backups
        invariant goal == BackupPhase(Nodes(), p, idx, votes, script, clock)
      {
        var reached, vote := StoreAt((p.body.key % |sessions| + (idx + 1)) % |sessions|, Backup, p);
        if !reached {
          return false, votes;
        }
        votes := votes[idx := vote];
      }
      ok := true;
    }

    method Repair(p: Slot, votes: seq<Vote>)
      requires Valid()
      modifies this, Memory()
      ensures var r := RepairPhase(old(Nodes()), p, 0, votes, script, old(clock));
              Nodes() == r.nodes && clock == r.clock
    {
      ghost var goal := RepairPhase(Nodes(), p, 0, votes, script, clock);
      for idx := 0 to |votes|
        invariant goal == RepairPhase(Nodes(), p, idx, votes, script, clock)
      {
        if !votes[idx].success {
          OfferTo((p.body.key % |sessions| + (idx + 1)) % |sessions|, Backup, p);
        }
      }
    }
  }
}
