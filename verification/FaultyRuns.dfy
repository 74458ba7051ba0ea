/** One client, any transport failures: what later reads can see. */
module FaultyRuns {
  import opened Slots
  import opened Table
  import opened Codec
  import opened Votes
  import opened Cluster
  import opened Effects

  /** s is the slot write w makes at the epoch s carries. */
  predicate MadeBy(c: Crypto, w: Write, s: Slot) {
    MakeSlot(c, w.key, w.value, w.tombstone, s.guard) == Some(s)
  }

  // ------------------------------------------------------------------ one write

  lemma CommitPhaseAttempts(cfg: Config, b: Backups, prim: nat, q: Probe, p: Slot, rule: nat, script: Script)
    requires |b.nodes| > 0 && NodesOk(b.nodes) && |b.votes| == BackupCount(cfg, |b.nodes|)
    requires prim == Primary(p.body.key, |b.nodes|) && IsProposal(p)
    requires ProbeMeets(b.nodes[prim].prime, p.body.key, Some(q)) && rule > 0
    ensures var r := CommitPhase(cfg, b, prim, q, p, rule, script);
            && AllAttempted(b.nodes, r.nodes, p)
            && (r.rule == -1 || r.rule == rule)
            && (r.rule > 0 ==> PrimeSlot(r.nodes, p.body.key) == Some(p))
  {
    var t := b.nodes[prim].prime;
    var c := CommitSlot(t, q.candIndex, p, q.cand.guard, script, b.clock);
    CommitAttempts(t, q, p, script, b.clock);
    var committed := Put(b.nodes, prim, Prime, c.table);
    PutAttempted(b.nodes, prim, Prime, c.table, p);
    if c.ok && c.observed == q.cand.guard {
      AttemptedOk(b.nodes, committed, p);
      RepairAttempts(cfg, committed, p, 0, b.votes, script, c.clock);
      var repaired := RepairPhase(committed, p, 0, b.votes, script, c.clock);
      AttemptedOk(committed, repaired.nodes, p);
      AllAttemptedAgain(b.nodes, committed, repaired.nodes, p);
      if cfg.cacheOn {
        StoreAttempts(repaired.nodes, prim, Cache, p, script, repaired.clock);
        AllAttemptedAgain(b.nodes, repaired.nodes,
                          Offered(repaired.nodes, prim, Cache, p, script, repaired.clock).nodes, p);
      }
    }
  }

  lemma ProposeAttempts(cfg: Config, nodes: seq<Node>, prim: nat, q: Probe, p: Slot, script: Script, clock: nat)
    requires NodesOk(nodes) && |nodes| > 0 && prim == Primary(p.body.key, |nodes|) && IsProposal(p)
    requires ProbeMeets(nodes[prim].prime, p.body.key, Some(q))
    ensures var r := Propose(cfg, nodes, prim, q, p, script, clock);
            && AllAttempted(nodes, r.nodes, p)
            && (r.rule == -1 || 1 <= r.rule <= 3)
            && (r.rule > 0 ==> PrimeSlot(r.nodes, p.body.key) == Some(p))
  {
    var votes := NoVotes(BackupCount(cfg, |nodes|));
    var b := BackupPhase(nodes, p, 0, votes, script, clock);
    BackupPhaseAttempts(cfg, nodes, p, 0, votes, script, clock);
    AttemptedOk(nodes, b.nodes, p);
    var rule := Rule(b.votes, p.body.tie);
    if !b.aborted && rule != 0 {
      CommitPhaseAttempts(cfg, b, prim, q, p, rule, script);
      AllAttemptedAgain(nodes, b.nodes, CommitPhase(cfg, b, prim, q, p, rule, script).nodes, p);
    }
  }

  /** What any write may do, whatever becomes of its transport calls. */
  ghost predicate WriteEffect(cfg: Config, nodes: seq<Node>, w: Write, r: Written)
    requires |nodes| > 0 && |r.nodes| == |nodes|
  {
    var k := cfg.crypto.hash(w.key);
    && NodesOk(r.nodes)
    && (forall k2 :: k2 != k ==> PrimeLive(r.nodes, k2) == PrimeLive(nodes, k2))
    && (r.rule == -1 || 1 <= r.rule <= 3)
    && (r.rule > 0 ==> PrimeSlot(r.nodes, k).Some? && MadeBy(cfg.crypto, w, PrimeSlot(r.nodes, k).value))
    && (r.rule < 0 ==> PrimeSlot(r.nodes, k) == PrimeSlot(nodes, k) || PrimeSlot(r.nodes, k) == None
                       || MadeBy(cfg.crypto, w, PrimeSlot(r.nodes, k).value))
  }

  lemma AttemptedElsewhere(nodes: seq<Node>, nodes': seq<Node>, p: Slot)
    requires |nodes| > 0 && AllAttempted(nodes, nodes', p)
    ensures forall k2 :: k2 != p.body.key ==> PrimeLive(nodes', k2) == PrimeLive(nodes, k2)
    ensures PrimeSlot(nodes', p.body.key) == PrimeSlot(nodes, p.body.key)
            || PrimeSlot(nodes', p.body.key) == None || PrimeSlot(nodes', p.body.key) == Some(p)
  {
    forall k2 | k2 != p.body.key ensures PrimeLive(nodes', k2) == PrimeLive(nodes, k2) {
      var m := Primary(k2, |nodes|);
      assert NodeAttempted(nodes[m], nodes'[m], p);
    }
    var m := Primary(p.body.key, |nodes|);
    assert NodeAttempted(nodes[m], nodes'[m], p);
  }

  lemma RefusedEffect(cfg: Config, nodes: seq<Node>, w: Write, clock: nat)
    requires NodesOk(nodes) && |nodes| > 0
    ensures WriteEffect(cfg, nodes, w, Written(nodes, -1, clock))
  {
  }

  lemma ProposedEffect(cfg: Config, nodes: seq<Node>, w: Write, p: Slot, r: Written)
    requires |r.nodes| == |nodes| > 0 && AllAttempted(nodes, r.nodes, p)
    requires MadeBy(cfg.crypto, w, p) && (r.rule == -1 || 1 <= r.rule <= 3)
    requires r.rule > 0 ==> PrimeSlot(r.nodes, p.body.key) == Some(p)
    ensures WriteEffect(cfg, nodes, w, r)
  {
    AttemptedOk(nodes, r.nodes, p);
    AttemptedElsewhere(nodes, r.nodes, p);
  }

  lemma SubmitMeets(cfg: Config, nodes: seq<Node>, w: Write, q: Probe, script: Script, clock: nat)
    requires NodesOk(nodes) && |nodes| > 0
    requires var k := cfg.crypto.hash(w.key); ProbeMeets(nodes[Primary(k, |nodes|)].prime, k, Some(q))
    ensures var prim := Primary(cfg.crypto.hash(w.key), |nodes|);
            WriteEffect(cfg, nodes, w, Submit(cfg, nodes, w, prim, q, script, clock))
  {
    var prim := Primary(cfg.crypto.hash(w.key), |nodes|);
    var made := MakeSlot(cfg.crypto, w.key, w.value, w.tombstone, q.cand.guard + 1);
    RefusedEffect(cfg, nodes, w, clock);
    if made.Some? {
      ProposeAttempts(cfg, nodes, prim, q, made.value, script, clock);
      ProposedEffect(cfg, nodes, w, made.value, Propose(cfg, nodes, prim, q, made.value, script, clock));
    }
  }

  /** A write keeps the tables in order and every other live key; it leaves its own key with the slot it
      made when it reports a rule, and with the old slot, none or the one it made when it does not. */
  lemma WriteMeets(cfg: Config, nodes: seq<Node>, w: Write, script: Script, clock: nat)
    requires NodesOk(nodes) && |nodes| > 0
    ensures WriteEffect(cfg, nodes, w, WriteValue(cfg, nodes, w, script, clock))
  {
    var k := cfg.crypto.hash(w.key);
    var probed := ProbeSlot(nodes[Primary(k, |nodes|)].prime, k, script, clock);
    ProbeMeetsTable(nodes[Primary(k, |nodes|)].prime, k, script, clock);
    if probed.result.Some? {
      SubmitMeets(cfg, nodes, w, probed.result.value, script, probed.clock);
    } else {
      RefusedEffect(cfg, nodes, w, probed.clock);
    }
  }

  /** A read changes no PRIME or BACKUP slot. */
  lemma ReadMeets(cfg: Config, nodes: seq<Node>, key: string, script: Script, clock: nat)
    requires NodesOk(nodes) && |nodes| > 0
    ensures var r := ReadValue(cfg, nodes, key, script, clock);
            forall m :: 0 <= m < |nodes| ==> r.nodes[m].prime == nodes[m].prime && r.nodes[m].backup == nodes[m].backup
  {
  }

  // --------------------------------------------------------------------- values

  /** The value of a key: what the live PRIME slot of its primary decodes to. */
  function ValueOf(c: Crypto, nodes: seq<Node>, k: nat): Option<seq<byte>>
    requires |nodes| > 0
  {
    match PrimeLive(nodes, k)
    case None => None
    case Some(s) => DecodeSlot(c, s)
  }

  /** Every live slot decodes. */
  ghost predicate Decodable(c: Crypto, nodes: seq<Node>)
    requires |nodes| > 0
  {
    forall k :: PrimeLive(nodes, k).Some? ==> DecodeSlot(c, PrimeLive(nodes, k).value).Some?
  }

  /** What the key reads as once w is in effect. */
  function ValueWritten(w: Write): Option<seq<byte>> {
    if w.tombstone then None else Some(w.value)
  }

  lemma MadeDecodes(c: Crypto, w: Write, s: Slot)
    requires MadeBy(c, w, s)
    ensures DecodeSlot(c, s) == Some(w.value) && s.body.tombstone == w.tombstone && s.body.valid && s.Stable()
  {
    DecodeMade(c, w.key, w.value, w.tombstone, s.guard);
  }

  lemma OwnValue(c: Crypto, nodes: seq<Node>, w: Write, k: nat)
    requires |nodes| > 0 && PrimeSlot(nodes, k).Some? && MadeBy(c, w, PrimeSlot(nodes, k).value)
    ensures ValueOf(c, nodes, k) == ValueWritten(w)
    ensures PrimeLive(nodes, k).Some? ==> DecodeSlot(c, PrimeLive(nodes, k).value).Some?
  {
    MadeDecodes(c, w, PrimeSlot(nodes, k).value);
  }

  /** What a write may do to the values. */
  ghost predicate ValueEffect(c: Crypto, nodes: seq<Node>, w: Write, r: Written)
    requires |nodes| > 0 && |r.nodes| == |nodes|
  {
    var k := c.hash(w.key);
    && NodesOk(r.nodes) && Decodable(c, r.nodes)
    && (forall k2 :: k2 != k ==> ValueOf(c, r.nodes, k2) == ValueOf(c, nodes, k2))
    && (r.rule > 0 ==> ValueOf(c, r.nodes, k) == ValueWritten(w))
    && ValueOf(c, r.nodes, k) in {ValueOf(c, nodes, k), ValueWritten(w), None}
    && (Hopeless(w, {ValueOf(c, nodes, k)}) ==> ValueOf(c, r.nodes, k) == ValueOf(c, nodes, k))
  }

  /** The write sends no body to any node, given what the key may read as: its value is too long, or it is an update and
      the key has none. */
  predicate Hopeless(w: Write, before: set<Option<seq<byte>>>) {
    |w.value| > MAX_VALUE_SIZE || (w.updateOnly && before == {None})
  }

  lemma HopelessIsUnsent(cfg: Config, nodes: seq<Node>, w: Write, script: Script, clock: nat)
    requires NodesOk(nodes) && |nodes| > 0 && Decodable(cfg.crypto, nodes)
    requires Hopeless(w, {ValueOf(cfg.crypto, nodes, cfg.crypto.hash(w.key))})
    ensures WriteValue(cfg, nodes, w, script, clock).nodes == nodes
    ensures WriteValue(cfg, nodes, w, script, clock).rule == -1
  {
    var k := cfg.crypto.hash(w.key);
    assert None in {ValueOf(cfg.crypto, nodes, k)} ==> PrimeLive(nodes, k) == None;
    ProbeMeetsTable(nodes[Primary(k, |nodes|)].prime, k, script, clock);
  }

  lemma SlotEffectIsValueEffect(cfg: Config, nodes: seq<Node>, w: Write, r: Written)
    requires |nodes| > 0 && |r.nodes| == |nodes| && Decodable(cfg.crypto, nodes) && WriteEffect(cfg, nodes, w, r)
    requires Hopeless(w, {ValueOf(cfg.crypto, nodes, cfg.crypto.hash(w.key))}) ==> r.nodes == nodes
    ensures ValueEffect(cfg.crypto, nodes, w, r)
  {
    var k := cfg.crypto.hash(w.key);
    if PrimeSlot(r.nodes, k).Some? && MadeBy(cfg.crypto, w, PrimeSlot(r.nodes, k).value) {
      OwnValue(cfg.crypto, r.nodes, w, k);
    } else {
      assert PrimeSlot(r.nodes, k).Some? ==> PrimeLive(r.nodes, k) == PrimeLive(nodes, k);
    }
    forall k2 | PrimeLive(r.nodes, k2).Some? ensures DecodeSlot(cfg.crypto, PrimeLive(r.nodes, k2).value).Some? {
      assert k2 != k ==> PrimeLive(r.nodes, k2) == PrimeLive(nodes, k2);
    }
  }

  /** The same for values: a write that reports a rule has set the value; one that does not leaves the
      old value, the new one or none. No other key's value changes. */
  lemma WriteValues(cfg: Config, nodes: seq<Node>, w: Write, script: Script, clock: nat)
    requires NodesOk(nodes) && |nodes| > 0 && Decodable(cfg.crypto, nodes)
    ensures ValueEffect(cfg.crypto, nodes, w, WriteValue(cfg, nodes, w, script, clock))
  {
    WriteMeets(cfg, nodes, w, script, clock);
    if Hopeless(w, {ValueOf(cfg.crypto, nodes, cfg.crypto.hash(w.key))}) {
      HopelessIsUnsent(cfg, nodes, w, script, clock);
    }
    SlotEffectIsValueEffect(cfg, nodes, w, WriteValue(cfg, nodes, w, script, clock));
  }

  // ----------------------------------------------------------------------- runs

  datatype Op = DoWrite(w: Write) | DoRead(key: string)

  datatype Result = Ruled(rule: int) | Replied(reply: Reply)

  datatype Done = Done(nodes: seq<Node>, result: Result, clock: nat)

  function Step(cfg: Config, nodes: seq<Node>, op: Op, script: Script, clock: nat): (r: Done)
    requires |nodes| > 0
    ensures |r.nodes| == |nodes|
  {
    match op
    case DoWrite(w) => var r := WriteValue(cfg, nodes, w, script, clock); Done(r.nodes, Ruled(r.rule), r.clock)
    case DoRead(key) => var r := ReadValue(cfg, nodes, key, script, clock); Done(r.nodes, Replied(r.reply), r.clock)
  }

  datatype Ran = Ran(nodes: seq<Node>, results: seq<Result>, clock: nat)

  /** One client issues the operations one after the other. */
  function Run(cfg: Config, nodes: seq<Node>, ops: seq<Op>, script: Script, clock: nat): (r: Ran)
    requires |nodes| > 0
    ensures |r.nodes| == |nodes| && |r.results| == |ops|
  {
    if ops == [] then Ran(nodes, [], clock)
    else
      var before := Run(cfg, nodes, ops[..|ops| - 1], script, clock);
      var d := Step(cfg, before.nodes, ops[|ops| - 1], script, before.clock);
      Ran(d.nodes, before.results + [d.result], d.clock)
  }

  /** The nodes of a cluster that was just started. */
  ghost predicate Fresh(nodes: seq<Node>) {
    && |nodes| > 0
    && forall m, kind :: 0 <= m < |nodes| ==>
         forall i :: 0 <= i < |nodes[m].Part(kind)| ==> nodes[m].Part(kind)[i] == ZERO_SLOT
  }

  lemma {:induction false} FreshSlots(t: SlotArray, k: nat, i: nat)
    requires i <= |t| && forall j :: 0 <= j < |t| ==> t[j] == ZERO_SLOT
    ensures TableOk(t) && SlotFrom(t, k, i) == None
    decreases |t| - i
  {
    if i < |t| {
      FreshSlots(t, k, i + 1);
    }
  }

  lemma FreshNodes(c: Crypto, nodes: seq<Node>)
    requires Fresh(nodes)
    ensures NodesOk(nodes) && Decodable(c, nodes)
    ensures forall k :: ValueOf(c, nodes, k) == None
    ensures forall m :: 0 <= m < |nodes| ==> TableOk(nodes[m].cache)
    ensures forall m, k :: 0 <= m < |nodes| ==> LiveOf(nodes[m].cache, k) == None
  {
    forall m | 0 <= m < |nodes| ensures TableOk(nodes[m].prime) && TableOk(nodes[m].backup) {
      assert nodes[m].Part(Prime) == nodes[m].prime && nodes[m].Part(Backup) == nodes[m].backup;
      FreshSlots(nodes[m].prime, 0, 0);
      FreshSlots(nodes[m].backup, 0, 0);
    }
    forall k ensures PrimeLive(nodes, k) == None {
      var m := Primary(k, |nodes|);
      assert nodes[m].Part(Prime) == nodes[m].prime;
      FreshSlots(nodes[m].prime, k, 0);
    }
    forall m | 0 <= m < |nodes| ensures TableOk(nodes[m].cache) {
      assert nodes[m].Part(Cache) == nodes[m].cache;
      FreshSlots(nodes[m].cache, 0, 0);
    }
    forall m, k | 0 <= m < |nodes| ensures LiveOf(nodes[m].cache, k) == None {
      assert nodes[m].Part(Cache) == nodes[m].cache;
      FreshSlots(nodes[m].cache, k, 0);
    }
  }

  /** What key hash k may read as after the operations, given how they were answered: a write that reported a rule
      settles it, one that did not leaves it open between what it was, the new value and none, unless it can have
      sent nothing. */
  function Possible(c: Crypto, ops: seq<Op>, results: seq<Result>, k: nat): set<Option<seq<byte>>>
    requires |ops| == |results|
  {
    if ops == [] then {None}
    else
      var n := |ops| - 1;
      var before := Possible(c, ops[..n], results[..n], k);
      match (ops[n], results[n])
      case (DoWrite(w), Ruled(rule)) =>
        if c.hash(w.key) != k then before
        else if rule > 0 then {ValueWritten(w)}
        else if Hopeless(w, before) then before
        else before + {ValueWritten(w), None}
      case _ => before
  }

  lemma ReadKeepsValues(cfg: Config, nodes: seq<Node>, key: string, script: Script, clock: nat)
    requires NodesOk(nodes) && |nodes| > 0 && Decodable(cfg.crypto, nodes)
    ensures var r := ReadValue(cfg, nodes, key, script, clock);
            && NodesOk(r.nodes) && Decodable(cfg.crypto, r.nodes)
            && forall k :: ValueOf(cfg.crypto, r.nodes, k) == ValueOf(cfg.crypto, nodes, k)
  {
    var r := ReadValue(cfg, nodes, key, script, clock);
    ReadMeets(cfg, nodes, key, script, clock);
    forall k ensures PrimeLive(r.nodes, k) == PrimeLive(nodes, k) {
      assert r.nodes[Primary(k, |nodes|)].prime == nodes[Primary(k, |nodes|)].prime;
    }
  }

  /** Through any run with any faults: the tables stay in order, with at most one stable slot per key in each
      PRIME and BACKUP, every live slot decodes, and every key's value is one its history allows. */
  lemma {:induction false} RunValues(cfg: Config, nodes: seq<Node>, ops: seq<Op>, script: Script, clock: nat)
    requires Fresh(nodes)
    ensures var r := Run(cfg, nodes, ops, script, clock);
            && NodesOk(r.nodes) && Decodable(cfg.crypto, r.nodes)
            && forall k :: ValueOf(cfg.crypto, r.nodes, k) in Possible(cfg.crypto, ops, r.results, k)
  {
    if ops == [] {
      FreshNodes(cfg.crypto, nodes);
    } else {
      var n := |ops| - 1;
      var before := Run(cfg, nodes, ops[..n], script, clock);
      RunValues(cfg, nodes, ops[..n], script, clock);
      var r := Run(cfg, nodes, ops, script, clock);
      assert r.results[..n] == before.results;
      match ops[n]
      case DoWrite(w) =>
        WriteValues(cfg, before.nodes, w, script, before.clock);
      case DoRead(key) =>
        ReadKeepsValues(cfg, before.nodes, key, script, before.clock);
    }
  }

  /** The key has no slot in PRIME of its primary, nor a place there. */
  ghost predicate PrimeFull(nodes: seq<Node>, k: nat)
    requires |nodes| > 0
  {
    NoCandidate(nodes[Primary(k, |nodes|)].prime, k)
  }

  /** The reply due to a read of a key: its value; without one, an error if PRIME is full for it, and else "not
      found". */
  function ReplyDue(value: Option<seq<byte>>, full: bool): Reply {
    match value
    case Some(v) => Found(v)
    case None => if full then Failed else NotFound
  }

  /** A read without faults and without the cache replies with the key's value, finds nothing for a key without one,
      and errs just where PRIME is full for the key. */
  lemma ReadIsValue(cfg: Config, nodes: seq<Node>, key: string, script: Script, clock: nat)
    requires NodesOk(nodes) && |nodes| > 0 && Decodable(cfg.crypto, nodes)
    requires !cfg.cacheOn && ReliableFrom(script, clock)
    ensures var k := cfg.crypto.hash(key);
            ReadValue(cfg, nodes, key, script, clock).reply
                == ReplyDue(ValueOf(cfg.crypto, nodes, k), PrimeFull(nodes, k))
  {
    var k := cfg.crypto.hash(key);
    var t := nodes[Primary(k, |nodes|)].prime;
    ProbeExact(t, k, script, clock);
    ProbeMeetsTable(t, k, script, clock);
    SlotOfNone(t, k);
  }

  /** After any faulty run, what a fault-free read of a key replies is allowed by the history of the key alone. */
  lemma ReadAfterFaults(cfg: Config, nodes: seq<Node>, ops: seq<Op>, script: Script, clock: nat,
                        key: string, later: Script, now: nat)
    requires Fresh(nodes) && ReliableFrom(later, now)
    ensures var r := Run(cfg, nodes, ops, script, clock);
            var possible := Possible(cfg.crypto, ops, r.results, cfg.crypto.hash(key));
            match ReadValue(cfg.(cacheOn := false), r.nodes, key, later, now).reply
            case Found(v) => Some(v) in possible
            case NotFound => None in possible && !PrimeFull(r.nodes, cfg.crypto.hash(key))
            case Failed => None in possible && PrimeFull(r.nodes, cfg.crypto.hash(key))
  {
    RunValues(cfg, nodes, ops, script, clock);
    ReadIsValue(cfg.(cacheOn := false), Run(cfg, nodes, ops, script, clock).nodes, key, later, now);
  }
}
