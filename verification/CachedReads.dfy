/** When a read through the cache is right: exactly when it replies as a read of PRIME would. */
module CachedReads {
  import opened Slots
  import opened Table
  import opened Codec
  import opened Cluster
  import opened Effects
  import opened FaultyRuns
  import opened Refinement

  // ------------------------------------------------------------- what CACHE offers

  /** The live slot of k that a probe of table t comes upon. In a table in order that is the live slot of k; eviction
      may have hidden that one, and left others. */
  function Offer(t: SlotArray, k: nat): Option<Slot> {
    match ProbeSlot(t, k, i => Delivered, 0).result
    case None => None
    case Some(q) => if q.found && q.slot.Present(k) then Some(q.slot) else None
  }

  lemma {:induction false} ProbesAgree(t: SlotArray, k: nat, d: nat, p: Probe, s1: Script, c1: nat, s2: Script, c2: nat)
    requires d <= |t| && (p.candValid ==> p.candIndex < |t|) && !p.found
    requires ReliableFrom(s1, c1) && ReliableFrom(s2, c2)
    ensures ProbeFrom(t, k, d, p, s1, c1).result == ProbeFrom(t, k, d, p, s2, c2).result
    ensures var r := ProbeFrom(t, k, d, p, s1, c1).result; r.Some? && r.value.found ==> r.value.slot.Holds(k)
    decreases |t| - d
  {
    if d < |t| {
      var i := Pos(Home(k, |t|), d, |t|);
      match Examine(p, i, t[i], k)
      case Halt(q) =>
      case More(q) => ProbesAgree(t, k, d + 1, q, s1, c1 + 1, s2, c2 + 1);
    }
  }

  lemma OfferIsLive(t: SlotArray, k: nat)
    requires TableOk(t)
    ensures Offer(t, k) == LiveOf(t, k)
  {
    ProbeMeetsTable(t, k, i => Delivered, 0);
    SlotOfNone(t, k);
  }

  /** A read of k takes this slot from CACHE: PRIME's slot of k, a tombstone perhaps, has the same epoch, and the MAC
      is right. */
  ghost predicate Served(c: Crypto, nodes: seq<Node>, k: nat, offer: Option<Slot>)
    requires |nodes| > 0
  {
    && PrimeSlot(nodes, k).Some? && offer.Some?
    && offer.value.guard == PrimeSlot(nodes, k).value.guard
    && DecodeSlot(c, offer.value).Some?
  }

  /** It does, and what it reads is not the value of k. */
  ghost predicate Misleads(c: Crypto, nodes: seq<Node>, k: nat, offer: Option<Slot>)
    requires |nodes| > 0
  {
    Served(c, nodes, k, offer) && DecodeSlot(c, offer.value) != ValueOf(c, nodes, k)
  }

  function CacheOf(nodes: seq<Node>, k: nat): SlotArray
    requires |nodes| > 0
  {
    nodes[Primary(k, |nodes|)].cache
  }

  function WithCache(cfg: Config, on: bool): Config {
    cfg.(cacheOn := on)
  }

  // ------------------------------------------------------------------- the condition

  /** How the probes of a cached read turn out. */
  lemma ReadProbes(nodes: seq<Node>, k: nat, script: Script, clock: nat)
    requires |nodes| > 0 && NodesOk(nodes) && ReliableFrom(script, clock)
    ensures var t := nodes[Primary(k, |nodes|)].prime;
            var probed := ProbeSlot(t, k, script, clock);
            var cached := ProbeSlot(CacheOf(nodes, k), k, script, probed.clock).result;
            && ProbeMeets(t, k, probed.result)
            && Offer(CacheOf(nodes, k), k) == (if cached.Some? && cached.value.found && cached.value.slot.Present(k)
                                               then Some(cached.value.slot) else None)
            && (cached.Some? && cached.value.found ==> cached.value.slot.Holds(k))
  {
    var t := nodes[Primary(k, |nodes|)].prime;
    ProbeMeetsTable(t, k, script, clock);
    ClockForwardFrom(t, k, 0, NO_PROBE, script, clock);
    ProbesAgree(CacheOf(nodes, k), k, 0, NO_PROBE, script, ProbeSlot(t, k, script, clock).clock, i => Delivered, 0);
  }

  lemma HitServes(cfg: Config, nodes: seq<Node>, key: string, script: Script, clock: nat)
    requires |nodes| > 0 && NodesOk(nodes) && ReliableFrom(script, clock)
    requires var k := cfg.crypto.hash(key); Served(cfg.crypto, nodes, k, Offer(CacheOf(nodes, k), k))
    ensures var k := cfg.crypto.hash(key);
            ReadValue(WithCache(cfg, true), nodes, key, script, clock).reply
              == Found(DecodeSlot(cfg.crypto, Offer(CacheOf(nodes, k), k).value).value)
  {
    var k := cfg.crypto.hash(key);
    ReadProbes(nodes, k, script, clock);
    SlotOfNone(nodes[Primary(k, |nodes|)].prime, k);
  }

  lemma MissServes(cfg: Config, nodes: seq<Node>, key: string, script: Script, clock: nat)
    requires |nodes| > 0 && NodesOk(nodes) && ReliableFrom(script, clock)
    requires var k := cfg.crypto.hash(key); !Served(cfg.crypto, nodes, k, Offer(CacheOf(nodes, k), k))
    ensures ReadValue(WithCache(cfg, true), nodes, key, script, clock).reply
         == ReadValue(WithCache(cfg, false), nodes, key, script, clock).reply
  {
    ReadProbes(nodes, cfg.crypto.hash(key), script, clock);
  }

  /** With and without the cache a read replies the same just when CACHE, in whatever state evictions have left it, does
      not mislead about the key. */
  lemma CachedReadIff(cfg: Config, nodes: seq<Node>, key: string, script: Script, clock: nat)
    requires |nodes| > 0 && NodesOk(nodes) && Decodable(cfg.crypto, nodes) && ReliableFrom(script, clock)
    ensures var k := cfg.crypto.hash(key);
            ReadValue(WithCache(cfg, true), nodes, key, script, clock).reply
              == ReadValue(WithCache(cfg, false), nodes, key, script, clock).reply
            <==> !Misleads(cfg.crypto, nodes, k, Offer(CacheOf(nodes, k), k))
  {
    var k := cfg.crypto.hash(key);
    if Served(cfg.crypto, nodes, k, Offer(CacheOf(nodes, k), k)) {
      HitServes(cfg, nodes, key, script, clock);
      ReadIsValue(WithCache(cfg, false), nodes, key, script, clock);
    } else {
      MissServes(cfg, nodes, key, script, clock);
    }
  }

  /** The same where CACHE is in order. */
  lemma CachedReadInOrderIff(cfg: Config, nodes: seq<Node>, key: string, script: Script, clock: nat)
    requires |nodes| > 0 && NodesOk(nodes) && CachesOk(nodes) && Decodable(cfg.crypto, nodes)
    requires ReliableFrom(script, clock)
    ensures var k := cfg.crypto.hash(key);
            ReadValue(WithCache(cfg, true), nodes, key, script, clock).reply
              == ReadValue(WithCache(cfg, false), nodes, key, script, clock).reply
            <==> !Misleads(cfg.crypto, nodes, k, CacheLive(nodes, k))
  {
    OfferIsLive(CacheOf(nodes, cfg.crypto.hash(key)), cfg.crypto.hash(key));
    CachedReadIff(cfg, nodes, key, script, clock);
  }

  // ------------------------------------------------------------------ after any run

  lemma WriteKeepsCaches(cfg: Config, nodes: seq<Node>, w: Write, script: Script, clock: nat)
    requires |nodes| > 0 && NodesOk(nodes) && CachesOk(nodes)
    ensures CachesOk(WriteValue(cfg, nodes, w, script, clock).nodes)
  {
    var k := cfg.crypto.hash(w.key);
    var prim := Primary(k, |nodes|);
    var probed := ProbeSlot(nodes[prim].prime, k, script, clock);
    ProbeMeetsTable(nodes[prim].prime, k, script, clock);
    if probed.result.Some? {
      var q := probed.result.value;
      var made := MakeSlot(cfg.crypto, w.key, w.value, w.tombstone, q.cand.guard + 1);
      if !(w.updateOnly && !(q.found && q.slot.Present(k))) && made.Some? {
        WriteProposes(cfg, nodes, w, script, clock, q, made.value);
        ProposeAttempts(cfg, nodes, prim, q, made.value, script, probed.clock);
        AttemptedCaches(nodes, WriteValue(cfg, nodes, w, script, clock).nodes, made.value);
      }
    }
  }

  lemma ReadKeepsCaches(cfg: Config, nodes: seq<Node>, key: string, script: Script, clock: nat)
    requires |nodes| > 0 && NodesOk(nodes) && CachesOk(nodes)
    ensures CachesOk(ReadValue(cfg, nodes, key, script, clock).nodes)
  {
    var k := cfg.crypto.hash(key);
    var prim := Primary(k, |nodes|);
    var probed := ProbeSlot(nodes[prim].prime, k, script, clock);
    ProbeMeetsTable(nodes[prim].prime, k, script, clock);
    if probed.result.Some? {
      var q := probed.result.value;
      var cached := ProbeSlot(nodes[prim].cache, k, script, probed.clock);
      ReadPrimeKeepsCaches(cfg, nodes, k, q, script, probed.clock);
      ReadPrimeKeepsCaches(cfg, nodes, k, q, script, cached.clock);
    }
  }

  lemma ReadPrimeKeepsCaches(cfg: Config, nodes: seq<Node>, k: nat, q: Probe, script: Script, clock: nat)
    requires |nodes| > 0 && NodesOk(nodes) && CachesOk(nodes)
    requires ProbeMeets(nodes[Primary(k, |nodes|)].prime, k, Some(q))
    ensures CachesOk(ReadPrime(cfg, nodes, k, q, script, clock).nodes)
  {
    if cfg.cacheOn && q.found {
      assert SlotOk(nodes[Primary(k, |nodes|)].prime[q.candIndex]);
      StoreAttempts(nodes, Primary(k, |nodes|), Cache, q.slot, script, clock);
      AttemptedCaches(nodes, Offered(nodes, Primary(k, |nodes|), Cache, q.slot, script, clock).nodes, q.slot);
    }
  }

  /** Faults leave CACHE in order too, if nobody evicts. */
  lemma {:induction false} RunKeepsCaches(cfg: Config, nodes: seq<Node>, ops: seq<Op>, script: Script, clock: nat)
    requires Fresh(nodes)
    ensures CachesOk(Run(cfg, nodes, ops, script, clock).nodes)
  {
    if ops == [] {
      FreshNodes(cfg.crypto, nodes);
    } else {
      var n := |ops| - 1;
      var before := Run(cfg, nodes, ops[..n], script, clock);
      RunKeepsCaches(cfg, nodes, ops[..n], script, clock);
      RunValues(cfg, nodes, ops[..n], script, clock);
      match ops[n]
      case DoWrite(w) => WriteKeepsCaches(cfg, before.nodes, w, script, before.clock);
      case DoRead(key) => ReadKeepsCaches(cfg, before.nodes, key, script, before.clock);
    }
  }

  /** After any faulty run of one client, without evictions, a later fault-free cached read is right just when the live
      CACHE slot of the key does not mislead. */
  lemma CachedReadAfterFaultsIff(cfg: Config, nodes: seq<Node>, ops: seq<Op>, script: Script, clock: nat,
                                 key: string, later: Script, now: nat)
    requires Fresh(nodes) && ReliableFrom(later, now)
    ensures var r := Run(cfg, nodes, ops, script, clock);
            var k := cfg.crypto.hash(key);
            ReadValue(WithCache(cfg, true), r.nodes, key, later, now).reply
              == ReadValue(WithCache(cfg, false), r.nodes, key, later, now).reply
            <==> !Misleads(cfg.crypto, r.nodes, k, CacheLive(r.nodes, k))
  {
    RunValues(cfg, nodes, ops, script, clock);
    RunKeepsCaches(cfg, nodes, ops, script, clock);
    CachedReadInOrderIff(cfg, Run(cfg, nodes, ops, script, clock).nodes, key, later, now);
  }
}
