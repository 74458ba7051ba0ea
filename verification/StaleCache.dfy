/** Why a cached read is only as good as the refreshes behind it: once a key has left its PRIME slot and come back
    to another, an old CACHE slot can carry the epoch the new one has reached. */
module StaleCache {
  import opened Slots
  import opened Table
  import opened Codec
  import opened Votes
  import opened Cluster

  /** One node, two PRIME slots, one CACHE slot, no replica; a client whose fetches 9, 14 and 19 are lost: the
      first call of each cache refresh after the first one. */
  function Lossy(i: nat): Fault {
    if i == 9 || i == 14 || i == 19 then Dropped else Delivered
  }

  function Nodes0(): seq<Node> {
    [Node([ZERO_SLOT, ZERO_SLOT], [ZERO_SLOT], [])]
  }

  function Slot1(c: Crypto, key: string, value: seq<byte>, tombstone: bool, epoch: nat): Slot
    requires |value| <= MAX_VALUE_SIZE
  {
    MakeSlot(c, key, value, tombstone, epoch).value
  }

  /** Keys a and y have the same home. */
  predicate SameHome(c: Crypto, a: string, y: string) {
    c.hash(a) == 0 && c.hash(y) == 2
  }

  function Cfg(c: Crypto): Config {
    Config(c, 1, true)
  }

  function Rest(p0: Slot, p1: Slot, cached: Slot): seq<Node> {
    [Node([p0, p1], [cached], [])]
  }

  lemma PutRest(p0: Slot, p1: Slot, cached: Slot, s: Slot)
    ensures Put(Rest(p0, p1, cached), 0, Prime, Rest(p0, p1, cached)[0].prime[0 := s]) == Rest(s, p1, cached)
    ensures Put(Rest(p0, p1, cached), 0, Prime, Rest(p0, p1, cached)[0].prime[1 := s]) == Rest(p0, s, cached)
    ensures Put(Rest(p0, p1, cached), 0, Cache, Rest(p0, p1, cached)[0].cache[0 := s]) == Rest(p0, p1, s)
  {
    assert [p0, p1][0 := s] == [s, p1] && [p0, p1][1 := s] == [p0, s] && [cached][0 := s] == [s];
  }

  /** A commit whose calls are both delivered. */
  lemma Commits(t: SlotArray, i: nat, p: Slot, script: Script, clock: nat)
    requires i < |t| && script(clock) == Delivered && script(clock + 1) == Delivered && p.Stable()
    ensures CommitSlot(t, i, p, t[i].guard, script, clock) == Committed(t[i := p], true, t[i].guard, clock + 2)
  {
    var t1 := WriteBody(t, i, p.body);
    assert t1[i].guard == t[i].guard;
    assert t1[i := Slot(p.body.visible, p.body)] == t[i := p];
  }

  /** A write without replicas, once its probe of PRIME has named candidate q, commits and refreshes the cache. */
  lemma WriteAlone(c: Crypto, nodes: seq<Node>, w: Write, script: Script, clock: nat, q: Probe, now: nat)
    requires |nodes| == 1 && |w.value| <= MAX_VALUE_SIZE && !w.updateOnly
    requires ProbeSlot(nodes[0].prime, c.hash(w.key), script, clock) == Probed(Some(q), now)
    requires q.candIndex < |nodes[0].prime| && q.cand == nodes[0].prime[q.candIndex]
    requires script(now) == Delivered && script(now + 1) == Delivered
    ensures var p := Slot1(c, w.key, w.value, w.tombstone, q.cand.guard + 1);
            var committed := Put(nodes, 0, Prime, nodes[0].prime[q.candIndex := p]);
            var r := Offered(committed, 0, Cache, p, script, now + 2);
            WriteValue(Cfg(c), nodes, w, script, clock) == Written(r.nodes, 1, r.clock)
  {
    var p := Slot1(c, w.key, w.value, w.tombstone, q.cand.guard + 1);
    WriteProposes(Cfg(c), nodes, w, script, clock, q, p);
    Commits(nodes[0].prime, q.candIndex, p, script, now);
    assert NoVotes(0) == [] && Successes([]) == 0;
  }

  /** A refresh whose first fetch is lost leaves the cache alone. */
  lemma RefreshLost(nodes: seq<Node>, p: Slot, script: Script, clock: nat)
    requires |nodes| == 1 && |nodes[0].cache| == 1 && script(clock) == Dropped
    ensures Offered(nodes, 0, Cache, p, script, clock) == Touched(nodes, clock + 1)
  {
    assert ProbeSlot(nodes[0].cache, p.body.key, script, clock) == Probed(None, clock + 1);
    assert Put(nodes, 0, Cache, nodes[0].cache) == nodes;
  }

  // ------------------------------------------------------------------- the operations

  lemma FirstRefresh(s: Slot)
    requires s.Stable() && s.body.key == 0
    ensures Offered(Rest(s, ZERO_SLOT, ZERO_SLOT), 0, Cache, s, Lossy, 3) == Touched(Rest(s, ZERO_SLOT, s), 6)
  {
    var nodes := Rest(s, ZERO_SLOT, ZERO_SLOT);
    var q := Probe(false, ZERO_SLOT, 0, true, ZERO_SLOT, 0);
    assert ProbeSlot(nodes[0].cache, 0, Lossy, 3) == Probed(Some(q), 4);
    Commits(nodes[0].cache, 0, s, Lossy, 4);
    PutRest(s, ZERO_SLOT, ZERO_SLOT, s);
  }

  lemma FirstProbe(nodes: seq<Node>, script: Script)
    requires nodes == Nodes0() && script == Lossy
    ensures ProbeSlot(nodes[0].prime, 0, script, 0) == Probed(Some(Probe(false, ZERO_SLOT, 0, true, ZERO_SLOT, 0)), 1)
  {
  }

  lemma FirstFrom(c: Crypto, nodes: seq<Node>, a: string, v: seq<byte>, script: Script)
    requires c.hash(a) == 0 && |v| <= MAX_VALUE_SIZE && nodes == Nodes0() && script == Lossy
    ensures var s := Slot1(c, a, v, false, 1);
            WriteValue(Cfg(c), nodes, Write(a, v, false, false), script, 0) == Written(Rest(s, ZERO_SLOT, s), 1, 6)
  {
    var s := Slot1(c, a, v, false, 1);
    var q := Probe(false, ZERO_SLOT, 0, true, ZERO_SLOT, 0);
    FirstProbe(nodes, script);
    WriteAlone(c, nodes, Write(a, v, false, false), script, 0, q, 1);
    PutRest(ZERO_SLOT, ZERO_SLOT, ZERO_SLOT, s);
    assert nodes == Rest(ZERO_SLOT, ZERO_SLOT, ZERO_SLOT);
    FirstRefresh(s);
  }

  lemma First(c: Crypto, a: string, v: seq<byte>)
    requires c.hash(a) == 0 && |v| <= MAX_VALUE_SIZE
    ensures var s := Slot1(c, a, v, false, 1);
            WriteValue(Cfg(c), Nodes0(), Write(a, v, false, false), Lossy, 0) == Written(Rest(s, ZERO_SLOT, s), 1, 6)
  {
    FirstFrom(c, Nodes0(), a, v, Lossy);
  }

  lemma Deletion(c: Crypto, a: string, v: seq<byte>)
    requires c.hash(a) == 0 && |v| <= MAX_VALUE_SIZE
    ensures var s, t := Slot1(c, a, v, false, 1), Slot1(c, a, [], true, 2);
            WriteValue(Cfg(c), Rest(s, ZERO_SLOT, s), Write(a, [], false, true), Lossy, 6)
                == Written(Rest(t, ZERO_SLOT, s), 1, 10)
  {
    var s, t := Slot1(c, a, v, false, 1), Slot1(c, a, [], true, 2);
    var nodes := Rest(s, ZERO_SLOT, s);
    var q := Probe(true, s, 0, true, s, 0);
    assert ProbeSlot(nodes[0].prime, 0, Lossy, 6) == Probed(Some(q), 7);
    WriteAlone(c, nodes, Write(a, [], false, true), Lossy, 6, q, 7);
    PutRest(s, ZERO_SLOT, s, t);
    RefreshLost(Rest(t, ZERO_SLOT, s), t, Lossy, 9);
  }

  lemma Takeover(c: Crypto, a: string, y: string, v: seq<byte>, u: seq<byte>)
    requires SameHome(c, a, y) && |v| <= MAX_VALUE_SIZE && |u| <= MAX_VALUE_SIZE
    ensures var s, t, z := Slot1(c, a, v, false, 1), Slot1(c, a, [], true, 2), Slot1(c, y, u, false, 3);
            WriteValue(Cfg(c), Rest(t, ZERO_SLOT, s), Write(y, u, false, false), Lossy, 10)
                == Written(Rest(z, ZERO_SLOT, s), 1, 15)
  {
    var s, t, z := Slot1(c, a, v, false, 1), Slot1(c, a, [], true, 2), Slot1(c, y, u, false, 3);
    var nodes := Rest(t, ZERO_SLOT, s);
    var q := Probe(false, ZERO_SLOT, 0, true, t, 0);
    assert ProbeFrom(nodes[0].prime, 2, 1, q, Lossy, 11) == Probed(Some(q), 12);
    assert ProbeSlot(nodes[0].prime, 2, Lossy, 10) == Probed(Some(q), 12);
    WriteAlone(c, nodes, Write(y, u, false, false), Lossy, 10, q, 12);
    PutRest(t, ZERO_SLOT, s, z);
    RefreshLost(Rest(z, ZERO_SLOT, s), z, Lossy, 14);
  }

  /** What the last write may be: any value stored under a, or its deletion. */
  predicate LastWrite(w: Write, a: string) {
    w.key == a && |w.value| <= MAX_VALUE_SIZE && !w.updateOnly
  }

  lemma Return(c: Crypto, a: string, y: string, v: seq<byte>, u: seq<byte>, w: Write)
    requires SameHome(c, a, y) && |v| <= MAX_VALUE_SIZE && |u| <= MAX_VALUE_SIZE && LastWrite(w, a)
    ensures var s, z, b := Slot1(c, a, v, false, 1), Slot1(c, y, u, false, 3), Slot1(c, a, w.value, w.tombstone, 1);
            WriteValue(Cfg(c), Rest(z, ZERO_SLOT, s), w, Lossy, 15) == Written(Rest(z, b, s), 1, 20)
  {
    var s, z, b := Slot1(c, a, v, false, 1), Slot1(c, y, u, false, 3), Slot1(c, a, w.value, w.tombstone, 1);
    var nodes := Rest(z, ZERO_SLOT, s);
    var q := Probe(false, ZERO_SLOT, 0, true, ZERO_SLOT, 1);
    assert ProbeFrom(nodes[0].prime, 0, 1, NO_PROBE, Lossy, 16) == Probed(Some(q), 17);
    assert ProbeSlot(nodes[0].prime, 0, Lossy, 15) == Probed(Some(q), 17);
    WriteAlone(c, nodes, w, Lossy, 15, q, 17);
    PutRest(z, ZERO_SLOT, s, b);
    RefreshLost(Rest(z, b, s), b, Lossy, 19);
  }

  lemma StaleRead(c: Crypto, a: string, y: string, v: seq<byte>, u: seq<byte>, w: Write)
    requires SameHome(c, a, y) && |v| <= MAX_VALUE_SIZE && |u| <= MAX_VALUE_SIZE && LastWrite(w, a)
    ensures var s, z, b := Slot1(c, a, v, false, 1), Slot1(c, y, u, false, 3), Slot1(c, a, w.value, w.tombstone, 1);
            && ReadValue(Cfg(c), Rest(z, b, s), a, Lossy, 20).reply == Found(v)
            && ReadValue(Cfg(c).(cacheOn := false), Rest(z, b, s), a, Lossy, 20).reply
                 == (if w.tombstone then NotFound else Found(w.value))
  {
    var s, z, b := Slot1(c, a, v, false, 1), Slot1(c, y, u, false, 3), Slot1(c, a, w.value, w.tombstone, 1);
    var nodes := Rest(z, b, s);
    var q := Probe(true, b, 1, true, b, 1);
    assert ProbeFrom(nodes[0].prime, 0, 1, NO_PROBE, Lossy, 21) == Probed(Some(q), 22);
    assert ProbeSlot(nodes[0].prime, 0, Lossy, 20) == Probed(Some(q), 22);
    var k := Probe(true, s, 0, true, s, 0);
    assert ProbeSlot(nodes[0].cache, 0, Lossy, 22) == Probed(Some(k), 23);
    DecodeMade(c, a, v, false, 1);
    DecodeMade(c, a, w.value, w.tombstone, 1);
  }

  /** Every one of four writes reports rule 1, the last one storing another value under a or deleting a; yet a cached
      read of a finds the first value, where a read of PRIME finds the last one, or nothing. No eviction and no
      second client is needed, only refreshes that are lost. */
  lemma CachedReadCanBeStale(c: Crypto, a: string, y: string, v: seq<byte>, u: seq<byte>, w: Write)
    requires SameHome(c, a, y) && |v| <= MAX_VALUE_SIZE && |u| <= MAX_VALUE_SIZE && LastWrite(w, a)
    ensures var r1 := WriteValue(Cfg(c), Nodes0(), Write(a, v, false, false), Lossy, 0);
            var r2 := WriteValue(Cfg(c), r1.nodes, Write(a, [], false, true), Lossy, r1.clock);
            var r3 := WriteValue(Cfg(c), r2.nodes, Write(y, u, false, false), Lossy, r2.clock);
            var r4 := WriteValue(Cfg(c), r3.nodes, w, Lossy, r3.clock);
            && r1.rule == r2.rule == r3.rule == r4.rule == 1
            && ReadValue(Cfg(c), r4.nodes, a, Lossy, r4.clock).reply == Found(v)
            && ReadValue(Cfg(c).(cacheOn := false), r4.nodes, a, Lossy, r4.clock).reply
                 == (if w.tombstone then NotFound else Found(w.value))
  {
    First(c, a, v);
    Deletion(c, a, v);
    Takeover(c, a, y, v, u);
    Return(c, a, y, v, u, w);
    StaleRead(c, a, y, v, u, w);
  }
}
