/** Cache coherence under eviction: one writer, any number of readers that also refresh, evictions anywhere. */
module CacheRuns {
  import opened Slots
  import opened Table
  import opened Codec
  import opened Cluster
  import opened Machine
  import opened Steps
  import opened Chains
  import opened CommitOrder
  import opened Values

  type Place = nat -> nat

  /** Every key that was ever written to PRIME lies where place says. */
  ghost predicate Placed(nodes: seq<Node>, place: Place) {
    forall m :: 0 <= m < |nodes| ==> TablePlaced(nodes[m].prime, place)
  }

  ghost predicate TablePlaced(t: SlotArray, place: Place) {
    forall i :: 0 <= i < |t| && t[i].body.valid ==> i == place(t[i].body.key)
  }

  /** Throughout the run every key keeps its PRIME slot. */
  ghost predicate KeepsPlaces(cfg: Config, s: State, events: seq<Event>, place: Place)
    requires |s.nodes| > 0
  {
    forall j :: 0 <= j <= |events| ==> Placed(Execute(cfg, s, events[..j]).nodes, place)
  }

  ghost predicate OneWriter(events: seq<Event>, writer: nat) {
    forall e :: e in events && e.Start? && e.op.DoWrite? ==> e.c == writer
  }

  // -------------------------------------------------------------------- invariant

  type History = set<(nat, nat, Body)>

  /** The body was written to PRIME of node m, in the place of its key. */
  ghost predicate Wrote(written: History, place: Place, m: nat, b: Body) {
    (m, place(b.key), b) in written
  }

  /** A PRIME slot has only gone forward in epochs, one body each. */
  ghost predicate HistoryOk(nodes: seq<Node>, written: History, place: Place) {
    && (forall x :: x in written ==>
          && x.0 < |nodes| && x.1 < |nodes[x.0].prime| && x.2.valid && x.1 == place(x.2.key)
          && x.2.visible <= nodes[x.0].prime[x.1].body.visible
          && (x.2.visible == nodes[x.0].prime[x.1].body.visible ==> x.2 == nodes[x.0].prime[x.1].body))
    && (forall x, y ::
          x in written && y in written && x.0 == y.0 && x.1 == y.1 && x.2.visible == y.2.visible ==> x == y)
    && (forall m :: 0 <= m < |nodes| ==> PrimeWritten(nodes[m].prime, written, m))
    && (forall m :: 0 <= m < |nodes| ==> CacheWritten(nodes[m].cache, written, place, m))
  }

  ghost predicate PrimeWritten(t: SlotArray, written: History, m: nat) {
    forall i :: 0 <= i < |t| && t[i].body.valid ==> (m, i, t[i].body) in written
  }

  ghost predicate CacheWritten(t: SlotArray, written: History, place: Place, m: nat) {
    forall i :: 0 <= i < |t| && t[i].body.valid ==> Wrote(written, place, m, t[i].body)
  }

  /** The PRIME slot a write is heading for is still as it was probed. */
  ghost predicate Undisturbed(nodes: seq<Node>, m: nat, i: nat, s: Slot) {
    m < |nodes| && i < |nodes[m].prime| && nodes[m].prime[i] == s
  }

  ghost predicate ReaderOk(cfg: Config, n: nat, written: History, place: Place, l: Local)
    requires n > 0
  {
    !l.Idle? && !l.task.Writes() ==>
      var p := Primary(TaskKey(cfg, l.task), n);
      && (l.task.stage != AtPrime && l.task.probe.found ==> Wrote(written, place, p, l.task.probe.slot.body))
      && (l.task.hit.Some? ==> Wrote(written, place, p, l.task.hit.value.body))
  }

  ghost predicate WriterOk(cfg: Config, nodes: seq<Node>, written: History, place: Place, l: Local)
    requires |nodes| > 0
  {
    !l.Idle? && l.task.Writes() ==>
      var p := Primary(TaskKey(cfg, l.task), |nodes|);
      && (l.Fetching? && l.task.stage == AtPrime && l.sofar.candValid
          ==> Undisturbed(nodes, p, l.sofar.candIndex, l.sofar.cand))
      && (BeforeCommit(l) ==>
            Undisturbed(nodes, p, l.task.probe.candIndex, l.task.probe.cand))
      && (PastCommit(l) || (l.Swapping? && l.task.stage == AtCommit) ==>
            Wrote(written, place, p, l.task.proposal.body))
  }

  ghost predicate CacheOk(cfg: Config, s: State, writer: nat, place: Place) {
    && ValuesOk(cfg, s)
    && HistoryOk(s.nodes, s.written, place)
    && forall c :: 0 <= c < |s.clients| ==>
         && (!s.clients[c].Idle? && s.clients[c].task.Writes() ==> c == writer)
         && ReaderOk(cfg, |s.nodes|, s.written, place, s.clients[c])
         && WriterOk(cfg, s.nodes, s.written, place, s.clients[c])
  }

  // ---------------------------------------------------------------------- fetches

  lemma FetchWritten(cfg: Config, nodes: seq<Node>, written: History, place: Place, l: Local, fault: Fault)
    requires |nodes| > 0 && TablesOk(nodes) && Placed(nodes, place) && HistoryOk(nodes, written, place)
    requires l.Fetching? && LocalOk(cfg, |nodes|, l) && l.kind != Backup
    ensures var f := Fetch(cfg, nodes, l, fault);
            f.Ends? && f.result.Some? && f.result.value.found ==> Wrote(written, place, l.m, f.result.value.slot.body)
  {
    if l.m < |nodes| {
      assert TablePlaced(nodes[l.m].prime, place);
      assert PrimeWritten(nodes[l.m].prime, written, l.m) && CacheWritten(nodes[l.m].cache, written, place, l.m);
    }
  }

  lemma FetchUndisturbed(cfg: Config, nodes: seq<Node>, l: Local, fault: Fault)
    requires |nodes| > 0 && l.Fetching? && l.kind == Prime && LocalOk(cfg, |nodes|, l)
    requires l.sofar.candValid ==> Undisturbed(nodes, l.m, l.sofar.candIndex, l.sofar.cand)
    ensures match Fetch(cfg, nodes, l, fault)
            case GoesOn(q) => q.candValid ==> Undisturbed(nodes, l.m, q.candIndex, q.cand)
            case Ends(r) => r.Some? ==> Undisturbed(nodes, l.m, r.value.candIndex, r.value.cand)
  {
  }

  // ------------------------------------------------------------------- local steps

  /** A write's local state after a probe or commit, as far as it matters here. */
  lemma WriterAfterProbe(cfg: Config, nodes: seq<Node>, written: History, place: Place, l: Local, r: Option<Probe>)
    requires |nodes| > 0 && l.Fetching? && l.task.Writes() && LocalOk(cfg, |nodes|, l)
    requires WriterOk(cfg, nodes, written, place, l)
    requires r.Some? ==> ProbeOk(r.value, TaskKey(cfg, l.task))
    requires l.task.stage == AtPrime && r.Some? ==> Undisturbed(nodes, l.m, r.value.candIndex, r.value.cand)
    ensures WriterOk(cfg, nodes, written, place, AfterProbe(cfg, |nodes|, l, r))
  {
    AfterProbeShape(cfg, |nodes|, l, r);
    AfterProbeTask(cfg, |nodes|, l, r);
  }

  lemma ReaderAfterProbe(cfg: Config, nodes: seq<Node>, written: History, place: Place, l: Local, r: Option<Probe>)
    requires |nodes| > 0 && l.Fetching? && !l.task.Writes() && LocalOk(cfg, |nodes|, l)
    requires ReaderOk(cfg, |nodes|, written, place, l)
    requires r.Some? ==> ProbeOk(r.value, TaskKey(cfg, l.task))
    requires r.Some? && r.value.found ==> Wrote(written, place, l.m, r.value.slot.body)
    ensures ReaderOk(cfg, |nodes|, written, place, AfterProbe(cfg, |nodes|, l, r))
  {
    AfterProbeShape(cfg, |nodes|, l, r);
    AfterProbeTask(cfg, |nodes|, l, r);
  }

  lemma ReaderAfterCommit(cfg: Config, n: nat, written: History, place: Place, l: Local, won: bool)
    requires n > 0 && (l.Writing? || l.Swapping?) && !l.task.Writes() && LocalOk(cfg, n, l)
    requires ReaderOk(cfg, n, written, place, l)
    ensures ReaderOk(cfg, n, written, place, AfterCommit(cfg, n, l, won))
  {
    AfterCommitShape(cfg, n, l, won);
  }

  // ---------------------------------------------------------------------- effects

  /** PRIME is as before, guards aside. */
  ghost predicate SamePrimeBodies(nodes: seq<Node>, nodes': seq<Node>) {
    && |nodes'| == |nodes|
    && forall m :: 0 <= m < |nodes| ==> SameBodies(nodes[m].prime, nodes'[m].prime)
  }

  ghost predicate SameBodies(t: SlotArray, t': SlotArray) {
    |t'| == |t| && forall i :: 0 <= i < |t| ==> t'[i].body == t[i].body
  }

  lemma HistoryFrame(nodes: seq<Node>, nodes': seq<Node>, written: History, place: Place)
    requires HistoryOk(nodes, written, place) && SamePrimeBodies(nodes, nodes')
    requires forall m :: 0 <= m < |nodes| ==> CacheWritten(nodes'[m].cache, written, place, m)
    ensures HistoryOk(nodes', written, place)
  {
    forall m | 0 <= m < |nodes| ensures PrimeWritten(nodes'[m].prime, written, m) {
      assert PrimeWritten(nodes[m].prime, written, m) && SameBodies(nodes[m].prime, nodes'[m].prime);
    }
    forall x | x in written
      ensures x.1 < |nodes'[x.0].prime| && nodes'[x.0].prime[x.1].body == nodes[x.0].prime[x.1].body
    {
      assert SameBodies(nodes[x.0].prime, nodes'[x.0].prime);
    }
  }

  /** The writer puts the next body into the PRIME slot it probed. */
  lemma HistoryGrows(nodes: seq<Node>, written: History, place: Place, m: nat, i: nat, b: Body)
    requires HistoryOk(nodes, written, place) && m < |nodes| && i < |nodes[m].prime|
    requires b.valid && i == place(b.key) && b.visible == nodes[m].prime[i].body.visible + 1
    ensures HistoryOk(Put(nodes, m, Prime, WriteBody(nodes[m].prime, i, b)), written + {(m, i, b)}, place)
  {
    var nodes' := Put(nodes, m, Prime, WriteBody(nodes[m].prime, i, b));
    var written' := written + {(m, i, b)};
    forall a | 0 <= a < |nodes|
      ensures PrimeWritten(nodes'[a].prime, written', a) && CacheWritten(nodes'[a].cache, written', place, a)
    {
      assert PrimeWritten(nodes[a].prime, written, a) && CacheWritten(nodes[a].cache, written, place, a);
    }
  }

  lemma CacheStored(nodes: seq<Node>, written: History, place: Place, m: nat, t: SlotArray)
    requires HistoryOk(nodes, written, place) && m < |nodes| && CacheWritten(t, written, place, m)
    ensures HistoryOk(Put(nodes, m, Cache, t), written, place)
  {
    var nodes' := Put(nodes, m, Cache, t);
    forall a | 0 <= a < |nodes| ensures CacheWritten(nodes'[a].cache, written, place, a) {
      assert CacheWritten(nodes[a].cache, written, place, a);
    }
    HistoryFrame(nodes, nodes', written, place);
  }

  /** What a client stores anywhere but by its own commit was in PRIME before. */
  lemma PayloadWritten(cfg: Config, nodes: seq<Node>, written: History, place: Place, l: Local)
    requires |nodes| > 0 && (l.Writing? || l.Swapping?) && LocalOk(cfg, |nodes|, l) && l.kind == Cache
    requires ReaderOk(cfg, |nodes|, written, place, l) && WriterOk(cfg, nodes, written, place, l)
    ensures Wrote(written, place, l.m, l.slot.body)
  {
  }

  lemma EffectHistory(cfg: Config, nodes: seq<Node>, written: History, place: Place, l: Local, e: Effect)
    requires |nodes| > 0 && HistoryOk(nodes, written, place) && Placed(Apply(nodes, e), place)
    requires LocalOk(cfg, |nodes|, l) && EffectOk(cfg, |nodes|, l, e) && LocalChained(cfg, nodes, l)
    requires ReaderOk(cfg, |nodes|, written, place, l) && WriterOk(cfg, nodes, written, place, l)
    ensures HistoryOk(Apply(nodes, e), written + NewWritten(e), place)
    ensures e.WroteBody? && e.kind == Prime ==> Wrote(written + NewWritten(e), place, e.m, e.b)
    ensures !(e.WroteBody? && e.kind == Prime) ==> SamePrimeBodies(nodes, Apply(nodes, e)) && NewWritten(e) == {}
  {
    match e
    case Nothing =>
      assert written + NewWritten(e) == written;
      assert forall m :: 0 <= m < |nodes| ==> SameBodies(nodes[m].prime, nodes[m].prime);
    case WroteBody(m, kind, i, b) =>
      PayloadIsProposal(cfg, |nodes|, l.task);
      if kind == Prime {
        assert Reach(nodes, m, Prime, TaskKey(cfg, l.task), i);
        assert Undisturbed(nodes, m, i, l.task.probe.cand);
        assert TablePlaced(Apply(nodes, e)[m].prime, place);
        assert Apply(nodes, e)[m].prime[i].body == b;
        HistoryGrows(nodes, written, place, m, i, b);
      } else {
        assert written + NewWritten(e) == written;
        StoreHistory(cfg, nodes, written, place, l, e);
      }
    case SwappedGuard(m, kind, i, compare, swap) =>
      assert written + NewWritten(e) == written;
      SwapHistory(nodes, written, place, e);
  }

  lemma StoreHistory(cfg: Config, nodes: seq<Node>, written: History, place: Place, l: Local, e: Effect)
    requires |nodes| > 0 && HistoryOk(nodes, written, place) && e.WroteBody? && e.kind != Prime
    requires LocalOk(cfg, |nodes|, l) && EffectOk(cfg, |nodes|, l, e)
    requires ReaderOk(cfg, |nodes|, written, place, l) && WriterOk(cfg, nodes, written, place, l)
    ensures HistoryOk(Apply(nodes, e), written, place) && SamePrimeBodies(nodes, Apply(nodes, e))
  {
    var nodes' := Apply(nodes, e);
    forall m | 0 <= m < |nodes| ensures SameBodies(nodes[m].prime, nodes'[m].prime) {
    }
    if e.m < |nodes| && e.i < |nodes[e.m].Part(e.kind)| {
      assert CacheWritten(nodes[e.m].cache, written, place, e.m);
      if e.kind == Cache {
        PayloadWritten(cfg, nodes, written, place, l);
        CacheStored(nodes, written, place, e.m, WriteBody(nodes[e.m].cache, e.i, e.b));
      } else {
        HistoryFrame(nodes, nodes', written, place);
      }
    }
  }

  lemma SwapHistory(nodes: seq<Node>, written: History, place: Place, e: Effect)
    requires HistoryOk(nodes, written, place) && e.SwappedGuard?
    ensures HistoryOk(Apply(nodes, e), written, place) && SamePrimeBodies(nodes, Apply(nodes, e))
  {
    var nodes' := Apply(nodes, e);
    forall m | 0 <= m < |nodes|
      ensures SameBodies(nodes[m].prime, nodes'[m].prime) && CacheWritten(nodes'[m].cache, written, place, m)
    {
      assert CacheWritten(nodes[m].cache, written, place, m);
    }
    HistoryFrame(nodes, nodes', written, place);
  }

  lemma EvictHistory(nodes: seq<Node>, written: History, place: Place, m: nat, i: nat)
    requires HistoryOk(nodes, written, place)
    ensures HistoryOk(Apply(nodes, Evicted(m, i)), written, place)
    ensures forall a :: 0 <= a < |nodes| ==> Apply(nodes, Evicted(m, i))[a].prime == nodes[a].prime
  {
    if m < |nodes| && i < |nodes[m].cache| && nodes[m].cache[i].body.valid {
      assert CacheWritten(nodes[m].cache, written, place, m);
      CacheStored(nodes, written, place, m, nodes[m].cache[i := ZERO_SLOT]);
    }
  }

  // -------------------------------------------------------------------- whole steps

  ghost predicate SamePrimes(nodes: seq<Node>, nodes': seq<Node>) {
    |nodes'| == |nodes| && forall m :: 0 <= m < |nodes| ==> nodes'[m].prime == nodes[m].prime
  }

  lemma WriterFrame(cfg: Config, nodes: seq<Node>, nodes': seq<Node>, written: History, more: History, place: Place,
                    l: Local)
    requires |nodes| > 0 && SamePrimes(nodes, nodes') && WriterOk(cfg, nodes, written, place, l)
    ensures WriterOk(cfg, nodes', written + more, place, l)
  {
  }

  lemma ReaderFrame(cfg: Config, n: nat, written: History, more: History, place: Place, l: Local)
    requires n > 0 && ReaderOk(cfg, n, written, place, l)
    ensures ReaderOk(cfg, n, written + more, place, l)
  {
  }

  lemma WriterFetches(cfg: Config, nodes: seq<Node>, written: History, place: Place, l: Local, fault: Fault)
    requires |nodes| > 0 && TablesOk(nodes) && l.Fetching? && l.task.Writes() && LocalOk(cfg, |nodes|, l)
    requires WriterOk(cfg, nodes, written, place, l)
    ensures WriterOk(cfg, nodes, written, place, Advance(cfg, nodes, l, fault).local)
  {
    FetchShape(cfg, nodes, l, fault);
    if l.task.stage == AtPrime {
      FetchUndisturbed(cfg, nodes, l, fault);
    }
    var f := Fetch(cfg, nodes, l, fault);
    if f.Ends? {
      WriterAfterProbe(cfg, nodes, written, place, l, f.result);
    }
  }

  lemma WriterStoresElsewhere(cfg: Config, nodes: seq<Node>, nodes': seq<Node>, written: History, more: History,
                              place: Place, l: Local, fault: Fault)
    requires (l.Writing? || l.Swapping?) && l.task.Writes() && l.task.stage != AtCommit
    requires |nodes| > 0 && SamePrimes(nodes, nodes') && LocalOk(cfg, |nodes|, l)
    requires WriterOk(cfg, nodes, written, place, l)
    ensures WriterOk(cfg, nodes', written + more, place, Advance(cfg, nodes, l, fault).local)
  {
    WriterFrame(cfg, nodes, nodes', written, more, place, l);
    AfterCommitShape(cfg, |nodes|, l, false);
    AfterCommitShape(cfg, |nodes|, l, true);
  }

  lemma WriterStores(cfg: Config, nodes: seq<Node>, nodes': seq<Node>, written: History, more: History, place: Place,
                     l: Local, fault: Fault)
    requires |nodes'| == |nodes| > 0 && (l.Writing? || l.Swapping?) && l.task.Writes() && LocalOk(cfg, |nodes|, l)
    requires WriterOk(cfg, nodes, written, place, l)
    requires l.task.stage != AtCommit ==> SamePrimes(nodes, nodes')
    requires l.Writing? && fault == Delivered && l.task.stage == AtCommit
             ==> Wrote(written + more, place, l.m, l.slot.body)
    ensures WriterOk(cfg, nodes', written + more, place, Advance(cfg, nodes, l, fault).local)
  {
    if l.task.stage == AtCommit {
      AfterCommitShape(cfg, |nodes|, l, false);
      AfterCommitShape(cfg, |nodes|, l, true);
    } else {
      WriterStoresElsewhere(cfg, nodes, nodes', written, more, place, l, fault);
    }
  }

  lemma ReaderAdvances(cfg: Config, nodes: seq<Node>, written: History, place: Place, l: Local, fault: Fault)
    requires |nodes| > 0 && TablesOk(nodes) && Placed(nodes, place) && HistoryOk(nodes, written, place)
    requires !l.Idle? && !l.task.Writes() && LocalOk(cfg, |nodes|, l) && ReaderOk(cfg, |nodes|, written, place, l)
    ensures ReaderOk(cfg, |nodes|, written, place, Advance(cfg, nodes, l, fault).local)
  {
    if l.Fetching? {
      FetchShape(cfg, nodes, l, fault);
      FetchWritten(cfg, nodes, written, place, l, fault);
      var f := Fetch(cfg, nodes, l, fault);
      if f.Ends? {
        ReaderAfterProbe(cfg, nodes, written, place, l, f.result);
      }
    } else if l.Writing? || l.Swapping? {
      ReaderAfterCommit(cfg, |nodes|, written, place, l, false);
      ReaderAfterCommit(cfg, |nodes|, written, place, l, true);
    }
  }

  lemma EffectPrimes(cfg: Config, nodes: seq<Node>, l: Local, e: Effect)
    requires |nodes| > 0 && LocalOk(cfg, |nodes|, l) && EffectOk(cfg, |nodes|, l, e)
    requires l.Idle? || !l.task.Writes() || l.task.stage != AtCommit
    ensures SamePrimes(nodes, Apply(nodes, e))
  {
  }

  lemma ReaderStep(cfg: Config, nodes: seq<Node>, written: History, place: Place, l: Local, fault: Fault)
    requires |nodes| > 0 && TablesOk(nodes) && Placed(nodes, place) && HistoryOk(nodes, written, place)
    requires !l.Idle? && !l.task.Writes() && LocalOk(cfg, |nodes|, l) && ReaderOk(cfg, |nodes|, written, place, l)
    ensures var move := Advance(cfg, nodes, l, fault);
            && ReaderOk(cfg, |nodes|, written + NewWritten(move.effect), place, move.local)
            && SamePrimes(nodes, Apply(nodes, move.effect))
  {
    var move := Advance(cfg, nodes, l, fault);
    AdvanceShape(cfg, nodes, l, fault);
    ReaderAdvances(cfg, nodes, written, place, l, fault);
    ReaderFrame(cfg, |nodes|, written, NewWritten(move.effect), place, move.local);
    EffectPrimes(cfg, nodes, l, move.effect);
  }

  lemma WriterStep(cfg: Config, nodes: seq<Node>, written: History, place: Place, l: Local, fault: Fault)
    requires |nodes| > 0 && TablesOk(nodes) && !l.Idle? && l.task.Writes()
    requires LocalOk(cfg, |nodes|, l) && WriterOk(cfg, nodes, written, place, l)
    requires var e := Advance(cfg, nodes, l, fault).effect;
             e.WroteBody? && e.kind == Prime ==> Wrote(written + NewWritten(e), place, e.m, e.b)
    ensures var move := Advance(cfg, nodes, l, fault);
            WriterOk(cfg, Apply(nodes, move.effect), written + NewWritten(move.effect), place, move.local)
  {
    var move := Advance(cfg, nodes, l, fault);
    if l.Fetching? {
      WriterFetches(cfg, nodes, written, place, l, fault);
      WriterFrame(cfg, nodes, nodes, written, {}, place, move.local);
    } else if l.Writing? || l.Swapping? {
      AdvanceShape(cfg, nodes, l, fault);
      if l.task.stage != AtCommit {
        EffectPrimes(cfg, nodes, l, move.effect);
      }
      WriterStores(cfg, nodes, Apply(nodes, move.effect), written, NewWritten(move.effect), place, l, fault);
    }
  }

  lemma OwnStep(cfg: Config, s: State, writer: nat, place: Place, c: nat, fault: Fault)
    requires CacheOk(cfg, s, writer, place) && c < |s.clients| && Placed(s.nodes, place)
    requires Placed(Next(cfg, s, Act(c, fault)).nodes, place)
    ensures var r := Next(cfg, s, Act(c, fault));
            && HistoryOk(r.nodes, r.written, place)
            && (!r.clients[c].Idle? && r.clients[c].task.Writes() ==> c == writer)
            && ReaderOk(cfg, |r.nodes|, r.written, place, r.clients[c])
            && WriterOk(cfg, r.nodes, r.written, place, r.clients[c])
            && (c != writer ==> SamePrimes(s.nodes, r.nodes))
  {
    var l := s.clients[c];
    var move := Advance(cfg, s.nodes, l, fault);
    AdvanceShape(cfg, s.nodes, l, fault);
    AdvanceKeepsId(cfg, s.nodes, l, fault);
    EffectHistory(cfg, s.nodes, s.written, place, l, move.effect);
    if l.Idle? {
    } else if l.task.Writes() {
      WriterStep(cfg, s.nodes, s.written, place, l, fault);
    } else {
      ReaderStep(cfg, s.nodes, s.written, place, l, fault);
    }
  }

  lemma OtherStep(cfg: Config, s: State, writer: nat, place: Place, c: nat, d: nat, fault: Fault)
    requires CacheOk(cfg, s, writer, place) && c < |s.clients| && d < |s.clients| && d != c
    requires var r := Next(cfg, s, Act(c, fault)); c != writer ==> SamePrimes(s.nodes, r.nodes)
    ensures var r := Next(cfg, s, Act(c, fault));
            ReaderOk(cfg, |r.nodes|, r.written, place, r.clients[d])
                && WriterOk(cfg, r.nodes, r.written, place, r.clients[d])
  {
    var more := NewWritten(Advance(cfg, s.nodes, s.clients[c], fault).effect);
    ReaderFrame(cfg, |s.nodes|, s.written, more, place, s.clients[d]);
    if c != writer {
      WriterFrame(cfg, s.nodes, Next(cfg, s, Act(c, fault)).nodes, s.written, more, place, s.clients[d]);
    }
  }

  lemma CacheNext(cfg: Config, s: State, event: Event, writer: nat, place: Place)
    requires CacheOk(cfg, s, writer, place) && Placed(s.nodes, place) && Placed(Next(cfg, s, event).nodes, place)
    requires event.Start? && event.op.DoWrite? ==> event.c == writer
    ensures CacheOk(cfg, Next(cfg, s, event), writer, place)
  {
    ValuesNext(cfg, s, event);
    match event
    case Start(c, op) =>
    case Evict(m, i) =>
      EvictHistory(s.nodes, s.written, place, m, i);
      forall c | 0 <= c < |s.clients|
        ensures WriterOk(cfg, Apply(s.nodes, Evicted(m, i)), s.written, place, s.clients[c])
      {
        WriterFrame(cfg, s.nodes, Apply(s.nodes, Evicted(m, i)), s.written, {}, place, s.clients[c]);
        assert s.written + {} == s.written;
      }
    case Act(c, fault) =>
      if c < |s.clients| {
        OwnStep(cfg, s, writer, place, c, fault);
        forall d | 0 <= d < |s.clients| && d != c
          ensures var r := Next(cfg, s, event);
                  ReaderOk(cfg, |r.nodes|, r.written, place, r.clients[d])
                      && WriterOk(cfg, r.nodes, r.written, place, r.clients[d])
        {
          OtherStep(cfg, s, writer, place, c, d, fault);
        }
      }
  }

  lemma {:induction false} CacheAlways(cfg: Config, s: State, events: seq<Event>, writer: nat, place: Place)
    requires Initial(s) && OneWriter(events, writer) && KeepsPlaces(cfg, s, events, place)
    ensures CacheOk(cfg, Execute(cfg, s, events), writer, place)
  {
    if events == [] {
      ValuesAlways(cfg, s, []);
      forall m | 0 <= m < |s.nodes|
        ensures PrimeWritten(s.nodes[m].prime, s.written, m) && CacheWritten(s.nodes[m].cache, s.written, place, m)
      {
        assert s.nodes[m].Part(Prime) == s.nodes[m].prime && s.nodes[m].Part(Cache) == s.nodes[m].cache;
      }
    } else {
      var n := |events| - 1;
      forall j | 0 <= j <= n ensures Placed(Execute(cfg, s, events[..n][..j]).nodes, place) {
        assert events[..n][..j] == events[..j];
      }
      assert events[..n][..n] == events[..n] && events[..n + 1] == events;
      assert Placed(Execute(cfg, s, events[..n]).nodes, place) && Placed(Execute(cfg, s, events[..n + 1]).nodes, place);
      assert OneWriter(events[..n], writer);
      assert events[n] in events;
      CacheAlways(cfg, s, events[..n], writer, place);
      CacheNext(cfg, Execute(cfg, s, events[..n]), events[n], writer, place);
    }
  }

  /** With one writer, any number of refreshing readers and any evictions, and no key leaving its PRIME slot: a read
      served from CACHE was served the very slot its probe of PRIME had seen there. */
  lemma CacheHitsArePrime(cfg: Config, s: State, events: seq<Event>, writer: nat, place: Place, c: nat)
    requires Initial(s) && OneWriter(events, writer) && KeepsPlaces(cfg, s, events, place) && c < |s.clients|
    requires var l := Execute(cfg, s, events).clients[c];
             l.Returning? && l.result.Replied? && l.result.reply.Found? && l.task.hit.Some?
    ensures var l := Execute(cfg, s, events).clients[c];
            var k := TaskKey(cfg, l.task);
            && l.task.hit == Some(l.task.probe.slot)
            && DecodeSlot(cfg.crypto, l.task.probe.slot) == Some(l.result.reply.value)
            && (Primary(k, |s.nodes|), place(k), l.task.probe.slot.body) in Execute(cfg, s, events).written
  {
    CacheAlways(cfg, s, events, writer, place);
    var r := Execute(cfg, s, events);
    var l := r.clients[c];
    assert LocalOk(cfg, |r.nodes|, l) && LocalGenuine(cfg, r.calls, l);
    assert ReaderOk(cfg, |r.nodes|, r.written, place, l);
    var p := Primary(TaskKey(cfg, l.task), |r.nodes|);
    var a, b := l.task.hit.value.body, l.task.probe.slot.body;
    assert (p, place(a.key), a) in r.written && (p, place(b.key), b) in r.written;
  }
}
