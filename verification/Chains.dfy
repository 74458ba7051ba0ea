/** Probe chains never break: in every interleaving, faults and half-finished commits included, no empty slot
    of PRIME or BACKUP lies between a key's home and any slot written for that key. */
module Chains {
  import opened Slots
  import opened Table
  import opened Cluster
  import opened Machine
  import opened Steps

  /** Slot i can be reached from the home of k. */
  ghost predicate Reach(nodes: seq<Node>, m: nat, kind: Kind, k: nat, i: nat) {
    m < |nodes| && i < |nodes[m].Part(kind)| && ChainTo(nodes[m].Part(kind), k, i)
  }

  /** The first d slots a scan for k looks at are not empty. */
  ghost predicate Scanned(t: SlotArray, k: nat, d: nat) {
    d <= |t| && forall e :: 0 <= e < d ==> !t[Pos(Home(k, |t|), e, |t|)].IsEmpty()
  }

  ghost predicate LocalChained(cfg: Config, nodes: seq<Node>, l: Local)
    requires |nodes| > 0
  {
    l.Idle? ||
    var k := TaskKey(cfg, l.task);
    (&& (l.task.Writes() && l.task.stage != AtPrime
         ==> Reach(nodes, Primary(k, |nodes|), Prime, k, l.task.probe.candIndex))
     && (l.Fetching? && l.kind != Cache ==>
           && l.m < |nodes| && Scanned(nodes[l.m].Part(l.kind), k, l.d)
           && (l.sofar.candValid ==> Reach(nodes, l.m, l.kind, k, l.sofar.candIndex)))
     && ((l.Writing? || l.Swapping?) && l.kind != Cache ==> Reach(nodes, l.m, l.kind, k, l.i)))
  }

  ghost predicate NodesChained(nodes: seq<Node>) {
    forall m :: 0 <= m < |nodes| ==> Chained(nodes[m].prime) && Chained(nodes[m].backup)
  }

  ghost predicate ChainsOk(cfg: Config, nodes: seq<Node>, clients: seq<Local>) {
    && |nodes| > 0 && TablesOk(nodes)
    && NodesChained(nodes)
    && (forall c :: 0 <= c < |clients| ==> LocalOk(cfg, |nodes|, clients[c]) && LocalChained(cfg, nodes, clients[c]))
  }

  // -------------------------------------------------------------------- one step

  /** A slot of PRIME or BACKUP that holds anything goes on holding something. */
  ghost predicate Grown(nodes: seq<Node>, nodes': seq<Node>) {
    && |nodes'| == |nodes|
    && forall m, kind :: 0 <= m < |nodes| && kind != Cache ==> TableGrown(nodes[m].Part(kind), nodes'[m].Part(kind))
  }

  ghost predicate TableGrown(t: SlotArray, t': SlotArray) {
    |t'| == |t| && forall i :: 0 <= i < |t| && !t[i].IsEmpty() ==> !t'[i].IsEmpty()
  }

  lemma ReachGrows(nodes: seq<Node>, nodes': seq<Node>, m: nat, kind: Kind, k: nat, i: nat)
    requires Grown(nodes, nodes') && kind != Cache && Reach(nodes, m, kind, k, i)
    ensures Reach(nodes', m, kind, k, i)
  {
    assert TableGrown(nodes[m].Part(kind), nodes'[m].Part(kind));
  }

  lemma LocalGrows(cfg: Config, nodes: seq<Node>, nodes': seq<Node>, l: Local)
    requires |nodes| > 0 && Grown(nodes, nodes') && LocalChained(cfg, nodes, l)
    ensures LocalChained(cfg, nodes', l)
  {
    if !l.Idle? {
      var k := TaskKey(cfg, l.task);
      if l.task.Writes() && l.task.stage != AtPrime {
        ReachGrows(nodes, nodes', Primary(k, |nodes|), Prime, k, l.task.probe.candIndex);
      }
      if l.Fetching? && l.kind != Cache {
        assert TableGrown(nodes[l.m].Part(l.kind), nodes'[l.m].Part(l.kind));
        if l.sofar.candValid {
          ReachGrows(nodes, nodes', l.m, l.kind, k, l.sofar.candIndex);
        }
      }
      if (l.Writing? || l.Swapping?) && l.kind != Cache {
        ReachGrows(nodes, nodes', l.m, l.kind, k, l.i);
      }
    }
  }

  lemma ChainedGrows(t: SlotArray, t': SlotArray)
    requires Chained(t) && TableGrown(t, t')
    requires forall i :: 0 <= i < |t| ==> t'[i].body == t[i].body || (t'[i].body.valid && ChainTo(t, t'[i].body.key, i))
    ensures Chained(t')
  {
    forall i | 0 <= i < |t'| && t'[i].body.valid ensures ChainTo(t', t'[i].body.key, i) {
      assert ChainTo(t, t'[i].body.key, i);
    }
  }

  lemma PutGrown(nodes: seq<Node>, m: nat, kind: Kind, t: SlotArray)
    requires m < |nodes| && (kind != Cache ==> TableGrown(nodes[m].Part(kind), t))
    ensures Grown(nodes, Put(nodes, m, kind, t))
  {
    var nodes' := Put(nodes, m, kind, t);
    forall a, b | 0 <= a < |nodes| && b != Cache ensures TableGrown(nodes[a].Part(b), nodes'[a].Part(b)) {
    }
  }

  lemma PutChained(nodes: seq<Node>, m: nat, kind: Kind, t: SlotArray)
    requires m < |nodes| && NodesChained(nodes) && TablesOk(nodes)
    requires |t| == |nodes[m].Part(kind)| && (forall i :: 0 <= i < |t| ==> SlotForm(t[i]))
    requires kind != Cache ==> Chained(t)
    ensures NodesChained(Put(nodes, m, kind, t)) && TablesOk(Put(nodes, m, kind, t))
  {
    var nodes' := Put(nodes, m, kind, t);
    forall a, b | 0 <= a < |nodes'|
      ensures forall i :: 0 <= i < |nodes'[a].Part(b)| ==> SlotForm(nodes'[a].Part(b)[i])
    {
      assert a != m || b != kind ==> nodes'[a].Part(b) == nodes[a].Part(b);
      assert forall i :: 0 <= i < |nodes[a].Part(b)| ==> SlotForm(nodes[a].Part(b)[i]);
    }
  }

  lemma UpdateChains(nodes: seq<Node>, m: nat, kind: Kind, t: SlotArray)
    requires m < |nodes| && NodesChained(nodes) && TablesOk(nodes)
    requires |t| == |nodes[m].Part(kind)| && forall i :: 0 <= i < |t| ==> SlotForm(t[i])
    requires kind != Cache ==> TableGrown(nodes[m].Part(kind), t) && Chained(t)
    ensures Grown(nodes, Put(nodes, m, kind, t))
    ensures TablesOk(Put(nodes, m, kind, t)) && NodesChained(Put(nodes, m, kind, t))
  {
    PutGrown(nodes, m, kind, t);
    PutChained(nodes, m, kind, t);
  }

  lemma PartChained(nodes: seq<Node>, m: nat, kind: Kind)
    requires m < |nodes| && NodesChained(nodes) && TablesOk(nodes)
    ensures kind != Cache ==> Chained(nodes[m].Part(kind))
    ensures forall i :: 0 <= i < |nodes[m].Part(kind)| ==> SlotForm(nodes[m].Part(kind)[i])
  {
    assert Chained(nodes[m].prime) && Chained(nodes[m].backup);
  }

  lemma BodyChains(nodes: seq<Node>, m: nat, kind: Kind, i: nat, b: Body)
    requires m < |nodes| && NodesChained(nodes) && TablesOk(nodes) && i < |nodes[m].Part(kind)|
    requires b.valid && b.visible >= 1 && (kind != Cache ==> ChainTo(nodes[m].Part(kind), b.key, i))
    ensures var nodes' := Put(nodes, m, kind, WriteBody(nodes[m].Part(kind), i, b));
            Grown(nodes, nodes') && TablesOk(nodes') && NodesChained(nodes')
  {
    var t := nodes[m].Part(kind);
    PartChained(nodes, m, kind);
    if kind != Cache {
      ChainedGrows(t, WriteBody(t, i, b));
    }
    UpdateChains(nodes, m, kind, WriteBody(t, i, b));
  }

  lemma GuardChains(nodes: seq<Node>, m: nat, kind: Kind, i: nat, compare: nat, swap: nat)
    requires m < |nodes| && NodesChained(nodes) && TablesOk(nodes) && i < |nodes[m].Part(kind)| && swap >= 1
    ensures var nodes' := Put(nodes, m, kind, CasGuard(nodes[m].Part(kind), i, compare, swap));
            Grown(nodes, nodes') && TablesOk(nodes') && NodesChained(nodes')
  {
    var t := nodes[m].Part(kind);
    PartChained(nodes, m, kind);
    if kind != Cache {
      ChainedGrows(t, CasGuard(t, i, compare, swap));
    }
    UpdateChains(nodes, m, kind, CasGuard(t, i, compare, swap));
  }

  lemma NothingChains(nodes: seq<Node>)
    ensures Grown(nodes, nodes)
  {
  }

  /** What a client does to a node keeps every chain, its own included. */
  lemma EffectChains(cfg: Config, nodes: seq<Node>, l: Local, e: Effect)
    requires |nodes| > 0 && TablesOk(nodes) && NodesChained(nodes)
    requires LocalOk(cfg, |nodes|, l) && LocalChained(cfg, nodes, l) && EffectOk(cfg, |nodes|, l, e)
    ensures Grown(nodes, Apply(nodes, e)) && TablesOk(Apply(nodes, e)) && NodesChained(Apply(nodes, e))
  {
    NothingChains(nodes);
    match e
    case Nothing =>
    case WroteBody(m, kind, i, b) =>
      PayloadIsProposal(cfg, |nodes|, l.task);
      if m < |nodes| && i < |nodes[m].Part(kind)| {
        BodyChains(nodes, m, kind, i, b);
      }
    case SwappedGuard(m, kind, i, compare, swap) =>
      PayloadIsProposal(cfg, |nodes|, l.task);
      if m < |nodes| && i < |nodes[m].Part(kind)| {
        GuardChains(nodes, m, kind, i, compare, swap);
      }
  }

  lemma EvictChains(nodes: seq<Node>, m: nat, i: nat)
    requires TablesOk(nodes) && NodesChained(nodes)
    ensures var nodes' := Apply(nodes, Evicted(m, i));
            Grown(nodes, nodes') && TablesOk(nodes') && NodesChained(nodes')
  {
    if m < |nodes| && i < |nodes[m].cache| && nodes[m].cache[i].body.valid {
      var t' := nodes[m].cache[i := ZERO_SLOT];
      assert nodes[m].Part(Cache) == nodes[m].cache;
      PutGrown(nodes, m, Cache, t');
      PutChained(nodes, m, Cache, t');
    }
  }

  // ------------------------------------------------------------ one client's own step

  lemma FetchChained(cfg: Config, nodes: seq<Node>, l: Local, fault: Fault)
    requires |nodes| > 0 && l.Fetching? && LocalOk(cfg, |nodes|, l) && LocalChained(cfg, nodes, l) && l.kind != Cache
    ensures var k := TaskKey(cfg, l.task);
            match Fetch(cfg, nodes, l, fault)
            case GoesOn(q) => Scanned(nodes[l.m].Part(l.kind), k, l.d + 1)
                && (q.candValid ==> Reach(nodes, l.m, l.kind, k, q.candIndex))
            case Ends(r) => r.Some? ==> Reach(nodes, l.m, l.kind, k, r.value.candIndex)
  {
    var t := nodes[l.m].Part(l.kind);
    if l.d < |t| {
      var h := Home(TaskKey(cfg, l.task), |t|);
      assert Off(h, Pos(h, l.d, |t|), |t|) == l.d;
    }
  }

  /** A local state that is starting a scan, returning, or about to commit where it probed. */
  lemma FreshChained(cfg: Config, nodes: seq<Node>, l: Local)
    requires |nodes| > 0 && LocalOk(cfg, |nodes|, l) && !l.Idle?
    requires FreshScan(l) || l.Returning? || (l.Writing? && l.task.stage == AtCommit)
    requires l.task.Writes() && l.task.stage != AtPrime ==>
               Reach(nodes, Primary(TaskKey(cfg, l.task), |nodes|), Prime, TaskKey(cfg, l.task), l.task.probe.candIndex)
    ensures LocalChained(cfg, nodes, l)
  {
    if FreshScan(l) {
      assert PlaceOf(cfg, |nodes|, l.task) == (l.m, l.kind);
    }
  }

  lemma AfterProbeChained(cfg: Config, nodes: seq<Node>, l: Local, r: Option<Probe>)
    requires |nodes| > 0 && l.Fetching? && LocalOk(cfg, |nodes|, l) && LocalChained(cfg, nodes, l)
    requires r.Some? ==> ProbeOk(r.value, TaskKey(cfg, l.task))
    requires r.Some? && l.kind != Cache ==> Reach(nodes, l.m, l.kind, TaskKey(cfg, l.task), r.value.candIndex)
    ensures LocalChained(cfg, nodes, AfterProbe(cfg, |nodes|, l, r))
  {
    var l' := AfterProbe(cfg, |nodes|, l, r);
    AfterProbeShape(cfg, |nodes|, l, r);
    AfterProbeTask(cfg, |nodes|, l, r);
    if FreshScan(l') || l'.Returning? || (l'.Writing? && l'.task.stage == AtCommit) {
      FreshChained(cfg, nodes, l');
    }
  }

  lemma AdvanceChained(cfg: Config, nodes: seq<Node>, l: Local, fault: Fault)
    requires |nodes| > 0 && TablesOk(nodes) && LocalOk(cfg, |nodes|, l) && LocalChained(cfg, nodes, l)
    ensures LocalChained(cfg, nodes, Advance(cfg, nodes, l, fault).local)
  {
    if l.Fetching? {
      FetchShape(cfg, nodes, l, fault);
      if l.kind != Cache {
        FetchChained(cfg, nodes, l, fault);
      }
      var f := Fetch(cfg, nodes, l, fault);
      if f.Ends? {
        AfterProbeShape(cfg, |nodes|, l, f.result);
        AfterProbeChained(cfg, nodes, l, f.result);
      }
    } else if l.Writing? || l.Swapping? {
      AfterCommitShape(cfg, |nodes|, l, false);
      AfterCommitShape(cfg, |nodes|, l, true);
      FreshChained(cfg, nodes, AfterCommit(cfg, |nodes|, l, false));
      FreshChained(cfg, nodes, AfterCommit(cfg, |nodes|, l, true));
    }
  }

  // ------------------------------------------------------------------------ all runs

  lemma FreshState(cfg: Config, s: State)
    requires Initial(s)
    ensures ChainsOk(cfg, s.nodes, s.clients)
  {
    forall m, kind | 0 <= m < |s.nodes|
      ensures forall i :: 0 <= i < |s.nodes[m].Part(kind)| ==> SlotForm(s.nodes[m].Part(kind)[i])
    {
    }
    forall m | 0 <= m < |s.nodes| ensures Chained(s.nodes[m].prime) && Chained(s.nodes[m].backup) {
      assert s.nodes[m].Part(Prime) == s.nodes[m].prime && s.nodes[m].Part(Backup) == s.nodes[m].backup;
    }
  }

  lemma ClientsGrow(cfg: Config, nodes: seq<Node>, nodes': seq<Node>, clients: seq<Local>)
    requires ChainsOk(cfg, nodes, clients) && Grown(nodes, nodes') && TablesOk(nodes') && NodesChained(nodes')
    ensures ChainsOk(cfg, nodes', clients)
  {
    forall c | 0 <= c < |clients| ensures LocalOk(cfg, |nodes'|, clients[c]) && LocalChained(cfg, nodes', clients[c]) {
      LocalGrows(cfg, nodes, nodes', clients[c]);
    }
  }

  lemma ChainsNext(cfg: Config, s: State, event: Event)
    requires ChainsOk(cfg, s.nodes, s.clients)
    ensures var r := Next(cfg, s, event); ChainsOk(cfg, r.nodes, r.clients) && Grown(s.nodes, r.nodes)
  {
    assert Grown(s.nodes, s.nodes);
    match event
    case Start(c, op) =>
    case Evict(m, i) =>
      EvictChains(s.nodes, m, i);
      ClientsGrow(cfg, s.nodes, Apply(s.nodes, Evicted(m, i)), s.clients);
    case Act(c, fault) =>
      if c < |s.clients| {
        var l := s.clients[c];
        var move := Advance(cfg, s.nodes, l, fault);
        AdvanceShape(cfg, s.nodes, l, fault);
        AdvanceChained(cfg, s.nodes, l, fault);
        EffectChains(cfg, s.nodes, l, move.effect);
        ClientsGrow(cfg, s.nodes, Apply(s.nodes, move.effect), s.clients[c := move.local]);
      }
  }

  /** Every reachable state keeps its chains. */
  lemma {:induction false} ChainsAlways(cfg: Config, s: State, events: seq<Event>)
    requires Initial(s)
    ensures var r := Execute(cfg, s, events); ChainsOk(cfg, r.nodes, r.clients)
  {
    if events == [] {
      FreshState(cfg, s);
    } else {
      var before := Execute(cfg, s, events[..|events| - 1]);
      ChainsAlways(cfg, s, events[..|events| - 1]);
      ChainsNext(cfg, before, events[|events| - 1]);
    }
  }
}
