/** No invented values: with whole-body writes, whatever the interleaving, the faults and the evictions,
    a read that finds a value finds one that one write proposed whole for that key at the slot's epoch. */
module Values {
  import opened Slots
  import opened Table
  import opened Codec
  import opened Cluster
  import opened FaultyRuns
  import opened Machine
  import opened Steps
  import opened Chains
  import opened CommitOrder

  /** The body is the whole of one proposal. */
  ghost predicate Genuine(c: Crypto, calls: set<Call>, b: Body) {
    exists call :: call in calls && |call.value| <= MAX_VALUE_SIZE && Made(c, call).body == b
  }

  ghost predicate TablesGenuine(c: Crypto, calls: set<Call>, nodes: seq<Node>) {
    forall m, kind :: 0 <= m < |nodes| ==> TableGenuine(c, calls, nodes[m].Part(kind))
  }

  ghost predicate TableGenuine(c: Crypto, calls: set<Call>, t: SlotArray) {
    forall i :: 0 <= i < |t| && t[i].body.valid ==> Genuine(c, calls, t[i].body)
  }

  /** The slot a read is served from. */
  function Source(task: Task): Slot {
    if task.hit.Some? then task.hit.value else task.probe.slot
  }

  ghost predicate LocalGenuine(cfg: Config, calls: set<Call>, l: Local) {
    l.Idle? ||
    (&& (l.task.Writes() && l.task.stage != AtPrime ==> Genuine(cfg.crypto, calls, l.task.proposal.body))
     && (!l.task.Writes() && l.task.stage != AtPrime && l.task.probe.found
         ==> Genuine(cfg.crypto, calls, l.task.probe.slot.body))
     && (l.task.hit.Some? ==> l.Returning? && Genuine(cfg.crypto, calls, l.task.hit.value.body))
     && (l.Returning? && l.result.Replied? && l.result.reply.Found? ==>
           var s := Source(l.task);
           && l.task.probe.found && s.Present(TaskKey(cfg, l.task)) && s.guard == l.task.probe.slot.guard
           && DecodeSlot(cfg.crypto, s) == Some(l.result.reply.value)))
  }

  ghost predicate ValuesOk(cfg: Config, s: State) {
    && ChainsOk(cfg, s.nodes, s.clients)
    && TablesGenuine(cfg.crypto, s.calls, s.nodes)
    && forall c :: 0 <= c < |s.clients| ==> LocalGenuine(cfg, s.calls, s.clients[c])
  }

  // ------------------------------------------------------------------------ steps

  lemma LocalGenuineGrows(cfg: Config, calls: set<Call>, more: set<Call>, l: Local)
    requires LocalGenuine(cfg, calls, l)
    ensures LocalGenuine(cfg, calls + more, l)
  {
  }

  lemma TablesGenuineGrow(c: Crypto, calls: set<Call>, more: set<Call>, nodes: seq<Node>)
    requires TablesGenuine(c, calls, nodes)
    ensures TablesGenuine(c, calls + more, nodes)
  {
    forall m, kind | 0 <= m < |nodes| ensures TableGenuine(c, calls + more, nodes[m].Part(kind)) {
      assert TableGenuine(c, calls, nodes[m].Part(kind));
    }
  }

  lemma PutGenuine(c: Crypto, calls: set<Call>, nodes: seq<Node>, m: nat, kind: Kind, t: SlotArray)
    requires TablesGenuine(c, calls, nodes) && m < |nodes| && TableGenuine(c, calls, t)
    ensures TablesGenuine(c, calls, Put(nodes, m, kind, t))
  {
    var nodes' := Put(nodes, m, kind, t);
    forall a, b | 0 <= a < |nodes'| ensures TableGenuine(c, calls, nodes'[a].Part(b)) {
      assert TableGenuine(c, calls, nodes[a].Part(b));
    }
  }

  lemma EffectGenuine(cfg: Config, calls: set<Call>, nodes: seq<Node>, l: Local, e: Effect)
    requires |nodes| > 0 && TablesGenuine(cfg.crypto, calls, nodes)
    requires e.Evicted? || (LocalOk(cfg, |nodes|, l) && LocalGenuine(cfg, calls, l) && EffectOk(cfg, |nodes|, l, e))
    ensures TablesGenuine(cfg.crypto, calls, Apply(nodes, e))
  {
    match e
    case Nothing =>
    case WroteBody(m, kind, i, b) =>
      if m < |nodes| && i < |nodes[m].Part(kind)| {
        assert TableGenuine(cfg.crypto, calls, nodes[m].Part(kind));
        PutGenuine(cfg.crypto, calls, nodes, m, kind, WriteBody(nodes[m].Part(kind), i, b));
      }
    case SwappedGuard(m, kind, i, compare, swap) =>
      if m < |nodes| && i < |nodes[m].Part(kind)| {
        assert TableGenuine(cfg.crypto, calls, nodes[m].Part(kind));
        PutGenuine(cfg.crypto, calls, nodes, m, kind, CasGuard(nodes[m].Part(kind), i, compare, swap));
      }
    case Evicted(m, i) =>
      if m < |nodes| && i < |nodes[m].cache| && nodes[m].cache[i].body.valid {
        assert TableGenuine(cfg.crypto, calls, nodes[m].Part(Cache));
        PutGenuine(cfg.crypto, calls, nodes, m, Cache, nodes[m].cache[i := ZERO_SLOT]);
      }
  }

  lemma FetchGenuine(cfg: Config, calls: set<Call>, nodes: seq<Node>, l: Local, fault: Fault)
    requires |nodes| > 0 && TablesGenuine(cfg.crypto, calls, nodes) && l.Fetching? && LocalOk(cfg, |nodes|, l)
    ensures var f := Fetch(cfg, nodes, l, fault);
            f.Ends? && f.result.Some? && f.result.value.found ==> Genuine(cfg.crypto, calls, f.result.value.slot.body)
  {
    if l.m < |nodes| {
      assert TableGenuine(cfg.crypto, calls, nodes[l.m].Part(l.kind));
    }
  }

  lemma ReadPrimeGenuine(cfg: Config, calls: set<Call>, n: nat, task: Task)
    requires n > 0 && !task.Writes() && task.stage == AtCache && task.hit.None?
    requires task.probe.found ==> Genuine(cfg.crypto, calls, task.probe.slot.body)
    ensures LocalGenuine(cfg, calls, GoReadPrime(cfg, n, task))
  {
  }

  /** A read that goes on from a probe; calls are unchanged. */
  lemma ReadAfterProbeGenuine(cfg: Config, calls: set<Call>, n: nat, l: Local, r: Option<Probe>)
    requires n > 0 && l.Fetching? && !l.task.Writes() && LocalOk(cfg, n, l) && LocalGenuine(cfg, calls, l)
    requires r.Some? ==> ProbeOk(r.value, TaskKey(cfg, l.task))
    requires r.Some? && r.value.found ==> Genuine(cfg.crypto, calls, r.value.slot.body)
    ensures LocalGenuine(cfg, calls, AfterProbe(cfg, n, l, r))
  {
    var task := l.task;
    if task.stage == AtPrime && r.Some? {
      ReadPrimeGenuine(cfg, calls, n, task.(probe := r.value, stage := AtCache));
    } else if task.stage == AtCache {
      ReadPrimeGenuine(cfg, calls, n, task);
    }
  }

  lemma WriteAfterProbeGenuine(cfg: Config, calls: set<Call>, n: nat, l: Local, r: Option<Probe>)
    requires n > 0 && l.Fetching? && l.task.Writes() && LocalOk(cfg, n, l) && LocalGenuine(cfg, calls, l)
    requires r.Some? ==> ProbeOk(r.value, TaskKey(cfg, l.task))
    requires l.task.stage == AtPrime && r.Some? && CallOf(cfg, l.task, r.value).Some? ==>
               CallOf(cfg, l.task, r.value).value in calls
    ensures LocalGenuine(cfg, calls, AfterProbe(cfg, n, l, r))
  {
    AfterProbeShape(cfg, n, l, r);
    AfterProbeTask(cfg, n, l, r);
    var l' := AfterProbe(cfg, n, l, r);
    if l'.task.stage != AtPrime && l.task.stage == AtPrime {
      assert CallOf(cfg, l'.task, l'.task.probe) == CallOf(cfg, l.task, r.value);
      assert Genuine(cfg.crypto, calls, l'.task.proposal.body);
    }
  }

  lemma FetchesGenuine(cfg: Config, calls: set<Call>, nodes: seq<Node>, l: Local, fault: Fault)
    requires |nodes| > 0 && TablesOk(nodes) && TablesGenuine(cfg.crypto, calls, nodes) && l.Fetching?
    requires LocalOk(cfg, |nodes|, l) && LocalGenuine(cfg, calls, l)
    ensures var move := Advance(cfg, nodes, l, fault);
            LocalGenuine(cfg, calls + (if move.made.Some? then {move.made.value} else {}), move.local)
  {
    var move := Advance(cfg, nodes, l, fault);
    var more := if move.made.Some? then {move.made.value} else {};
    var f := Fetch(cfg, nodes, l, fault);
    FetchShape(cfg, nodes, l, fault);
    FetchGenuine(cfg, calls, nodes, l, fault);
    LocalGenuineGrows(cfg, calls, more, l);
    if f.Ends? && l.task.Writes() {
      WriteAfterProbeGenuine(cfg, calls + more, |nodes|, l, f.result);
    } else if f.Ends? {
      ReadAfterProbeGenuine(cfg, calls, |nodes|, l, f.result);
    }
  }

  lemma AdvanceGenuine(cfg: Config, calls: set<Call>, nodes: seq<Node>, l: Local, fault: Fault)
    requires |nodes| > 0 && TablesOk(nodes) && TablesGenuine(cfg.crypto, calls, nodes)
    requires LocalOk(cfg, |nodes|, l) && LocalGenuine(cfg, calls, l)
    ensures var move := Advance(cfg, nodes, l, fault);
            LocalGenuine(cfg, calls + (if move.made.Some? then {move.made.value} else {}), move.local)
  {
    if l.Fetching? {
      FetchesGenuine(cfg, calls, nodes, l, fault);
    } else if l.Writing? || l.Swapping? {
      StoringGenuine(cfg, calls, nodes, l, fault);
    }
    assert calls + {} == calls;
  }

  lemma StoringGenuine(cfg: Config, calls: set<Call>, nodes: seq<Node>, l: Local, fault: Fault)
    requires |nodes| > 0 && (l.Writing? || l.Swapping?) && LocalOk(cfg, |nodes|, l) && LocalGenuine(cfg, calls, l)
    ensures var move := Advance(cfg, nodes, l, fault); move.made == None && LocalGenuine(cfg, calls, move.local)
  {
    AfterCommitGenuine(cfg, calls, |nodes|, l, false);
    AfterCommitGenuine(cfg, calls, |nodes|, l, true);
  }

  lemma AfterCommitGenuine(cfg: Config, calls: set<Call>, n: nat, l: Local, won: bool)
    requires n > 0 && (l.Writing? || l.Swapping?) && LocalOk(cfg, n, l) && LocalGenuine(cfg, calls, l)
    ensures LocalGenuine(cfg, calls, AfterCommit(cfg, n, l, won))
  {
    AfterCommitShape(cfg, n, l, won);
  }

  lemma ValuesNext(cfg: Config, s: State, event: Event)
    requires ValuesOk(cfg, s)
    ensures ValuesOk(cfg, Next(cfg, s, event))
  {
    ChainsNext(cfg, s, event);
    match event
    case Start(c, op) =>
    case Evict(m, i) =>
      EffectGenuine(cfg, s.calls, s.nodes, Idle, Evicted(m, i));
    case Act(c, fault) =>
      if c < |s.clients| {
        var l := s.clients[c];
        var move := Advance(cfg, s.nodes, l, fault);
        var more := if move.made.Some? then {move.made.value} else {};
        AdvanceShape(cfg, s.nodes, l, fault);
        EffectGenuine(cfg, s.calls, s.nodes, l, move.effect);
        TablesGenuineGrow(cfg.crypto, s.calls, more, Apply(s.nodes, move.effect));
        AdvanceGenuine(cfg, s.calls, s.nodes, l, fault);
        var clients' := s.clients[c := move.local];
        forall d | 0 <= d < |clients'| ensures LocalGenuine(cfg, s.calls + more, clients'[d]) {
          if d != c {
            LocalGenuineGrows(cfg, s.calls, more, s.clients[d]);
          }
        }
      }
  }

  lemma {:induction false} ValuesAlways(cfg: Config, s: State, events: seq<Event>)
    requires Initial(s)
    ensures ValuesOk(cfg, Execute(cfg, s, events))
  {
    if events == [] {
      FreshState(cfg, s);
      forall m, kind | 0 <= m < |s.nodes| ensures TableGenuine(cfg.crypto, s.calls, s.nodes[m].Part(kind)) {
      }
    } else {
      ValuesAlways(cfg, s, events[..|events| - 1]);
      ValuesNext(cfg, Execute(cfg, s, events[..|events| - 1]), events[|events| - 1]);
    }
  }

  // ------------------------------------------------------------- where calls come from

  /** The write was started in this run. */
  ghost predicate Issued(events: seq<Event>, op: Op) {
    exists j :: 0 <= j < |events| && events[j].Start? && events[j].op == op
  }

  /** Every client works on an operation that was started, and every call of make_slot is for one. */
  ghost predicate CallsIssued(s: State, events: seq<Event>) {
    && (forall c :: 0 <= c < |s.clients| && !s.clients[c].Idle? ==> Issued(events, s.clients[c].task.op))
    && (forall call :: call in s.calls ==>
          exists w: Write :: Issued(events, DoWrite(w)) && w.key == call.key && w.value == call.value
              && w.tombstone == call.tombstone)
  }

  lemma IssuedMore(events: seq<Event>, n: nat, op: Op)
    requires n <= |events| && Issued(events[..n], op)
    ensures Issued(events, op)
  {
    var j :| 0 <= j < n && events[..n][j].Start? && events[..n][j].op == op;
    assert events[j].Start?;
  }

  lemma CallsIssuedMore(s: State, events: seq<Event>, n: nat)
    requires n <= |events| && CallsIssued(s, events[..n])
    ensures CallsIssued(s, events)
  {
    forall op | Issued(events[..n], op) ensures Issued(events, op) {
      IssuedMore(events, n, op);
    }
  }

  lemma CallsIssuedAct(cfg: Config, s: State, c: nat, fault: Fault, events: seq<Event>)
    requires ChainsOk(cfg, s.nodes, s.clients) && CallsIssued(s, events)
    ensures CallsIssued(Next(cfg, s, Act(c, fault)), events)
  {
    if c < |s.clients| {
      AdvanceKeepsId(cfg, s.nodes, s.clients[c], fault);
    }
  }

  lemma {:induction false} CallsIssuedAlways(cfg: Config, s: State, events: seq<Event>)
    requires Initial(s)
    ensures CallsIssued(Execute(cfg, s, events), events)
  {
    if events != [] {
      var n := |events| - 1;
      var before := Execute(cfg, s, events[..n]);
      CallsIssuedAlways(cfg, s, events[..n]);
      ChainsAlways(cfg, s, events[..n]);
      CallsIssuedMore(before, events, n);
      match events[n]
      case Start(c, op) => assert events[n].op == op;
      case Evict(m, i) =>
      case Act(c, fault) => CallsIssuedAct(cfg, before, c, fault, events);
    }
  }

  // ------------------------------------------------------------------------ theorem

  /** A client about to return a value it found: some write that was issued for its key hash, and was no deletion,
      proposed exactly that value at the epoch the client's probe of PRIME saw. */
  lemma NoInventedValues(cfg: Config, s: State, events: seq<Event>, c: nat)
    requires Initial(s) && c < |s.clients|
    requires var l := Execute(cfg, s, events).clients[c]; l.Returning? && l.result.Replied? && l.result.reply.Found?
    ensures var r := Execute(cfg, s, events);
            var l := r.clients[c];
            exists w: Write :: Issued(events, DoWrite(w))
                               && cfg.crypto.hash(w.key) == TaskKey(cfg, l.task) && !w.tombstone
                                  && w.value == l.result.reply.value
                               && Call(w.key, w.value, w.tombstone, l.task.probe.slot.guard) in r.calls
  {
    ValuesAlways(cfg, s, events);
    CallsIssuedAlways(cfg, s, events);
    var r := Execute(cfg, s, events);
    var l := r.clients[c];
    assert LocalOk(cfg, |r.nodes|, l) && LocalGenuine(cfg, r.calls, l);
    var b := Source(l.task).body;
    assert Genuine(cfg.crypto, r.calls, b);
    var call :| call in r.calls && |call.value| <= MAX_VALUE_SIZE && Made(cfg.crypto, call).body == b;
    DecodeMade(cfg.crypto, call.key, call.value, call.tombstone, call.epoch);
    assert Made(cfg.crypto, call) == Source(l.task);
    var w: Write :| Issued(events, DoWrite(w)) && w.key == call.key && w.value == call.value
        && w.tombstone == call.tombstone;
    assert call == Call(w.key, w.value, w.tombstone, l.task.probe.slot.guard);
  }
}
