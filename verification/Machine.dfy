/** The whole system as steps: any number of clients, each somewhere inside a read or a write, and evictors.
    A step is one transport call carried out at a node, one eviction of a slot, or a decision a client
    takes for itself; the order is arbitrary. */
module Machine {
  import opened Slots
  import opened Table
  import opened Codec
  import opened Votes
  import opened Cluster
  import opened FaultyRuns

  // --------------------------------------------------------------- clients' locals

  datatype Stage = AtPrime | AtVote(idx: nat) | AtCommit | AtRepair(idx: nat) | AtCache | AtRefresh

  /** The local variables of one write or read: probe is that of PRIME; proposal, votes and rule belong to
      writes, hit is the CACHE slot a read was served from. */
  datatype Task = Task(id: nat, op: Op, stage: Stage, probe: Probe, proposal: Slot, votes: seq<Vote>, rule: nat,
                       hit: Option<Slot>) {
    predicate Writes() {
      op.DoWrite?
    }
  }

  /** What a client is about to do: nothing, fetch the d-th slot of a probe, write a body, swap a guard, or return. */
  datatype Local =
    | Idle
    | Fetching(task: Task, m: nat, kind: Kind, d: nat, sofar: Probe)
    | Writing(task: Task, m: nat, kind: Kind, i: nat, compare: nat, slot: Slot, tie: nat)
    | Swapping(task: Task, m: nat, kind: Kind, i: nat, compare: nat, slot: Slot, tie: nat)
    | Returning(task: Task, result: Result)

  function TaskKey(cfg: Config, task: Task): nat {
    cfg.crypto.hash(match task.op case DoWrite(w) => w.key case DoRead(key) => key)
  }

  // ------------------------------------------------------------------ control flow

  function NewTask(op: Op, id: nat): Task {
    Task(id, op, AtPrime, NO_PROBE, ZERO_SLOT, [], 0, None)
  }

  function Started(cfg: Config, n: nat, op: Op, id: nat): Local
    requires n > 0
  {
    var task := NewTask(op, id);
    Fetching(task, Primary(TaskKey(cfg, task), n), Prime, 0, NO_PROBE)
  }

  function GoVote(cfg: Config, n: nat, task: Task, idx: nat): Local
    requires n > 0 && task.Writes() && idx <= |task.votes|
  {
    if idx < |task.votes|
    then Fetching(task.(stage := AtVote(idx)), Replica(task.proposal.body.key, idx + 1, n), Backup, 0, NO_PROBE)
    else
      var rule := Rule(task.votes, task.proposal.body.tie);
      if rule == 0 then Returning(task, Ruled(-1))
      else Writing(task.(stage := AtCommit, rule := rule), Primary(task.proposal.body.key, n), Prime,
                 task.probe.candIndex, task.probe.cand.guard, task.proposal, 0)
  }

  function GoRepair(cfg: Config, n: nat, task: Task, idx: nat): Local
    requires n > 0 && task.Writes() && idx <= |task.votes|
    decreases |task.votes| - idx
  {
    if idx == |task.votes| then
      (if cfg.cacheOn then Fetching(task.(stage := AtRefresh), Primary(task.proposal.body.key, n), Cache, 0, NO_PROBE)
       else Returning(task, Ruled(task.rule)))
    else if task.votes[idx].success then GoRepair(cfg, n, task, idx + 1)
    else Fetching(task.(stage := AtRepair(idx)), Replica(task.proposal.body.key, idx + 1, n), Backup, 0, NO_PROBE)
  }

  function GoReadPrime(cfg: Config, n: nat, task: Task): Local
    requires n > 0 && !task.Writes()
  {
    var k := TaskKey(cfg, task);
    if !task.probe.found || !task.probe.slot.Present(k) then Returning(task, Replied(NotFound))
    else
      match DecodeSlot(cfg.crypto, task.probe.slot)
      case None => Returning(task, Replied(Failed))
      case Some(v) =>
        if cfg.cacheOn then Fetching(task.(stage := AtRefresh), Primary(k, n), Cache, 0, NO_PROBE)
        else Returning(task, Replied(Found(v)))
  }

  /** What a finished task reports. */
  function Outcome(cfg: Config, task: Task): Result {
    if task.Writes() then Ruled(task.rule)
    else Replied(match DecodeSlot(cfg.crypto, task.probe.slot) case None => Failed case Some(v) => Found(v))
  }

  /** A probe has ended: with an error, or with a result. */
  function AfterProbe(cfg: Config, n: nat, l: Local, r: Option<Probe>): Local
    requires n > 0 && l.Fetching?
  {
    var task := l.task;
    match task.stage
    case AtPrime =>
      if r.None? then Returning(task, if task.Writes() then Ruled(-1) else Replied(Failed))
      else if task.Writes() then Proposed(cfg, n, task, r.value)
      else
        var seen := task.(probe := r.value, stage := AtCache);
        if cfg.cacheOn then Fetching(seen, l.m, Cache, 0, NO_PROBE) else GoReadPrime(cfg, n, seen)
    case AtVote(idx) =>
      if r.None? then Returning(task, Ruled(-1)) else StoreTo(l, r.value)
    case AtRepair(idx) =>
      if r.Some? then StoreTo(l, r.value)
      else if task.Writes() && idx < |task.votes| then GoRepair(cfg, n, task, idx + 1) else Idle
    case AtRefresh =>
      if r.Some? then StoreTo(l, r.value) else Returning(task, Outcome(cfg, task))
    case AtCache =>
      if task.Writes() then Idle
      else if r.Some? && CacheConsistent(task.probe, r.value, TaskKey(cfg, task))
          && DecodeSlot(cfg.crypto, r.value.slot).Some?
      then Returning(task.(hit := Some(r.value.slot)), Replied(Found(DecodeSlot(cfg.crypto, r.value.slot).value)))
      else GoReadPrime(cfg, n, task)
    case AtCommit => Idle
  }

  /** The call of make_slot a write issues after its PRIME probe, if it gets that far. */
  function CallOf(cfg: Config, task: Task, q: Probe): Option<Call>
    requires task.Writes()
  {
    var w := task.op.w;
    if (w.updateOnly && !(q.found && q.slot.Present(TaskKey(cfg, task)))) || |w.value| > MAX_VALUE_SIZE then None
    else Some(Call(w.key, w.value, w.tombstone, q.cand.guard + 1))
  }

  function Proposed(cfg: Config, n: nat, task: Task, q: Probe): Local
    requires n > 0 && task.Writes()
  {
    match CallOf(cfg, task, q)
    case None => Returning(task, Ruled(-1))
    case Some(call) =>
      GoVote(cfg, n, task.(probe := q, proposal := Made(cfg.crypto, call), votes := NoVotes(BackupCount(cfg, n))), 0)
  }

  function StoreTo(l: Local, q: Probe): Local
    requires l.Fetching?
  {
    Writing(l.task, l.m, l.kind, q.candIndex, q.cand.guard,
          if l.task.Writes() then l.task.proposal else l.task.probe.slot, q.cand.body.tie)
  }

  /** A commit has ended; won tells whether it was answered and found the guard it compared with. */
  function AfterCommit(cfg: Config, n: nat, l: Local, won: bool): Local
    requires n > 0 && (l.Writing? || l.Swapping?)
  {
    var task := l.task;
    match task.stage
    case AtVote(idx) =>
      if task.Writes() && idx < |task.votes|
      then GoVote(cfg, n, task.(votes := task.votes[idx := if won then Vote(true, 0) else Vote(false, l.tie)]), idx + 1)
      else Idle
    case AtCommit =>
      if won && task.Writes() then GoRepair(cfg, n, task, 0) else Returning(task, Ruled(-1))
    case AtRepair(idx) =>
      if task.Writes() && idx < |task.votes| then GoRepair(cfg, n, task, idx + 1) else Idle
    case AtRefresh => Returning(task, Outcome(cfg, task))
    case AtPrime => Idle
    case AtCache => Idle
  }

  // ---------------------------------------------------------------------- effects

  datatype Effect =
    | Nothing
    | WroteBody(m: nat, kind: Kind, i: nat, b: Body)
    | SwappedGuard(m: nat, kind: Kind, i: nat, compare: nat, swap: nat)
    | Evicted(m: nat, i: nat)

  function Apply(nodes: seq<Node>, e: Effect): (r: seq<Node>)
    ensures |r| == |nodes|
  {
    match e
    case Nothing => nodes
    case WroteBody(m, kind, i, b) =>
      if m < |nodes| && i < |nodes[m].Part(kind)|
      then Put(nodes, m, kind, WriteBody(nodes[m].Part(kind), i, b)) else nodes
    case SwappedGuard(m, kind, i, compare, swap) =>
      if m < |nodes| && i < |nodes[m].Part(kind)|
      then Put(nodes, m, kind, CasGuard(nodes[m].Part(kind), i, compare, swap)) else nodes
    case Evicted(m, i) =>
      if m < |nodes| && i < |nodes[m].cache| && nodes[m].cache[i].body.valid
      then Put(nodes, m, Cache, nodes[m].cache[i := ZERO_SLOT]) else nodes
  }

  predicate GuardIs(nodes: seq<Node>, m: nat, kind: Kind, i: nat, g: nat) {
    m < |nodes| && i < |nodes[m].Part(kind)| && nodes[m].Part(kind)[i].guard == g
  }

  /** What a step of a client does: its next local state, its effect on a node, and the call of make_slot in it. */
  datatype Move = Move(local: Local, effect: Effect, made: Option<Call>)

  /** How the fetch of a probe ends it, if it does. */
  datatype Fetched = GoesOn(sofar: Probe) | Ends(result: Option<Probe>)

  function Fetch(cfg: Config, nodes: seq<Node>, l: Local, fault: Fault): Fetched
    requires l.Fetching?
  {
    var t := if l.m < |nodes| then nodes[l.m].Part(l.kind) else [];
    if l.d >= |t| then Ends(if l.sofar.candValid then Some(l.sofar) else None)
    else if fault != Delivered then Ends(None)
    else
      var i := Pos(Home(TaskKey(cfg, l.task), |t|), l.d, |t|);
      match Examine(l.sofar, i, t[i], TaskKey(cfg, l.task))
      case Halt(q) => Ends(Some(q))
      case More(q) => GoesOn(q)
  }

  /** The next step of a client, given what becomes of the call it makes. */
  function Advance(cfg: Config, nodes: seq<Node>, l: Local, fault: Fault): Move
    requires |nodes| > 0
  {
    var n := |nodes|;
    match l
    case Idle => Move(Idle, Nothing, None)
    case Returning(_, _) => Move(Idle, Nothing, None)
    case Fetching(task, m, kind, d, p) =>
      (match Fetch(cfg, nodes, l, fault)
       case GoesOn(q) => Move(Fetching(task, m, kind, d + 1, q), Nothing, None)
       case Ends(r) =>
         Move(AfterProbe(cfg, n, l, r), Nothing,
              if task.Writes() && task.stage == AtPrime && r.Some? then CallOf(cfg, task, r.value) else None))
    case Writing(task, m, kind, i, compare, slot, tie) =>
      var e := WroteBody(m, kind, i, slot.body);
      (match fault
       case Dropped => Move(AfterCommit(cfg, n, l, false), Nothing, None)
       case ReplyLost => Move(AfterCommit(cfg, n, l, false), e, None)
       case Delivered => Move(Swapping(task, m, kind, i, compare, slot, tie), e, None))
    case Swapping(task, m, kind, i, compare, slot, tie) =>
      var e := SwappedGuard(m, kind, i, compare, slot.body.visible);
      (match fault
       case Dropped => Move(AfterCommit(cfg, n, l, false), Nothing, None)
       case ReplyLost => Move(AfterCommit(cfg, n, l, false), e, None)
       case Delivered => Move(AfterCommit(cfg, n, l, GuardIs(nodes, m, kind, i, compare)), e, None))
  }

  // ------------------------------------------------------------------------ states

  /** A successful CAS on a PRIME slot, by the write with the given number. */
  datatype Commit = Commit(m: nat, i: nat, epoch: nat, id: nat)

  /** Nodes and clients, and what has happened so far: the calls of make_slot, the bodies written to PRIME,
      the successful CASes on PRIME in order, and the writes that returned a rule. */
  datatype State = State(nodes: seq<Node>, clients: seq<Local>, started: nat,
                         calls: set<Call>, written: set<(nat, nat, Body)>, commits: seq<Commit>, returned: set<Commit>)

  datatype Event = Start(c: nat, op: Op) | Act(c: nat, fault: Fault) | Evict(m: nat, i: nat)

  function NewWritten(e: Effect): set<(nat, nat, Body)> {
    if e.WroteBody? && e.kind == Prime then {(e.m, e.i, e.b)} else {}
  }

  function NewCommits(nodes: seq<Node>, l: Local, e: Effect): seq<Commit> {
    if l.Swapping? && e.SwappedGuard? && e.kind == Prime && GuardIs(nodes, e.m, Prime, e.i, e.compare)
    then [Commit(e.m, e.i, e.swap, l.task.id)] else []
  }

  /** The write a client has just returned from with a rule. */
  function NewReturned(cfg: Config, n: nat, l: Local): set<Commit>
    requires n > 0
  {
    if l.Returning? && l.task.Writes() && l.result.Ruled? && l.result.rule > 0
    then {Commit(Primary(TaskKey(cfg, l.task), n), l.task.probe.candIndex, l.task.proposal.body.visible, l.task.id)}
    else {}
  }

  function Next(cfg: Config, s: State, event: Event): (r: State)
    requires |s.nodes| > 0
    ensures |r.nodes| == |s.nodes| && |r.clients| == |s.clients|
  {
    match event
    case Start(c, op) =>
      if c < |s.clients| && s.clients[c].Idle?
      then s.(clients := s.clients[c := Started(cfg, |s.nodes|, op, s.started)], started := s.started + 1) else s
    case Evict(m, i) => s.(nodes := Apply(s.nodes, Evicted(m, i)))
    case Act(c, fault) =>
      if c < |s.clients| then
        var l := s.clients[c];
        var move := Advance(cfg, s.nodes, l, fault);
        State(Apply(s.nodes, move.effect), s.clients[c := move.local], s.started,
              s.calls + (if move.made.Some? then {move.made.value} else {}), s.written + NewWritten(move.effect),
              s.commits + NewCommits(s.nodes, l, move.effect), s.returned + NewReturned(cfg, |s.nodes|, l))
      else s
  }

  ghost predicate Initial(s: State) {
    && Fresh(s.nodes)
    && (forall c :: 0 <= c < |s.clients| ==> s.clients[c] == Idle)
    && s.started == 0 && s.calls == {} && s.written == {} && s.commits == [] && s.returned == {}
  }

  /** The state after a sequence of steps. */
  function Execute(cfg: Config, s: State, events: seq<Event>): (r: State)
    requires |s.nodes| > 0
    ensures |r.nodes| == |s.nodes| && |r.clients| == |s.clients|
  {
    if events == [] then s else Next(cfg, Execute(cfg, s, events[..|events| - 1]), events[|events| - 1])
  }
}
