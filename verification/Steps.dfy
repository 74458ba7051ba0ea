/** What every step of the machine keeps about one client's local variables, and what it may do to a node. */
module Steps {
  import opened Slots
  import opened Table
  import opened Codec
  import opened Votes
  import opened Cluster
  import opened FaultyRuns
  import opened Machine

  // ------------------------------------------------------------------ local shape

  /** A body is that of a proposal, or has the words of a fresh slot. An eviction between a client's body write and
      its CAS can leave such a body under a guard that is not zero. */
  predicate SlotForm(s: Slot) {
    if s.body.valid then s.body.visible >= 1
    else s.body.visible == 0 && s.body.key == 0 && !s.body.tombstone
  }

  ghost predicate ProbeOk(q: Probe, k: nat) {
    && q.candValid && SlotForm(q.cand) && q.cand.Stable()
    && (q.found ==> q.slot == q.cand && q.slotIndex == q.candIndex && q.slot.Holds(k))
  }

  ghost predicate SofarOk(p: Probe) {
    !p.found && (p.candValid ==> SlotForm(p.cand) && p.cand.Stable())
  }

  /** The node and region the calls of a task's present stage go to. */
  function PlaceOf(cfg: Config, n: nat, task: Task): (nat, Kind)
    requires n > 0
  {
    var k := TaskKey(cfg, task);
    match task.stage
    case AtPrime => (Primary(k, n), Prime)
    case AtVote(idx) => (Replica(k, idx + 1, n), Backup)
    case AtCommit => (Primary(k, n), Prime)
    case AtRepair(idx) => (Replica(k, idx + 1, n), Backup)
    case AtCache => (Primary(k, n), Cache)
    case AtRefresh => (Primary(k, n), Cache)
  }

  /** The slot a task stores. */
  function Payload(task: Task): Slot {
    if task.Writes() then task.proposal else task.probe.slot
  }

  ghost predicate TaskOk(cfg: Config, n: nat, task: Task) {
    var k := TaskKey(cfg, task);
    task.stage == AtPrime ||
    (&& ProbeOk(task.probe, k)
     && (task.Writes() ==>
           && |task.votes| == BackupCount(cfg, n)
           && CallOf(cfg, task, task.probe).Some?
           && task.proposal == Made(cfg.crypto, CallOf(cfg, task, task.probe).value)
           && task.stage != AtCache
           && (task.stage.AtVote? || task.stage.AtRepair? ==> task.stage.idx < |task.votes|))
     && (!task.Writes() ==>
           && (task.stage == AtCache || task.stage == AtRefresh)
           && (task.stage == AtRefresh ==> task.probe.found && task.probe.slot.Present(k))))
  }

  ghost predicate LocalOk(cfg: Config, n: nat, l: Local)
    requires n > 0
  {
    match l
    case Idle => true
    case Fetching(task, m, kind, d, p) =>
      TaskOk(cfg, n, task) && (m, kind) == PlaceOf(cfg, n, task) && SofarOk(p) && task.stage != AtCommit
    case Writing(task, m, kind, i, compare, slot, tie) => StoringOk(cfg, n, task, m, kind, i, compare, slot)
    case Swapping(task, m, kind, i, compare, slot, tie) => StoringOk(cfg, n, task, m, kind, i, compare, slot)
    case Returning(task, result) =>
      && TaskOk(cfg, n, task)
      && (result.Ruled? <==> task.Writes())
      && (result.Ruled? && result.rule > 0 ==>
            task.stage == AtCommit || task.stage.AtRepair? || task.stage == AtRefresh)
      && (result.Replied? && result.reply.Found? ==> task.stage != AtPrime)
  }

  ghost predicate StoringOk(cfg: Config, n: nat, task: Task, m: nat, kind: Kind, i: nat, compare: nat, slot: Slot)
    requires n > 0
  {
    && TaskOk(cfg, n, task) && (m, kind) == PlaceOf(cfg, n, task)
    && task.stage != AtPrime && task.stage != AtCache
    && slot == Payload(task)
    && (task.stage == AtCommit ==> i == task.probe.candIndex && compare == task.probe.cand.guard)
  }

  /** What a task stores is a proposal for its own key. */
  lemma PayloadIsProposal(cfg: Config, n: nat, task: Task)
    requires TaskOk(cfg, n, task) && task.stage != AtPrime && task.stage != AtCache
    ensures IsProposal(Payload(task)) && Payload(task).body.key == TaskKey(cfg, task)
    ensures task.Writes() ==> task.proposal.body.visible == task.probe.cand.guard + 1
  {
  }

  ghost predicate TablesOk(nodes: seq<Node>) {
    forall m, kind :: 0 <= m < |nodes| ==>
      forall i :: 0 <= i < |nodes[m].Part(kind)| ==> SlotForm(nodes[m].Part(kind)[i])
  }

  // --------------------------------------------------------- tasks through a step

  /** Nothing but stage, votes and rule differs. */
  ghost predicate Derived(t: Task, t': Task) {
    t'.id == t.id && t'.op == t.op && t'.probe == t.probe && t'.proposal == t.proposal && t'.hit == t.hit
  }

  /** The write has committed its proposal to the primary. */
  predicate PastCommit(l: Local) {
    && !l.Idle? && l.task.Writes()
    && (l.task.stage.AtRepair? || l.task.stage.AtRefresh? || (l.Returning? && l.result.Ruled? && l.result.rule > 0))
  }

  /** The write has probed PRIME and not yet written to it. */
  predicate BeforeCommit(l: Local) {
    && !l.Idle? && l.task.Writes()
    && (l.task.stage.AtVote? || (l.Writing? && l.task.stage == AtCommit))
  }

  predicate FreshScan(l: Local) {
    l.Fetching? && l.d == 0 && l.sofar == NO_PROBE
  }

  /** A task goes on: it starts a scan, is about to commit to the primary, or returns. */
  ghost predicate GoesTo(cfg: Config, n: nat, task: Task, l: Local)
    requires n > 0
  {
    && LocalOk(cfg, n, l) && !l.Idle? && Derived(task, l.task)
    && (FreshScan(l) || l.Returning? || (l.Writing? && l.task.stage == AtCommit))
  }

  lemma VoteShape(cfg: Config, n: nat, task: Task, idx: nat)
    requires n > 0 && task.Writes() && idx <= |task.votes| && TaskOk(cfg, n, task)
    requires TaskOk(cfg, n, task.(stage := AtCommit))
    requires !task.stage.AtRepair? && !task.stage.AtRefresh?
    ensures var l := GoVote(cfg, n, task, idx);
            && LocalOk(cfg, n, l) && !l.Idle? && Derived(task, l.task) && !PastCommit(l)
            && (FreshScan(l) || (l.Writing? && l.task.stage == AtCommit) || (l.Returning? && l.result == Ruled(-1)))
  {
    PayloadIsProposal(cfg, n, task.(stage := AtCommit));
  }

  lemma {:induction false} RepairShape(cfg: Config, n: nat, task: Task, idx: nat)
    requires n > 0 && task.Writes() && idx <= |task.votes| && TaskOk(cfg, n, task)
    requires task.stage == AtCommit || task.stage.AtRepair?
    ensures var l := GoRepair(cfg, n, task, idx);
            && LocalOk(cfg, n, l) && !l.Idle? && Derived(task, l.task)
            && (FreshScan(l) || l.Returning?) && !BeforeCommit(l)
    decreases |task.votes| - idx
  {
    PayloadIsProposal(cfg, n, task.(stage := AtCommit));
    if idx < |task.votes| && task.votes[idx].success {
      RepairShape(cfg, n, task, idx + 1);
    }
  }

  lemma ReadPrimeShape(cfg: Config, n: nat, task: Task)
    requires n > 0 && !task.Writes() && TaskOk(cfg, n, task) && task.stage == AtCache
    ensures var l := GoReadPrime(cfg, n, task);
            && LocalOk(cfg, n, l) && !l.Idle? && Derived(task, l.task)
            && (FreshScan(l) || l.Returning?)
  {
  }

  // ------------------------------------------------------------------ one fetch

  lemma FetchShape(cfg: Config, nodes: seq<Node>, l: Local, fault: Fault)
    requires |nodes| > 0 && TablesOk(nodes) && l.Fetching? && LocalOk(cfg, |nodes|, l)
    ensures match Fetch(cfg, nodes, l, fault)
            case GoesOn(q) => SofarOk(q)
            case Ends(r) => r.Some? ==> ProbeOk(r.value, TaskKey(cfg, l.task))
  {
    assert l.m < |nodes| ==> forall i :: 0 <= i < |nodes[l.m].Part(l.kind)| ==> SlotForm(nodes[l.m].Part(l.kind)[i]);
  }

  // ------------------------------------------------------------------ a step's shape

  lemma ProposedShape(cfg: Config, n: nat, task: Task, q: Probe)
    requires n > 0 && task.Writes() && task.stage == AtPrime && ProbeOk(q, TaskKey(cfg, task))
    ensures var l := Proposed(cfg, n, task, q);
            && LocalOk(cfg, n, l) && !l.Idle? && !PastCommit(l)
            && l.task.id == task.id && l.task.op == task.op && l.task.hit == task.hit
            && (l.task.stage != AtPrime ==> l.task.probe == q)
            && (FreshScan(l) || (l.Writing? && l.task.stage == AtCommit) || l.Returning?)
  {
    if CallOf(cfg, task, q).Some? {
      var proposed := task.(probe := q, proposal := Made(cfg.crypto, CallOf(cfg, task, q).value),
                            votes := NoVotes(BackupCount(cfg, n)));
      assert TaskKey(cfg, proposed) == TaskKey(cfg, task);
      VoteShape(cfg, n, proposed, 0);
    }
  }

  lemma AfterProbeShape(cfg: Config, n: nat, l: Local, r: Option<Probe>)
    requires n > 0 && l.Fetching? && LocalOk(cfg, n, l)
    requires r.Some? ==> ProbeOk(r.value, TaskKey(cfg, l.task))
    ensures var l' := AfterProbe(cfg, n, l, r);
            && LocalOk(cfg, n, l') && !l'.Idle? && l'.task.id == l.task.id && l'.task.op == l.task.op
            && (PastCommit(l') ==> PastCommit(l))
            && (BeforeCommit(l') ==> l.task.stage == AtPrime || l.task.stage.AtVote?)
            && (FreshScan(l') || l'.Returning?
                || (l'.Writing? && (l'.task.stage == AtCommit || (r.Some? && l' == StoreTo(l, r.value)))))
  {
    var task := l.task;
    if task.stage == AtPrime && r.Some? {
      if task.Writes() {
        ProposedShape(cfg, n, task, r.value);
      } else if !cfg.cacheOn {
        ReadPrimeShape(cfg, n, task.(probe := r.value, stage := AtCache));
      }
    } else if task.stage.AtRepair? && r.None? {
      RepairShape(cfg, n, task, task.stage.idx + 1);
    } else if task.stage == AtCache {
      ReadPrimeShape(cfg, n, task);
    }
  }

  lemma AfterVoteShape(cfg: Config, n: nat, task: Task, idx: nat, v: Vote)
    requires n > 0 && TaskOk(cfg, n, task) && task.Writes() && task.stage == AtVote(idx)
    ensures idx < |task.votes|
    ensures var l := GoVote(cfg, n, task.(votes := task.votes[idx := v]), idx + 1);
            GoesTo(cfg, n, task, l) && !PastCommit(l)
  {
    var t := task.(votes := task.votes[idx := v]);
    assert TaskKey(cfg, t) == TaskKey(cfg, task);
    assert CallOf(cfg, t, t.probe) == CallOf(cfg, task, task.probe);
    VoteShape(cfg, n, t, idx + 1);
  }

  /** What a probe leaves of the task: once PRIME was probed, a write keeps that probe and its proposal. */
  lemma AfterProbeTask(cfg: Config, n: nat, l: Local, r: Option<Probe>)
    requires n > 0 && l.Fetching? && LocalOk(cfg, n, l)
    requires r.Some? ==> ProbeOk(r.value, TaskKey(cfg, l.task))
    ensures var l' := AfterProbe(cfg, n, l, r);
            && !l'.Idle?
            && (l.task.stage != AtPrime ==> l'.task.probe == l.task.probe && l'.task.proposal == l.task.proposal)
            && (l.task.stage == AtPrime && l'.task.stage != AtPrime ==> r.Some? && l'.task.probe == r.value)
            && (l'.task.hit != l.task.hit ==>
                  && l.task.stage == AtCache && r.Some? && l'.task.hit == Some(r.value.slot)
                  && CacheConsistent(l.task.probe, r.value, TaskKey(cfg, l.task)))
  {
    AfterProbeShape(cfg, n, l, r);
    var task := l.task;
    if task.stage == AtPrime && r.Some? {
      if task.Writes() {
        ProposedShape(cfg, n, task, r.value);
      } else if !cfg.cacheOn {
        ReadPrimeShape(cfg, n, task.(probe := r.value, stage := AtCache));
      }
    } else if task.stage.AtRepair? && r.None? {
      RepairShape(cfg, n, task, task.stage.idx + 1);
    } else if task.stage == AtCache {
      ReadPrimeShape(cfg, n, task);
    }
  }

  lemma ReturnShape(cfg: Config, n: nat, task: Task)
    requires n > 0 && TaskOk(cfg, n, task) && task.stage == AtRefresh
    ensures GoesTo(cfg, n, task, Returning(task, Outcome(cfg, task)))
  {
  }

  lemma CommittedShape(cfg: Config, n: nat, task: Task, won: bool)
    requires n > 0 && TaskOk(cfg, n, task) && task.stage == AtCommit
    ensures var l := if won && task.Writes() then GoRepair(cfg, n, task, 0) else Returning(task, Ruled(-1));
            GoesTo(cfg, n, task, l) && (!won ==> !PastCommit(l)) && !BeforeCommit(l)
  {
    if won {
      RepairShape(cfg, n, task, 0);
    }
  }

  lemma AfterCommitShape(cfg: Config, n: nat, l: Local, won: bool)
    requires n > 0 && (l.Writing? || l.Swapping?) && LocalOk(cfg, n, l)
    ensures var l' := AfterCommit(cfg, n, l, won);
            && GoesTo(cfg, n, l.task, l')
            && (PastCommit(l') ==> PastCommit(l) || (l.task.stage == AtCommit && won))
            && (BeforeCommit(l') ==> l.task.stage.AtVote?)
  {
    var task := l.task;
    if task.stage.AtVote? {
      AfterVoteShape(cfg, n, task, task.stage.idx, if won then Vote(true, 0) else Vote(false, l.tie));
    } else if task.stage == AtCommit {
      CommittedShape(cfg, n, task, won);
    } else if task.stage.AtRepair? {
      RepairShape(cfg, n, task, task.stage.idx + 1);
    } else {
      ReturnShape(cfg, n, task);
    }
  }

  // ------------------------------------------------------------------ a step's effect

  /** A body written by a client is a proposal; a guard it swaps in is that proposal's epoch; it goes to the
      place its task is at. */
  ghost predicate EffectOk(cfg: Config, n: nat, l: Local, e: Effect)
    requires n > 0
  {
    match e
    case Nothing => true
    case WroteBody(m, kind, i, b) =>
      l.Writing? && l.m == m && l.kind == kind && l.i == i && l.slot.body == b
          && StoringOk(cfg, n, l.task, m, kind, i, l.compare, l.slot)
    case SwappedGuard(m, kind, i, compare, swap) =>
      l.Swapping? && l.m == m && l.kind == kind && l.i == i && l.compare == compare && l.slot.body.visible == swap
      && StoringOk(cfg, n, l.task, m, kind, i, compare, l.slot)
    case Evicted(_, _) => false
  }

  lemma AdvanceShape(cfg: Config, nodes: seq<Node>, l: Local, fault: Fault)
    requires |nodes| > 0 && TablesOk(nodes) && LocalOk(cfg, |nodes|, l)
    ensures var move := Advance(cfg, nodes, l, fault);
            LocalOk(cfg, |nodes|, move.local) && EffectOk(cfg, |nodes|, l, move.effect)
  {
    if l.Fetching? {
      FetchShape(cfg, nodes, l, fault);
      var f := Fetch(cfg, nodes, l, fault);
      if f.Ends? {
        AfterProbeShape(cfg, |nodes|, l, f.result);
      }
    } else if l.Writing? || l.Swapping? {
      AfterCommitShape(cfg, |nodes|, l, false);
      AfterCommitShape(cfg, |nodes|, l, true);
    }
  }
}
