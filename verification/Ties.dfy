/** What the tie-breakers of lost votes are over the whole machine: those of slots that the vote's own scan fetched. */
module Ties {
  import opened Slots
  import opened Table
  import opened Codec
  import opened Votes
  import opened Cluster
  import opened Machine
  import opened Steps
  import opened Chains
  import opened CommitOrder
  import opened Majorities

  // ------------------------------------------------------------------ what scans have fetched

  /** The scan for vote number vote of the write with this number fetched slot i of BACKUP at node m. */
  datatype Sight = Sight(id: nat, vote: nat, m: nat, i: nat, slot: Slot)

  function SightBy(cfg: Config, nodes: seq<Node>, l: Local, fault: Fault): set<Sight> {
    if l.Fetching? && l.task.stage.AtVote? && fault == Delivered && l.m < |nodes|
        && l.d < |nodes[l.m].Part(l.kind)| then
      var t := nodes[l.m].Part(l.kind);
      var i := Pos(Home(TaskKey(cfg, l.task), |t|), l.d, |t|);
      {Sight(l.task.id, l.task.stage.idx, l.m, i, t[i])}
    else {}
  }

  /** All that the scans for votes have fetched in a run. */
  function Sights(cfg: Config, s: State, events: seq<Event>): set<Sight>
    requires |s.nodes| > 0
  {
    if events == [] then {}
    else
      var n := |events| - 1;
      var before := Execute(cfg, s, events[..n]);
      var sights := Sights(cfg, s, events[..n]);
      match events[n]
      case Start(_, _) => sights
      case Evict(_, _) => sights
      case Act(c, fault) =>
        if c < |before.clients| then sights + SightBy(cfg, before.nodes, before.clients[c], fault) else sights
  }

  /** The j-th event of the run is the fetch x stands for. */
  ghost predicate FetchedBy(cfg: Config, s: State, events: seq<Event>, x: Sight, j: nat)
    requires |s.nodes| > 0
  {
    && j < |events| && events[j].Act? && events[j].fault == Delivered
    && var before := Execute(cfg, s, events[..j]);
    && events[j].c < |before.clients|
    && var l := before.clients[events[j].c];
    && l.Fetching? && l.task.id == x.id && l.task.stage == AtVote(x.vote) && (l.m, l.kind) == (x.m, Backup)
    && x.m < |before.nodes| && x.i < |before.nodes[x.m].backup| && x.slot == before.nodes[x.m].backup[x.i]
  }

  /** Each is the slot as it stood in BACKUP when a client at that vote fetched it. */
  lemma {:induction false} SightsAreFetches(cfg: Config, s: State, events: seq<Event>, x: Sight) returns (j: nat)
    requires Initial(s) && x in Sights(cfg, s, events)
    ensures FetchedBy(cfg, s, events, x, j)
  {
    var n := |events| - 1;
    var before := Execute(cfg, s, events[..n]);
    if x in Sights(cfg, s, events[..n]) {
      j := SightsAreFetches(cfg, s, events[..n], x);
      assert events[..n][..j] == events[..j];
    } else {
      j := n;
      ChainsAlways(cfg, s, events[..n]);
      assert LocalOk(cfg, |before.nodes|, before.clients[events[n].c]);
    }
  }

  // --------------------------------------------------------------------- what clients remember

  /** A slot that the key has or may take. */
  predicate PlaceFor(s: Slot, k: nat) {
    s.Holds(k) || s.Reusable() || s.IsEmpty()
  }

  /** Slot x was fetched for vote b of the write with this number, on the replica that votes there, as a place for
      its key. */
  predicate FetchedFor(n: nat, id: nat, k: nat, b: nat, x: Sight)
    requires n > 0
  {
    x.id == id && x.vote == b && x.m == Replica(k, b + 1, n) && PlaceFor(x.slot, k)
  }

  /** The scan's candidate is a slot it fetched. */
  ghost predicate CandidateSeen(n: nat, id: nat, k: nat, b: nat, q: Probe, sights: set<Sight>)
    requires n > 0
  {
    q.candValid ==> exists x :: x in sights && FetchedFor(n, id, k, b, x) && x.i == q.candIndex && x.slot == q.cand
  }

  /** The slot to be overwritten, the guard its CAS compares with and the tie-breaker to remember are those of a slot
      fetched. */
  ghost predicate TargetSeen(n: nat, id: nat, k: nat, b: nat, i: nat, compare: nat, tie: nat, sights: set<Sight>)
    requires n > 0
  {
    exists x :: x in sights && FetchedFor(n, id, k, b, x) && x.i == i && x.slot.guard == compare
        && x.slot.body.tie == tie
  }

  /** The vote, if lost, remembers the tie-breaker of a slot fetched. */
  ghost predicate VoteSeen(n: nat, id: nat, k: nat, b: nat, v: Vote, sights: set<Sight>)
    requires n > 0
  {
    v.success || exists x :: x in sights && FetchedFor(n, id, k, b, x) && x.slot.body.tie == v.observedTie
  }

  ghost predicate VotesSeen(n: nat, id: nat, k: nat, votes: seq<Vote>, upTo: nat, sights: set<Sight>)
    requires n > 0 && upTo <= |votes|
  {
    forall b :: 0 <= b < upTo ==> VoteSeen(n, id, k, b, votes[b], sights)
  }

  /** The number of votes a task has decided. */
  function Decisions(task: Task): (d: nat)
    ensures d <= |task.votes|
  {
    if task.stage == AtPrime then 0
    else if task.stage.AtVote? && task.stage.idx <= |task.votes| then task.stage.idx
    else |task.votes|
  }

  ghost predicate LocalSeen(cfg: Config, n: nat, l: Local, sights: set<Sight>)
    requires n > 0
  {
    !l.Idle? && l.task.Writes() ==>
      var id, k := l.task.id, TaskKey(cfg, l.task);
      && VotesSeen(n, id, k, l.task.votes, Decisions(l.task), sights)
      && (l.task.stage.AtVote? && l.Fetching? ==> CandidateSeen(n, id, k, l.task.stage.idx, l.sofar, sights))
      && (l.task.stage.AtVote? && (l.Writing? || l.Swapping?) ==>
            TargetSeen(n, id, k, l.task.stage.idx, l.i, l.compare, l.tie, sights))
  }

  lemma SeenMore(cfg: Config, n: nat, l: Local, sights: set<Sight>, more: set<Sight>)
    requires n > 0 && LocalSeen(cfg, n, l, sights)
    ensures LocalSeen(cfg, n, l, sights + more)
  {
    if !l.Idle? && l.task.Writes() {
      VotesSeenMore(n, l.task.id, TaskKey(cfg, l.task), l.task.votes, Decisions(l.task), sights, more);
    }
  }

  lemma VotesSeenMore(n: nat, id: nat, k: nat, votes: seq<Vote>, upTo: nat, sights: set<Sight>, more: set<Sight>)
    requires n > 0 && upTo <= |votes| && VotesSeen(n, id, k, votes, upTo, sights)
    ensures VotesSeen(n, id, k, votes, upTo, sights + more)
  {
    forall b | 0 <= b < upTo ensures VoteSeen(n, id, k, b, votes[b], sights + more) {
      assert VoteSeen(n, id, k, b, votes[b], sights);
    }
  }

  // ----------------------------------------------------------------------------- one step

  /** Going on with the vote keeps what the votes decided so far remember. */
  lemma VoteGoesSeen(cfg: Config, n: nat, task: Task, idx: nat, sights: set<Sight>)
    requires n > 0 && task.Writes() && idx <= |task.votes|
    requires VotesSeen(n, task.id, TaskKey(cfg, task), task.votes, idx, sights)
    requires idx == |task.votes| ==> Decisions(task) <= idx
    ensures LocalSeen(cfg, n, GoVote(cfg, n, task, idx), sights)
  {
  }

  lemma {:induction false} RepairGoesSeen(cfg: Config, n: nat, task: Task, idx: nat, sights: set<Sight>)
    requires n > 0 && task.Writes() && idx <= |task.votes|
    requires VotesSeen(n, task.id, TaskKey(cfg, task), task.votes, |task.votes|, sights)
    requires task.stage != AtPrime && !task.stage.AtVote?
    ensures LocalSeen(cfg, n, GoRepair(cfg, n, task, idx), sights)
    decreases |task.votes| - idx
  {
    if idx < |task.votes| && task.votes[idx].success {
      RepairGoesSeen(cfg, n, task, idx + 1, sights);
    }
  }

  /** A fetch adds what it sees, and a candidate is among it. */
  lemma FetchSeen(cfg: Config, nodes: seq<Node>, l: Local, fault: Fault, sights: set<Sight>)
    requires |nodes| > 0 && l.Fetching? && LocalOk(cfg, |nodes|, l) && l.task.stage.AtVote? && l.task.Writes()
    requires CandidateSeen(|nodes|, l.task.id, TaskKey(cfg, l.task), l.task.stage.idx, l.sofar, sights)
    ensures var after := sights + SightBy(cfg, nodes, l, fault);
            match Fetch(cfg, nodes, l, fault)
            case GoesOn(q) => CandidateSeen(|nodes|, l.task.id, TaskKey(cfg, l.task), l.task.stage.idx, q, after)
            case Ends(r) => r.Some? ==>
              CandidateSeen(|nodes|, l.task.id, TaskKey(cfg, l.task), l.task.stage.idx, r.value, after)
  {
    var more := SightBy(cfg, nodes, l, fault);
    if more != {} {
      var x :| x in more;
      assert x in sights + more;
    }
  }

  lemma ProbeSeen(cfg: Config, n: nat, l: Local, r: Option<Probe>, sights: set<Sight>)
    requires n > 0 && l.Fetching? && l.task.Writes() && LocalOk(cfg, n, l) && LocalSeen(cfg, n, l, sights)
    requires r.Some? ==> ProbeOk(r.value, TaskKey(cfg, l.task))
    requires r.Some? && l.task.stage.AtVote? ==>
               CandidateSeen(n, l.task.id, TaskKey(cfg, l.task), l.task.stage.idx, r.value, sights)
    ensures LocalSeen(cfg, n, AfterProbe(cfg, n, l, r), sights)
  {
    var task := l.task;
    if task.stage == AtPrime && r.Some? && CallOf(cfg, task, r.value).Some? {
      var proposed := task.(probe := r.value, proposal := Made(cfg.crypto, CallOf(cfg, task, r.value).value),
                            votes := NoVotes(BackupCount(cfg, n)));
      assert TaskKey(cfg, proposed) == TaskKey(cfg, task);
      VoteGoesSeen(cfg, n, proposed, 0, sights);
    } else if task.stage.AtRepair? && r.None? {
      RepairGoesSeen(cfg, n, task, task.stage.idx + 1, sights);
    }
  }

  lemma VoteDecidedSeen(cfg: Config, n: nat, l: Local, won: bool, sights: set<Sight>)
    requires n > 0 && (l.Writing? || l.Swapping?) && l.task.Writes() && LocalOk(cfg, n, l)
    requires LocalSeen(cfg, n, l, sights)
    requires l.task.stage.AtVote?
    ensures LocalSeen(cfg, n, AfterCommit(cfg, n, l, won), sights)
  {
    var task := l.task;
    var idx := task.stage.idx;
    var voted := task.(votes := task.votes[idx := if won then Vote(true, 0) else Vote(false, l.tie)]);
    var k := TaskKey(cfg, task);
    assert TaskKey(cfg, voted) == k;
    forall b | 0 <= b < idx + 1 ensures VoteSeen(n, task.id, k, b, voted.votes[b], sights) {
      assert b < idx ==> VoteSeen(n, task.id, k, b, task.votes[b], sights);
    }
    VoteGoesSeen(cfg, n, voted, idx + 1, sights);
  }

  lemma CommitSeen(cfg: Config, n: nat, l: Local, won: bool, sights: set<Sight>)
    requires n > 0 && (l.Writing? || l.Swapping?) && l.task.Writes() && LocalOk(cfg, n, l)
    requires LocalSeen(cfg, n, l, sights)
    ensures LocalSeen(cfg, n, AfterCommit(cfg, n, l, won), sights)
  {
    var task := l.task;
    if task.stage.AtVote? {
      VoteDecidedSeen(cfg, n, l, won, sights);
    } else if task.stage == AtCommit && won {
      RepairGoesSeen(cfg, n, task, 0, sights);
    } else if task.stage.AtRepair? {
      RepairGoesSeen(cfg, n, task, task.stage.idx + 1, sights);
    }
  }

  lemma AdvanceSeen(cfg: Config, nodes: seq<Node>, l: Local, fault: Fault, sights: set<Sight>)
    requires |nodes| > 0 && TablesOk(nodes) && LocalOk(cfg, |nodes|, l) && LocalSeen(cfg, |nodes|, l, sights)
    ensures LocalSeen(cfg, |nodes|, Advance(cfg, nodes, l, fault).local, sights + SightBy(cfg, nodes, l, fault))
  {
    var n, more := |nodes|, SightBy(cfg, nodes, l, fault);
    SeenMore(cfg, n, l, sights, more);
    if l.Fetching? && l.task.Writes() {
      FetchShape(cfg, nodes, l, fault);
      if l.task.stage.AtVote? {
        FetchSeen(cfg, nodes, l, fault, sights);
      }
      var f := Fetch(cfg, nodes, l, fault);
      if f.Ends? {
        ProbeSeen(cfg, n, l, f.result, sights + more);
      }
    } else if (l.Writing? || l.Swapping?) && l.task.Writes() {
      CommitSeen(cfg, n, l, false, sights + more);
      CommitSeen(cfg, n, l, true, sights + more);
    } else if !l.Idle? && !l.task.Writes() {
      AdvanceKeepsId(cfg, nodes, l, fault);
    }
  }

  // ----------------------------------------------------------------------------- all runs

  /** The lost votes of an election remember the tie-breakers of slots fetched for them. */
  ghost predicate ElectionSeen(n: nat, x: Election, sights: set<Sight>)
    requires n > 0
  {
    VotesSeen(n, x.id, x.key, x.votes, |x.votes|, sights)
  }

  ghost predicate AllSeen(cfg: Config, s: State, r: Record, sights: set<Sight>)
    requires |s.nodes| > 0
  {
    && (forall c :: 0 <= c < |s.clients| ==> LocalSeen(cfg, |s.nodes|, s.clients[c], sights))
    && (forall x :: x in r.elections ==> ElectionSeen(|s.nodes|, x, sights))
  }

  lemma SeenNext(cfg: Config, s: State, c: nat, fault: Fault, r: Record, sights: set<Sight>)
    requires |s.nodes| > 0 && ChainsOk(cfg, s.nodes, s.clients) && AllSeen(cfg, s, r, sights) && c < |s.clients|
    ensures AllSeen(cfg, Next(cfg, s, Act(c, fault)), RecordAct(cfg, s.nodes, s.clients[c], fault, r),
                    sights + SightBy(cfg, s.nodes, s.clients[c], fault))
  {
    var l, n := s.clients[c], |s.nodes|;
    var more := SightBy(cfg, s.nodes, l, fault);
    AdvanceSeen(cfg, s.nodes, l, fault, sights);
    forall d | 0 <= d < |s.clients| && d != c ensures LocalSeen(cfg, n, s.clients[d], sights + more) {
      SeenMore(cfg, n, s.clients[d], sights, more);
    }
    forall x | x in r.elections ensures ElectionSeen(n, x, sights + more) {
      VotesSeenMore(n, x.id, x.key, x.votes, |x.votes|, sights, more);
    }
  }

  /** In every interleaving, faults, evictions and repairs included, a lost vote remembers the tie-breaker of a slot
      that its own scan fetched on its replica, and that the key had or might have taken. */
  lemma {:induction false} SeenAlways(cfg: Config, s: State, events: seq<Event>)
    requires Initial(s)
    ensures AllSeen(cfg, Execute(cfg, s, events), Recorded(cfg, s, events), Sights(cfg, s, events))
  {
    if events != [] {
      var n := |events| - 1;
      var before := Execute(cfg, s, events[..n]);
      SeenAlways(cfg, s, events[..n]);
      ChainsAlways(cfg, s, events[..n]);
      match events[n]
      case Start(c, op) =>
      case Evict(m, i) =>
      case Act(c, fault) =>
        if c < |before.clients| {
          SeenNext(cfg, before, c, fault, Recorded(cfg, s, events[..n]), Sights(cfg, s, events[..n]));
        }
    }
  }

  /** So a write that turns to the primary under rule 3 has, at every backup whose vote it lost, fetched a slot to
      overwrite whose tie-breaker is zero or above its own. */
  lemma RuleThreeUndercuts(cfg: Config, s: State, events: seq<Event>, x: Election, b: nat) returns (seen: Sight)
    requires Initial(s) && x in Recorded(cfg, s, events).elections && x.rule == 3
    requires b < |x.votes| && !x.votes[b].success
    ensures seen in Sights(cfg, s, events) && FetchedFor(|s.nodes|, x.id, x.key, b, seen)
    ensures seen.slot.body.tie == 0 || x.tie < seen.slot.body.tie
  {
    SeenAlways(cfg, s, events);
    RecordAlways(cfg, s, events);
    assert ElectionOk(cfg, |s.nodes|, x, Recorded(cfg, s, events).swaps);
    RuleIff(x.votes, x.tie);
    assert ElectionSeen(|s.nodes|, x, Sights(cfg, s, events));
    assert VoteSeen(|s.nodes|, x.id, x.key, b, x.votes[b], Sights(cfg, s, events));
    seen :| seen in Sights(cfg, s, events) && FetchedFor(|s.nodes|, x.id, x.key, b, seen)
      && seen.slot.body.tie == x.votes[b].observedTie;
    assert !LostTo(x.votes[b], x.tie);
  }
}
