/** Commits to a PRIME slot are totally ordered by its guard, however many writers contend for it and
    whatever rules they computed. */
module CommitOrder {
  import opened Slots
  import opened Cluster
  import opened Machine
  import opened Steps
  import opened Chains

  function CountAt(commits: seq<Commit>, m: nat, i: nat): (c: nat) {
    if commits == [] then 0
    else
      var last := commits[|commits| - 1];
      CountAt(commits[..|commits| - 1], m, i) + if last.m == m && last.i == i then 1 else 0
  }

  /** The commit a write makes when its CAS on PRIME succeeds. */
  function CommitOf(cfg: Config, n: nat, task: Task): Commit
    requires n > 0
  {
    Commit(Primary(TaskKey(cfg, task), n), task.probe.candIndex, task.proposal.body.visible, task.id)
  }

  ghost predicate GuardsCount(nodes: seq<Node>, commits: seq<Commit>) {
    forall m :: 0 <= m < |nodes| ==>
      forall i :: 0 <= i < |nodes[m].prime| ==> nodes[m].prime[i].guard == CountAt(commits, m, i)
  }

  /** The j-th commit carries the epoch its slot has reached with it. */
  ghost predicate EpochsCount(commits: seq<Commit>) {
    forall j :: 0 <= j < |commits| ==> commits[j].epoch == CountAt(commits[..j], commits[j].m, commits[j].i) + 1
  }

  ghost predicate OrderOk(cfg: Config, s: State) {
    && ChainsOk(cfg, s.nodes, s.clients)
    && GuardsCount(s.nodes, s.commits) && EpochsCount(s.commits)
    && (forall c :: 0 <= c < |s.clients| && PastCommit(s.clients[c]) ==>
          CommitOf(cfg, |s.nodes|, s.clients[c].task) in s.commits)
    && (forall x :: x in s.returned ==> x in s.commits)
    && IdsOk(s)
  }

  /** A number names one read or write only. */
  ghost predicate IdsOk(s: State) {
    && (forall c :: 0 <= c < |s.clients| && !s.clients[c].Idle? ==> s.clients[c].task.id < s.started)
    && (forall c, d :: 0 <= c < d < |s.clients| && !s.clients[c].Idle? && !s.clients[d].Idle? ==>
          s.clients[c].task.id != s.clients[d].task.id)
  }

  // -------------------------------------------------------------------- counting

  lemma CountAppend(commits: seq<Commit>, x: Commit, m: nat, i: nat)
    ensures CountAt(commits + [x], m, i) == CountAt(commits, m, i) + if x.m == m && x.i == i then 1 else 0
  {
    assert (commits + [x])[..|commits|] == commits;
  }

  lemma EpochsAppend(commits: seq<Commit>, x: Commit)
    requires EpochsCount(commits) && x.epoch == CountAt(commits, x.m, x.i) + 1
    ensures EpochsCount(commits + [x])
  {
    var after := commits + [x];
    forall j | 0 <= j < |after| ensures after[j].epoch == CountAt(after[..j], after[j].m, after[j].i) + 1 {
      if j < |commits| {
        assert after[..j] == commits[..j];
      } else {
        assert after[..j] == commits;
      }
    }
  }

  lemma {:induction false} CountGrows(commits: seq<Commit>, a: nat, b: nat)
    requires a < b <= |commits|
    ensures CountAt(commits[..b], commits[a].m, commits[a].i) >= CountAt(commits[..a], commits[a].m, commits[a].i) + 1
  {
    assert commits[..b][..b - 1] == commits[..b - 1];
    if a < b - 1 {
      CountGrows(commits, a, b - 1);
    }
  }

  /** No two commits have slot and epoch in common. */
  lemma CommitsUnique(commits: seq<Commit>, a: nat, b: nat)
    requires EpochsCount(commits) && a < |commits| && b < |commits|
    requires commits[a].m == commits[b].m && commits[a].i == commits[b].i && commits[a].epoch == commits[b].epoch
    ensures a == b
  {
    if a < b {
      CountGrows(commits, a, b);
    } else if b < a {
      CountGrows(commits, b, a);
    }
  }

  // -------------------------------------------------------------------- one step

  lemma GuardsSame(nodes: seq<Node>, e: Effect, commits: seq<Commit>)
    requires GuardsCount(nodes, commits)
    requires e.SwappedGuard? ==> e.kind != Prime || !GuardIs(nodes, e.m, Prime, e.i, e.compare)
    ensures GuardsCount(Apply(nodes, e), commits)
  {
    var nodes' := Apply(nodes, e);
    forall m, i | 0 <= m < |nodes'| && 0 <= i < |nodes'[m].prime|
      ensures nodes'[m].prime[i].guard == nodes[m].prime[i].guard
    {
    }
  }

  lemma GuardsCounted(nodes: seq<Node>, m: nat, i: nat, compare: nat, x: Commit, commits: seq<Commit>)
    requires GuardsCount(nodes, commits) && GuardIs(nodes, m, Prime, i, compare)
    requires x.m == m && x.i == i && x.epoch == compare + 1
    ensures GuardsCount(Apply(nodes, SwappedGuard(m, Prime, i, compare, x.epoch)), commits + [x])
    ensures x.epoch == CountAt(commits, m, i) + 1
  {
    var nodes' := Apply(nodes, SwappedGuard(m, Prime, i, compare, x.epoch));
    forall a, b | 0 <= a < |nodes'| && 0 <= b < |nodes'[a].prime|
      ensures nodes'[a].prime[b].guard == CountAt(commits + [x], a, b)
    {
      CountAppend(commits, x, a, b);
    }
  }

  lemma EffectCounts(cfg: Config, nodes: seq<Node>, l: Local, e: Effect, commits: seq<Commit>)
    requires |nodes| > 0 && GuardsCount(nodes, commits) && EpochsCount(commits)
    requires LocalOk(cfg, |nodes|, l) && EffectOk(cfg, |nodes|, l, e)
    ensures var after := commits + NewCommits(nodes, l, e);
            GuardsCount(Apply(nodes, e), after) && EpochsCount(after)
    ensures e.SwappedGuard? && e.kind == Prime && GuardIs(nodes, e.m, Prime, e.i, e.compare)
            ==> NewCommits(nodes, l, e) == [CommitOf(cfg, |nodes|, l.task)]
  {
    if e.SwappedGuard? && e.kind == Prime && GuardIs(nodes, e.m, Prime, e.i, e.compare) {
      PayloadIsProposal(cfg, |nodes|, l.task);
      var x := CommitOf(cfg, |nodes|, l.task);
      assert l.task.stage == AtCommit && NewCommits(nodes, l, e) == [x];
      GuardsCounted(nodes, e.m, e.i, e.compare, x, commits);
      EpochsAppend(commits, x);
    } else {
      assert commits + NewCommits(nodes, l, e) == commits;
      GuardsSame(nodes, e, commits);
    }
  }

  lemma AdvanceCommits(cfg: Config, nodes: seq<Node>, l: Local, fault: Fault)
    requires |nodes| > 0 && TablesOk(nodes) && LocalOk(cfg, |nodes|, l)
    requires PastCommit(Advance(cfg, nodes, l, fault).local)
    ensures var move := Advance(cfg, nodes, l, fault);
            && CommitOf(cfg, |nodes|, move.local.task) == CommitOf(cfg, |nodes|, l.task)
            && (PastCommit(l) || (move.effect.SwappedGuard? && move.effect.kind == Prime
                                  && GuardIs(nodes, move.effect.m, Prime, move.effect.i, move.effect.compare)))
  {
    if l.Fetching? {
      FetchShape(cfg, nodes, l, fault);
      var f := Fetch(cfg, nodes, l, fault);
      if f.Ends? {
        AfterProbeShape(cfg, |nodes|, l, f.result);
        AfterProbeTask(cfg, |nodes|, l, f.result);
      }
    } else if l.Writing? || l.Swapping? {
      AfterCommitShape(cfg, |nodes|, l, false);
      AfterCommitShape(cfg, |nodes|, l, true);
    }
  }

  lemma AdvanceKeepsId(cfg: Config, nodes: seq<Node>, l: Local, fault: Fault)
    requires |nodes| > 0 && TablesOk(nodes) && LocalOk(cfg, |nodes|, l)
    ensures var l' := Advance(cfg, nodes, l, fault).local;
            !l'.Idle? ==> !l.Idle? && l'.task.id == l.task.id && l'.task.op == l.task.op
  {
    if l.Fetching? {
      FetchShape(cfg, nodes, l, fault);
      var f := Fetch(cfg, nodes, l, fault);
      if f.Ends? {
        AfterProbeShape(cfg, |nodes|, l, f.result);
      }
    } else if l.Writing? || l.Swapping? {
      AfterCommitShape(cfg, |nodes|, l, false);
      AfterCommitShape(cfg, |nodes|, l, true);
    }
  }

  lemma IdsAct(cfg: Config, s: State, c: nat, fault: Fault)
    requires ChainsOk(cfg, s.nodes, s.clients) && IdsOk(s)
    ensures IdsOk(Next(cfg, s, Act(c, fault)))
  {
    if c < |s.clients| {
      AdvanceKeepsId(cfg, s.nodes, s.clients[c], fault);
    }
  }

  lemma OrderAct(cfg: Config, s: State, c: nat, fault: Fault)
    requires OrderOk(cfg, s) && c < |s.clients|
    ensures var r := Next(cfg, s, Act(c, fault));
            && GuardsCount(r.nodes, r.commits) && EpochsCount(r.commits)
            && (PastCommit(r.clients[c]) ==> CommitOf(cfg, |r.nodes|, r.clients[c].task) in r.commits)
            && (forall x :: x in NewReturned(cfg, |s.nodes|, s.clients[c]) ==> x in s.commits)
  {
    var l := s.clients[c];
    var move := Advance(cfg, s.nodes, l, fault);
    AdvanceShape(cfg, s.nodes, l, fault);
    EffectCounts(cfg, s.nodes, l, move.effect, s.commits);
    if PastCommit(move.local) {
      AdvanceCommits(cfg, s.nodes, l, fault);
    }
  }

  lemma OrderNext(cfg: Config, s: State, event: Event)
    requires OrderOk(cfg, s)
    ensures OrderOk(cfg, Next(cfg, s, event))
  {
    var r := Next(cfg, s, event);
    ChainsNext(cfg, s, event);
    match event
    case Start(c, op) =>
    case Evict(m, i) =>
      assert forall a :: 0 <= a < |r.nodes| ==> r.nodes[a].prime == s.nodes[a].prime;
    case Act(c, fault) =>
      IdsAct(cfg, s, c, fault);
      if c < |s.clients| {
        OrderAct(cfg, s, c, fault);
      }
  }

  lemma {:induction false} OrderAlways(cfg: Config, s: State, events: seq<Event>)
    requires Initial(s)
    ensures OrderOk(cfg, Execute(cfg, s, events))
  {
    if events == [] {
      FreshState(cfg, s);
      forall m, i | 0 <= m < |s.nodes| && 0 <= i < |s.nodes[m].prime| ensures s.nodes[m].prime[i] == ZERO_SLOT {
        assert s.nodes[m].Part(Prime) == s.nodes[m].prime;
      }
    } else {
      OrderAlways(cfg, s, events[..|events| - 1]);
      OrderNext(cfg, Execute(cfg, s, events[..|events| - 1]), events[|events| - 1]);
    }
  }

  /** In every reachable state the guard of a PRIME slot is the number of CASes that have succeeded on it, the epochs
      they set are 1, 2, 3, ... in that order, and no two writes have returned a rule for the same slot and epoch. */
  lemma CommitsOrdered(cfg: Config, s: State, events: seq<Event>)
    requires Initial(s)
    ensures var r := Execute(cfg, s, events);
            && GuardsCount(r.nodes, r.commits) && EpochsCount(r.commits)
            && forall x, y ::
                 x in r.returned && y in r.returned && x.m == y.m && x.i == y.i && x.epoch == y.epoch ==> x == y
  {
    OrderAlways(cfg, s, events);
    var r := Execute(cfg, s, events);
    forall x, y | x in r.returned && y in r.returned && x.m == y.m && x.i == y.i && x.epoch == y.epoch ensures x == y {
      var a :| 0 <= a < |r.commits| && r.commits[a] == x;
      var b :| 0 <= b < |r.commits| && r.commits[b] == y;
      CommitsUnique(r.commits, a, b);
    }
  }
}
