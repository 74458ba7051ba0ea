/** Majorities over the whole machine: what it takes for two writes of one key to win rule 1 or 2 both, whatever faults,
    repairs and other clients there are. */
module Majorities {
  import opened Slots
  import opened Table
  import opened Codec
  import opened Votes
  import opened Cluster
  import opened Machine
  import opened Steps
  import opened Chains
  import opened CommitOrder

  // -------------------------------------------------------------------- what is recorded

  /** A CAS that succeeded on slot i of BACKUP at node m, by the write with this number; vote is the index of the vote
      it won, if it was for a vote and not a repair. */
  datatype Swap = Swap(m: nat, i: nat, from: nat, to: nat, id: nat, vote: Option<nat>)

  /** The votes of a write that is allowed to go on to the primary. */
  datatype Election = Election(id: nat, key: nat, votes: seq<Vote>, tie: nat, rule: nat)

  function SwapBy(nodes: seq<Node>, l: Local, e: Effect): seq<Swap> {
    if l.Swapping? && e.SwappedGuard? && e.kind == Backup && GuardIs(nodes, e.m, Backup, e.i, e.compare)
    then [Swap(e.m, e.i, e.compare, e.swap, l.task.id, if l.task.stage.AtVote? then Some(l.task.stage.idx) else None)]
    else []
  }

  /** A write has just turned to the primary. */
  predicate Elects(l: Local, l': Local) {
    && !l.Idle? && l.task.Writes() && l.task.stage != AtCommit
    && l'.Writing? && l'.task.Writes() && l'.task.stage == AtCommit
  }

  function ElectionOf(cfg: Config, l: Local): Election
    requires !l.Idle?
  {
    Election(l.task.id, TaskKey(cfg, l.task), l.task.votes, l.task.proposal.body.tie, l.task.rule)
  }

  function ElectedBy(cfg: Config, l: Local, l': Local): set<Election> {
    if Elects(l, l') then {ElectionOf(cfg, l')} else {}
  }

  /** The successful CASes on BACKUP in the order in which the nodes carried them out, and the elections, of a run. */
  datatype Record = Record(swaps: seq<Swap>, elections: set<Election>)

  function Recorded(cfg: Config, s: State, events: seq<Event>): Record
    requires |s.nodes| > 0
  {
    if events == [] then Record([], {})
    else
      var n := |events| - 1;
      var before, r := Execute(cfg, s, events[..n]), Recorded(cfg, s, events[..n]);
      match events[n]
      case Start(_, _) => r
      case Evict(_, _) => r
      case Act(c, fault) =>
        if c < |before.clients| then RecordAct(cfg, before.nodes, before.clients[c], fault, r) else r
  }

  function RecordAct(cfg: Config, nodes: seq<Node>, l: Local, fault: Fault, r: Record): Record
    requires |nodes| > 0
  {
    var move := Advance(cfg, nodes, l, fault);
    Record(r.swaps + SwapBy(nodes, l, move.effect), r.elections + ElectedBy(cfg, l, move.local))
  }

  // --------------------------------------------------------------------- guards of BACKUP

  predicate OnSlot(x: Swap, m: nat, i: nat) {
    x.m == m && x.i == i
  }

  /** The guard that the swaps leave in a slot. */
  function LastTo(swaps: seq<Swap>, m: nat, i: nat): nat {
    if swaps == [] then 0
    else
      var last := swaps[|swaps| - 1];
      if OnSlot(last, m, i) then last.to else LastTo(swaps[..|swaps| - 1], m, i)
  }

  ghost predicate GuardsLast(nodes: seq<Node>, swaps: seq<Swap>) {
    forall m :: 0 <= m < |nodes| ==>
      forall i :: 0 <= i < |nodes[m].backup| ==> nodes[m].backup[i].guard == LastTo(swaps, m, i)
  }

  /** Each swap found what the one before it on its slot had left. */
  ghost predicate Linked(swaps: seq<Swap>) {
    forall j :: 0 <= j < |swaps| ==> swaps[j].from == LastTo(swaps[..j], swaps[j].m, swaps[j].i)
  }

  lemma LastAppend(swaps: seq<Swap>, x: Swap, m: nat, i: nat)
    ensures LastTo(swaps + [x], m, i) == if OnSlot(x, m, i) then x.to else LastTo(swaps, m, i)
  {
    assert (swaps + [x])[..|swaps|] == swaps;
  }

  lemma LinkedAppend(swaps: seq<Swap>, x: Swap)
    requires Linked(swaps) && x.from == LastTo(swaps, x.m, x.i)
    ensures Linked(swaps + [x])
  {
    var after := swaps + [x];
    forall j | 0 <= j < |after| ensures after[j].from == LastTo(after[..j], after[j].m, after[j].i) {
      if j < |swaps| {
        assert after[..j] == swaps[..j];
      } else {
        assert after[..j] == swaps;
      }
    }
  }

  /** Some swap from the j-th on and before the k-th leaves guard g in the slot of the k-th. */
  ghost predicate Returned(swaps: seq<Swap>, j: nat, k: nat, g: nat)
    requires k < |swaps|
  {
    exists l :: j <= l < k && OnSlot(swaps[l], swaps[k].m, swaps[k].i) && swaps[l].to == g
  }

  lemma {:induction false} LastFrom(swaps: seq<Swap>, j: nat, k: nat, m: nat, i: nat) returns (l: nat)
    requires j < k <= |swaps| && OnSlot(swaps[j], m, i)
    ensures j <= l < k && OnSlot(swaps[l], m, i) && swaps[l].to == LastTo(swaps[..k], m, i)
  {
    assert swaps[..k][..k - 1] == swaps[..k - 1];
    if OnSlot(swaps[k - 1], m, i) {
      l := k - 1;
    } else {
      l := LastFrom(swaps, j, k - 1, m, i);
    }
  }

  /** A guard is swapped away twice only if it has come back in between. */
  lemma TwiceNeedsReturn(swaps: seq<Swap>, j: nat, k: nat)
    requires Linked(swaps) && j < k < |swaps| && OnSlot(swaps[j], swaps[k].m, swaps[k].i)
    requires swaps[k].from == swaps[j].from
    ensures Returned(swaps, j, k, swaps[j].from)
  {
    var l := LastFrom(swaps, j, k, swaps[k].m, swaps[k].i);
  }

  lemma GuardsKept(nodes: seq<Node>, e: Effect, swaps: seq<Swap>)
    requires GuardsLast(nodes, swaps)
    requires e.SwappedGuard? ==> e.kind != Backup || !GuardIs(nodes, e.m, Backup, e.i, e.compare)
    ensures GuardsLast(Apply(nodes, e), swaps)
  {
    var nodes' := Apply(nodes, e);
    forall m, i | 0 <= m < |nodes'| && 0 <= i < |nodes'[m].backup|
      ensures nodes'[m].backup[i].guard == nodes[m].backup[i].guard
    {
    }
  }

  lemma GuardsSwapped(nodes: seq<Node>, x: Swap, swaps: seq<Swap>)
    requires GuardsLast(nodes, swaps) && GuardIs(nodes, x.m, Backup, x.i, x.from)
    ensures GuardsLast(Apply(nodes, SwappedGuard(x.m, Backup, x.i, x.from, x.to)), swaps + [x])
    ensures x.from == LastTo(swaps, x.m, x.i)
  {
    var nodes' := Apply(nodes, SwappedGuard(x.m, Backup, x.i, x.from, x.to));
    forall m, i | 0 <= m < |nodes'| && 0 <= i < |nodes'[m].backup|
      ensures nodes'[m].backup[i].guard == LastTo(swaps + [x], m, i)
    {
      LastAppend(swaps, x, m, i);
    }
  }

  lemma EffectLinks(cfg: Config, nodes: seq<Node>, l: Local, e: Effect, swaps: seq<Swap>)
    requires |nodes| > 0 && GuardsLast(nodes, swaps) && Linked(swaps) && EffectOk(cfg, |nodes|, l, e)
    ensures var after := swaps + SwapBy(nodes, l, e);
            GuardsLast(Apply(nodes, e), after) && Linked(after)
  {
    if e.SwappedGuard? && e.kind == Backup && GuardIs(nodes, e.m, Backup, e.i, e.compare) {
      var x := SwapBy(nodes, l, e)[0];
      GuardsSwapped(nodes, x, swaps);
      LinkedAppend(swaps, x);
    } else {
      assert swaps + SwapBy(nodes, l, e) == swaps;
      GuardsKept(nodes, e, swaps);
    }
  }

  // ------------------------------------------------------------------------ where votes come from

  /** The write with this number won vote b by a swap at node m. */
  ghost predicate WonBy(swaps: seq<Swap>, id: nat, b: nat, m: nat) {
    exists j :: 0 <= j < |swaps| && swaps[j].id == id && swaps[j].vote == Some(b) && swaps[j].m == m
  }

  ghost predicate VotesWon(n: nat, id: nat, key: nat, votes: seq<Vote>, swaps: seq<Swap>)
    requires n > 0
  {
    forall b :: 0 <= b < |votes| && votes[b].success ==> WonBy(swaps, id, b, Replica(key, b + 1, n))
  }

  ghost predicate LocalWon(cfg: Config, n: nat, l: Local, swaps: seq<Swap>)
    requires n > 0
  {
    !l.Idle? && l.task.Writes() && l.task.stage != AtPrime ==>
      VotesWon(n, l.task.id, TaskKey(cfg, l.task), l.task.votes, swaps)
  }

  ghost predicate ElectionOk(cfg: Config, n: nat, x: Election, swaps: seq<Swap>)
    requires n > 0
  {
    && |x.votes| == BackupCount(cfg, n) && x.rule == Rule(x.votes, x.tie)
    && VotesWon(n, x.id, x.key, x.votes, swaps)
  }

  lemma WonMore(n: nat, id: nat, key: nat, votes: seq<Vote>, swaps: seq<Swap>, more: seq<Swap>)
    requires n > 0 && VotesWon(n, id, key, votes, swaps)
    ensures VotesWon(n, id, key, votes, swaps + more)
  {
    forall b | 0 <= b < |votes| && votes[b].success ensures WonBy(swaps + more, id, b, Replica(key, b + 1, n)) {
      var j :| 0 <= j < |swaps| && swaps[j].id == id && swaps[j].vote == Some(b)
          && swaps[j].m == Replica(key, b + 1, n);
      assert (swaps + more)[j] == swaps[j];
    }
  }

  /** What going on with the vote leaves of the votes, and what it decides by them. */
  lemma VoteGoesOn(cfg: Config, n: nat, task: Task, idx: nat)
    requires n > 0 && task.Writes() && idx <= |task.votes|
    ensures var l := GoVote(cfg, n, task, idx);
            && !l.Idle? && l.task.votes == task.votes && l.task.proposal == task.proposal
            && (l.Writing? ==> l.task.rule == Rule(l.task.votes, l.task.proposal.body.tie))
  {
  }

  lemma {:induction false} RepairGoesOn(cfg: Config, n: nat, task: Task, idx: nat)
    requires n > 0 && task.Writes() && idx <= |task.votes|
    ensures var l := GoRepair(cfg, n, task, idx); !l.Idle? && !l.Writing? && l.task.votes == task.votes
    decreases |task.votes| - idx
  {
    if idx < |task.votes| && task.votes[idx].success {
      RepairGoesOn(cfg, n, task, idx + 1);
    }
  }

  /** The votes of a write after a step: all lost as yet, unchanged, or one decided; won only by a swap in this very
      step. */
  ghost predicate VotesStep(cfg: Config, n: nat, l: Local, l': Local, swaps: seq<Swap>)
    requires n > 0 && !l.Idle? && !l'.Idle?
  {
    || (forall b :: 0 <= b < |l'.task.votes| ==> !l'.task.votes[b].success)
    || (l.task.stage != AtPrime && l'.task.votes == l.task.votes)
    || (&& l.task.stage.AtVote? && |l'.task.votes| == |l.task.votes|
        && forall b :: 0 <= b < |l'.task.votes| ==>
             if b == l.task.stage.idx
             then l'.task.votes[b].success ==>
                    WonBy(swaps, l.task.id, b, Replica(TaskKey(cfg, l.task), b + 1, n))
             else l'.task.votes[b] == l.task.votes[b])
  }

  ghost predicate Decided(cfg: Config, n: nat, l: Local, l': Local)
    requires n > 0
  {
    Elects(l, l') ==>
      && l'.task.rule == Rule(l'.task.votes, l'.task.proposal.body.tie) && |l'.task.votes| == BackupCount(cfg, n)
  }

  lemma ProbeVotes(cfg: Config, n: nat, l: Local, r: Option<Probe>)
    requires n > 0 && l.Fetching? && l.task.Writes() && LocalOk(cfg, n, l)
    requires r.Some? ==> ProbeOk(r.value, TaskKey(cfg, l.task))
    ensures var l' := AfterProbe(cfg, n, l, r);
            && !l'.Idle?
            && (l'.task.stage != AtPrime ==> VotesStep(cfg, n, l, l', []) && Decided(cfg, n, l, l'))
  {
    AfterProbeShape(cfg, n, l, r);
    var task := l.task;
    if task.stage == AtPrime && r.Some? && CallOf(cfg, task, r.value).Some? {
      var proposed := task.(probe := r.value, proposal := Made(cfg.crypto, CallOf(cfg, task, r.value).value),
                            votes := NoVotes(BackupCount(cfg, n)));
      VoteGoesOn(cfg, n, proposed, 0);
    } else if task.stage.AtRepair? && r.None? {
      RepairGoesOn(cfg, n, task, task.stage.idx + 1);
    }
  }

  /** A vote is won by the very swap that decides it. */
  lemma WinningSwap(cfg: Config, nodes: seq<Node>, l: Local, e: Effect)
    requires |nodes| > 0 && l.Swapping? && l.task.Writes() && LocalOk(cfg, |nodes|, l) && l.task.stage.AtVote?
    requires e == SwappedGuard(l.m, l.kind, l.i, l.compare, l.slot.body.visible)
             && GuardIs(nodes, l.m, l.kind, l.i, l.compare)
    ensures var idx := l.task.stage.idx;
            WonBy(SwapBy(nodes, l, e), l.task.id, idx, Replica(TaskKey(cfg, l.task), idx + 1, |nodes|))
  {
    assert SwapBy(nodes, l, e)[0].m == Replica(TaskKey(cfg, l.task), l.task.stage.idx + 1, |nodes|);
  }

  lemma VoteDecided(cfg: Config, nodes: seq<Node>, l: Local, won: bool, e: Effect)
    requires |nodes| > 0 && (l.Writing? || l.Swapping?) && l.task.Writes() && LocalOk(cfg, |nodes|, l)
    requires l.task.stage.AtVote?
    requires won ==> l.Swapping? && e == SwappedGuard(l.m, l.kind, l.i, l.compare, l.slot.body.visible)
                     && GuardIs(nodes, l.m, l.kind, l.i, l.compare)
    ensures var l' := AfterCommit(cfg, |nodes|, l, won);
            !l'.Idle? && VotesStep(cfg, |nodes|, l, l', SwapBy(nodes, l, e)) && Decided(cfg, |nodes|, l, l')
  {
    var task := l.task;
    var idx := task.stage.idx;
    var voted := task.(votes := task.votes[idx := if won then Vote(true, 0) else Vote(false, l.tie)]);
    VoteGoesOn(cfg, |nodes|, voted, idx + 1);
    if won {
      WinningSwap(cfg, nodes, l, e);
    }
  }

  lemma CommitVotes(cfg: Config, nodes: seq<Node>, l: Local, won: bool, e: Effect)
    requires |nodes| > 0 && (l.Writing? || l.Swapping?) && l.task.Writes() && LocalOk(cfg, |nodes|, l)
    requires won ==> l.Swapping? && e == SwappedGuard(l.m, l.kind, l.i, l.compare, l.slot.body.visible)
                     && GuardIs(nodes, l.m, l.kind, l.i, l.compare)
    ensures var l' := AfterCommit(cfg, |nodes|, l, won);
            !l'.Idle? && VotesStep(cfg, |nodes|, l, l', SwapBy(nodes, l, e)) && Decided(cfg, |nodes|, l, l')
  {
    var task := l.task;
    if task.stage.AtVote? {
      VoteDecided(cfg, nodes, l, won, e);
    } else if task.stage == AtCommit && won {
      RepairGoesOn(cfg, |nodes|, task, 0);
    } else if task.stage.AtRepair? {
      RepairGoesOn(cfg, |nodes|, task, task.stage.idx + 1);
    }
  }

  lemma AdvanceVotes(cfg: Config, nodes: seq<Node>, l: Local, fault: Fault)
    requires |nodes| > 0 && TablesOk(nodes) && LocalOk(cfg, |nodes|, l) && !l.Idle? && l.task.Writes()
    ensures var move := Advance(cfg, nodes, l, fault);
            !move.local.Idle? && move.local.task.stage != AtPrime ==>
              && VotesStep(cfg, |nodes|, l, move.local, SwapBy(nodes, l, move.effect))
              && Decided(cfg, |nodes|, l, move.local)
  {
    if l.Fetching? {
      FetchShape(cfg, nodes, l, fault);
      var f := Fetch(cfg, nodes, l, fault);
      if f.Ends? {
        ProbeVotes(cfg, |nodes|, l, f.result);
      }
    } else if l.Writing? || l.Swapping? {
      var move := Advance(cfg, nodes, l, fault);
      CommitVotes(cfg, nodes, l, false, move.effect);
      if l.Swapping? && fault == Delivered && GuardIs(nodes, l.m, l.kind, l.i, l.compare) {
        CommitVotes(cfg, nodes, l, true, move.effect);
      }
    }
  }

  // ------------------------------------------------------------------------------ all runs

  ghost predicate RecordOk(cfg: Config, s: State, r: Record)
    requires |s.nodes| > 0
  {
    && GuardsLast(s.nodes, r.swaps) && Linked(r.swaps)
    && (forall c :: 0 <= c < |s.clients| ==> LocalWon(cfg, |s.nodes|, s.clients[c], r.swaps))
    && (forall x :: x in r.elections ==> ElectionOk(cfg, |s.nodes|, x, r.swaps))
  }

  lemma StepWins(cfg: Config, n: nat, l: Local, l': Local, swaps: seq<Swap>, more: seq<Swap>)
    requires n > 0 && !l.Idle? && !l'.Idle? && l.task.Writes() && LocalWon(cfg, n, l, swaps)
    requires l'.task.id == l.task.id && l'.task.op == l.task.op && l'.task.stage != AtPrime
    requires VotesStep(cfg, n, l, l', more)
    ensures LocalWon(cfg, n, l', swaps + more)
  {
    var k := TaskKey(cfg, l.task);
    if l.task.stage != AtPrime {
      WonMore(n, l.task.id, k, l.task.votes, swaps, more);
    }
    forall b | 0 <= b < |l'.task.votes| && l'.task.votes[b].success
      ensures WonBy(swaps + more, l.task.id, b, Replica(k, b + 1, n))
    {
      if WonBy(more, l.task.id, b, Replica(k, b + 1, n)) {
        var j :| 0 <= j < |more| && more[j].id == l.task.id && more[j].vote == Some(b)
            && more[j].m == Replica(k, b + 1, n);
        assert (swaps + more)[|swaps| + j] == more[j];
      }
    }
  }

  lemma OwnWins(cfg: Config, nodes: seq<Node>, l: Local, fault: Fault, swaps: seq<Swap>)
    requires |nodes| > 0 && TablesOk(nodes) && LocalOk(cfg, |nodes|, l) && LocalWon(cfg, |nodes|, l, swaps)
    ensures var move := Advance(cfg, nodes, l, fault);
            var after := swaps + SwapBy(nodes, l, move.effect);
            && LocalWon(cfg, |nodes|, move.local, after)
            && (forall x :: x in ElectedBy(cfg, l, move.local) ==> ElectionOk(cfg, |nodes|, x, after))
  {
    var move := Advance(cfg, nodes, l, fault);
    AdvanceKeepsId(cfg, nodes, l, fault);
    if !l.Idle? && l.task.Writes() && !move.local.Idle? && move.local.task.stage != AtPrime {
      AdvanceVotes(cfg, nodes, l, fault);
      StepWins(cfg, |nodes|, l, move.local, swaps, SwapBy(nodes, l, move.effect));
    }
  }

  lemma RecordNext(cfg: Config, s: State, c: nat, fault: Fault, r: Record)
    requires |s.nodes| > 0 && ChainsOk(cfg, s.nodes, s.clients) && RecordOk(cfg, s, r) && c < |s.clients|
    ensures RecordOk(cfg, Next(cfg, s, Act(c, fault)), RecordAct(cfg, s.nodes, s.clients[c], fault, r))
  {
    var l := s.clients[c];
    var move := Advance(cfg, s.nodes, l, fault);
    var more := SwapBy(s.nodes, l, move.effect);
    AdvanceShape(cfg, s.nodes, l, fault);
    EffectLinks(cfg, s.nodes, l, move.effect, r.swaps);
    OwnWins(cfg, s.nodes, l, fault, r.swaps);
    forall d | 0 <= d < |s.clients| && d != c ensures LocalWon(cfg, |s.nodes|, s.clients[d], r.swaps + more) {
      var o := s.clients[d];
      if !o.Idle? && o.task.Writes() && o.task.stage != AtPrime {
        WonMore(|s.nodes|, o.task.id, TaskKey(cfg, o.task), o.task.votes, r.swaps, more);
      }
    }
    forall x | x in r.elections ensures ElectionOk(cfg, |s.nodes|, x, r.swaps + more) {
      WonMore(|s.nodes|, x.id, x.key, x.votes, r.swaps, more);
    }
  }

  lemma RecordStarts(cfg: Config, s: State)
    requires Initial(s)
    ensures RecordOk(cfg, s, Record([], {}))
  {
    forall m, i | 0 <= m < |s.nodes| && 0 <= i < |s.nodes[m].backup| ensures s.nodes[m].backup[i] == ZERO_SLOT {
      assert s.nodes[m].Part(Backup) == s.nodes[m].backup;
    }
  }

  /** In every reachable state the guards of BACKUP are what the recorded swaps left, each swap found what the one
      before had left, and every vote won, and every election, rests on recorded swaps. */
  lemma {:induction false} RecordAlways(cfg: Config, s: State, events: seq<Event>)
    requires Initial(s)
    ensures RecordOk(cfg, Execute(cfg, s, events), Recorded(cfg, s, events))
  {
    if events == [] {
      RecordStarts(cfg, s);
    } else {
      var n := |events| - 1;
      var before, r := Execute(cfg, s, events[..n]), Recorded(cfg, s, events[..n]);
      RecordAlways(cfg, s, events[..n]);
      ChainsAlways(cfg, s, events[..n]);
      match events[n]
      case Start(c, op) =>
      case Evict(m, i) => GuardsKept(before.nodes, Evicted(m, i), r.swaps);
      case Act(c, fault) =>
        if c < |before.clients| {
          RecordNext(cfg, before, c, fault, r);
        }
    }
  }

  // ------------------------------------------------------------------------------ theorems

  lemma CommonVote(v: seq<Vote>, w: seq<Vote>, tieV: nat, tieW: nat) returns (b: nat)
    requires |v| == |w| >= 1 && Rule(v, tieV) in {1, 2} && Rule(w, tieW) in {1, 2}
    ensures b < |v| && v[b].success && w[b].success
  {
    if forall b :: 0 <= b < |v| ==> !(v[b].success && w[b].success) {
      DisjointSuccesses(v, w);
      assert false;
    }
    b :| 0 <= b < |v| && v[b].success && w[b].success;
  }

  /** Swaps j and k are those by which x and y, in either order, won vote b. */
  ghost predicate BothWon(swaps: seq<Swap>, x: Election, y: Election, b: nat, j: nat, k: nat) {
    && j < k < |swaps| && swaps[j].vote == swaps[k].vote == Some(b) && swaps[j].m == swaps[k].m
    && ((swaps[j].id == x.id && swaps[k].id == y.id) || (swaps[j].id == y.id && swaps[k].id == x.id))
  }

  lemma CommonSwaps(n: nat, swaps: seq<Swap>, x: Election, y: Election, b: nat) returns (j: nat, k: nat)
    requires n > 0 && x.id != y.id && x.key == y.key && b < |x.votes| && b < |y.votes|
    requires VotesWon(n, x.id, x.key, x.votes, swaps) && VotesWon(n, y.id, y.key, y.votes, swaps)
    requires x.votes[b].success && y.votes[b].success
    ensures BothWon(swaps, x, y, b, j, k)
  {
    var m := Replica(x.key, b + 1, n);
    assert WonBy(swaps, x.id, b, m) && WonBy(swaps, y.id, b, m);
    var p: nat :| p < |swaps| && swaps[p].id == x.id && swaps[p].vote == Some(b) && swaps[p].m == m;
    var q: nat :| q < |swaps| && swaps[q].id == y.id && swaps[q].vote == Some(b) && swaps[q].m == m;
    j, k := if p < q then p else q, if p < q then q else p;
  }

  /** In every interleaving of any clients and evictors, repairs and faults included: two writes of one key that both
      get rule 1 or 2 have won a common backup, one after the other, and there either probed another slot or another
      guard, or the guard they probed came back in between. */
  lemma MajoritiesMeet(cfg: Config, s: State, events: seq<Event>, x: Election, y: Election)
    returns (b: nat, j: nat, k: nat)
    requires Initial(s) && BackupCount(cfg, |s.nodes|) >= 1
    requires var r := Recorded(cfg, s, events); x in r.elections && y in r.elections
    requires x.id != y.id && x.key == y.key && x.rule in {1, 2} && y.rule in {1, 2}
    ensures var swaps := Recorded(cfg, s, events).swaps;
            && BothWon(swaps, x, y, b, j, k)
            && (swaps[j].i == swaps[k].i && swaps[j].from == swaps[k].from ==> Returned(swaps, j, k, swaps[j].from))
  {
    RecordAlways(cfg, s, events);
    var swaps, n := Recorded(cfg, s, events).swaps, |s.nodes|;
    assert ElectionOk(cfg, n, x, swaps) && ElectionOk(cfg, n, y, swaps);
    b := CommonVote(x.votes, y.votes, x.tie, y.tie);
    j, k := CommonSwaps(n, swaps, x, y, b);
    if swaps[j].i == swaps[k].i && swaps[j].from == swaps[k].from {
      TwiceNeedsReturn(swaps, j, k);
    }
  }

  /** Where x and y both won a vote, they had probed the same slot with the same guard, and nobody brought that guard
      back in between. */
  ghost predicate SameProbes(swaps: seq<Swap>, x: Election, y: Election) {
    forall b: nat, j: nat, k: nat :: BothWon(swaps, x, y, b, j, k) ==>
      swaps[j].i == swaps[k].i && swaps[j].from == swaps[k].from && !Returned(swaps, j, k, swaps[j].from)
  }

  /** So of two writes of one key that probed the same backup slots, with guards that did not come back, one at most
      gets rule 1 or 2. */
  lemma OneMajority(cfg: Config, s: State, events: seq<Event>, x: Election, y: Election)
    requires Initial(s) && BackupCount(cfg, |s.nodes|) >= 1
    requires var r := Recorded(cfg, s, events);
             x in r.elections && y in r.elections && SameProbes(r.swaps, x, y)
    requires x.id != y.id && x.key == y.key
    ensures !(x.rule in {1, 2} && y.rule in {1, 2})
  {
    if x.rule in {1, 2} && y.rule in {1, 2} {
      var b, j, k := MajoritiesMeet(cfg, s, events, x, y);
    }
  }
}
