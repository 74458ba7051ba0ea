/** The machine and the sequential account agree: a client that is left alone while it reads or writes makes the
    calls, leaves the nodes and gives the answer that Cluster says, whatever becomes of its calls. */
module Solo {
  import opened Slots
  import opened Table
  import opened Codec
  import opened Votes
  import opened Cluster
  import opened FaultyRuns
  import opened Machine

  /** A client on its own, about to make transport call number clock. */
  datatype Point = Point(nodes: seq<Node>, local: Local, clock: nat)

  predicate Calls(p: Point) {
    match p.local
    case Idle => false
    case Returning(_, _) => false
    case Fetching(_, m, kind, d, _) => m < |p.nodes| && d < |p.nodes[m].Part(kind)|
    case Writing(_, _, _, _, _, _, _) => true
    case Swapping(_, _, _, _, _, _, _) => true
  }

  function Turn(cfg: Config, script: Script, p: Point): (q: Point)
    requires |p.nodes| > 0
    ensures |q.nodes| == |p.nodes|
  {
    var move := Advance(cfg, p.nodes, p.local, script(p.clock));
    Point(Apply(p.nodes, move.effect), move.local, if Calls(p) then p.clock + 1 else p.clock)
  }

  function TurnOf(cfg: Config, script: Script): Point -> Point {
    (p: Point) => if |p.nodes| > 0 then Turn(cfg, script, p) else p
  }

  function Iterate<T>(f: T -> T, x: T, n: nat): T {
    if n == 0 then x else f(Iterate(f, x, n - 1))
  }

  lemma {:induction false} IterateAdd<T>(f: T -> T, x: T, a: nat, b: nat)
    ensures Iterate(f, x, a + b) == Iterate(f, Iterate(f, x, a), b)
  {
    if b > 0 {
      IterateAdd(f, x, a, b - 1);
    }
  }

  /** Taking steps, the client gets from p to q. */
  ghost predicate Leads(cfg: Config, script: Script, p: Point, q: Point) {
    exists n: nat :: Iterate(TurnOf(cfg, script), p, n) == q
  }

  /** Taking steps, the client gets to return the result, with the nodes left like this and so many calls made. */
  ghost predicate Answers(cfg: Config, script: Script, p: Point, d: Done) {
    exists q :: Leads(cfg, script, p, q) && Ended(q, d)
  }

  predicate Ended(q: Point, d: Done) {
    q.nodes == d.nodes && q.clock == d.clock && q.local.Returning? && q.local.result == d.result
  }

  lemma LeadsOn(cfg: Config, script: Script, p: Point, q: Point, r: Point)
    requires Leads(cfg, script, p, q) && Leads(cfg, script, q, r)
    ensures Leads(cfg, script, p, r)
  {
    var a: nat :| Iterate(TurnOf(cfg, script), p, a) == q;
    var b: nat :| Iterate(TurnOf(cfg, script), q, b) == r;
    IterateAdd(TurnOf(cfg, script), p, a, b);
  }

  lemma LeadsTo(cfg: Config, script: Script, p: Point, q: Point, d: Done)
    requires Leads(cfg, script, p, q) && Answers(cfg, script, q, d)
    ensures Answers(cfg, script, p, d)
  {
    var r :| Leads(cfg, script, q, r) && Ended(r, d);
    LeadsOn(cfg, script, p, q, r);
  }

  lemma LeadsNext(cfg: Config, script: Script, p: Point)
    requires |p.nodes| > 0
    ensures Leads(cfg, script, p, Turn(cfg, script, p)) && Leads(cfg, script, p, p)
  {
    assert Iterate(TurnOf(cfg, script), p, 0) == p;
    assert Iterate(TurnOf(cfg, script), p, 1) == TurnOf(cfg, script)(p);
  }

  lemma AnswersNow(cfg: Config, script: Script, p: Point, d: Done)
    requires Ended(p, d)
    ensures Answers(cfg, script, p, d)
  {
    assert Iterate(TurnOf(cfg, script), p, 0) == p;
    assert Leads(cfg, script, p, p);
  }

  // ------------------------------------------------------------- probes and commits

  function Scan(task: Task, m: nat, kind: Kind): (l: Local)
    ensures l.Fetching? && l.task == task
  {
    Fetching(task, m, kind, 0, NO_PROBE)
  }

  /** One fetch of a scan. */
  lemma FetchTurn(cfg: Config, script: Script, nodes: seq<Node>, task: Task, m: nat, kind: Kind, d: nat, p: Probe,
                  clock: nat)
    requires m < |nodes| && d <= |nodes[m].Part(kind)|
    ensures var t, k := nodes[m].Part(kind), TaskKey(cfg, task);
            var ends := (r: Option<Probe>, now: nat) =>
                          Point(nodes, AfterProbe(cfg, |nodes|, Scan(task, m, kind), r), now);
            var q := Turn(cfg, script, Point(nodes, Fetching(task, m, kind, d, p), clock));
            if d == |t| then q == ends(if p.candValid then Some(p) else None, clock)
            else if script(clock) != Delivered then q == ends(None, clock + 1)
            else
              var i := Pos(Home(k, |t|), d, |t|);
              match Examine(p, i, t[i], k)
              case Halt(r) => q == ends(Some(r), clock + 1)
              case More(r) => q == Point(nodes, Fetching(task, m, kind, d + 1, r), clock + 1)
  {
  }

  predicate Continues(t: SlotArray, k: nat, d: nat, p: Probe, fault: Fault) {
    d < |t| && fault == Delivered && Examine(p, Pos(Home(k, |t|), d, |t|), t[Pos(Home(k, |t|), d, |t|)], k).More?
  }

  /** Where a scan that stands at slot d leads. */
  function Scanned(cfg: Config, script: Script, nodes: seq<Node>, task: Task, m: nat, kind: Kind, d: nat, p: Probe,
                   clock: nat): Point
    requires m < |nodes| && d <= |nodes[m].Part(kind)| && (p.candValid ==> p.candIndex < |nodes[m].Part(kind)|)
  {
    var r := ProbeFrom(nodes[m].Part(kind), TaskKey(cfg, task), d, p, script, clock);
    Point(nodes, AfterProbe(cfg, |nodes|, Scan(task, m, kind), r.result), r.clock)
  }

  lemma ScanEnds(cfg: Config, script: Script, nodes: seq<Node>, task: Task, m: nat, kind: Kind, d: nat, p: Probe,
                 clock: nat)
    requires m < |nodes| && d <= |nodes[m].Part(kind)| && (p.candValid ==> p.candIndex < |nodes[m].Part(kind)|)
    requires !Continues(nodes[m].Part(kind), TaskKey(cfg, task), d, p, script(clock))
    ensures Leads(cfg, script, Point(nodes, Fetching(task, m, kind, d, p), clock),
                  Scanned(cfg, script, nodes, task, m, kind, d, p, clock))
  {
    LeadsNext(cfg, script, Point(nodes, Fetching(task, m, kind, d, p), clock));
    FetchTurn(cfg, script, nodes, task, m, kind, d, p, clock);
  }

  lemma ScanGoesOn(cfg: Config, script: Script, nodes: seq<Node>, task: Task, m: nat, kind: Kind, d: nat, p: Probe,
                   clock: nat, goal: Point)
    requires m < |nodes| && Continues(nodes[m].Part(kind), TaskKey(cfg, task), d, p, script(clock))
    requires var t, k := nodes[m].Part(kind), TaskKey(cfg, task);
             var i := Pos(Home(k, |t|), d, |t|);
             Leads(cfg, script, Point(nodes, Fetching(task, m, kind, d + 1, Examine(p, i, t[i], k).probe), clock + 1),
                   goal)
    ensures Leads(cfg, script, Point(nodes, Fetching(task, m, kind, d, p), clock), goal)
  {
    var here := Point(nodes, Fetching(task, m, kind, d, p), clock);
    LeadsNext(cfg, script, here);
    FetchTurn(cfg, script, nodes, task, m, kind, d, p, clock);
    LeadsOn(cfg, script, here, Turn(cfg, script, here), goal);
  }

  lemma ScannedOn(cfg: Config, script: Script, nodes: seq<Node>, task: Task, m: nat, kind: Kind, d: nat, p: Probe,
                  clock: nat)
    requires m < |nodes| && (p.candValid ==> p.candIndex < |nodes[m].Part(kind)|)
    requires Continues(nodes[m].Part(kind), TaskKey(cfg, task), d, p, script(clock))
    ensures var t, k := nodes[m].Part(kind), TaskKey(cfg, task);
            var i := Pos(Home(k, |t|), d, |t|);
            Scanned(cfg, script, nodes, task, m, kind, d, p, clock)
              == Scanned(cfg, script, nodes, task, m, kind, d + 1, Examine(p, i, t[i], k).probe, clock + 1)
  {
  }

  lemma {:induction false} ScanLeads(cfg: Config, script: Script, nodes: seq<Node>, task: Task, m: nat, kind: Kind,
                                     d: nat, p: Probe, clock: nat, goal: Point)
    requires m < |nodes| && d <= |nodes[m].Part(kind)| && (p.candValid ==> p.candIndex < |nodes[m].Part(kind)|)
    requires goal == Scanned(cfg, script, nodes, task, m, kind, d, p, clock)
    ensures Leads(cfg, script, Point(nodes, Fetching(task, m, kind, d, p), clock), goal)
    decreases |nodes[m].Part(kind)| - d
  {
    var t, k := nodes[m].Part(kind), TaskKey(cfg, task);
    if Continues(t, k, d, p, script(clock)) {
      var i := Pos(Home(k, |t|), d, |t|);
      ScannedOn(cfg, script, nodes, task, m, kind, d, p, clock);
      ScanLeads(cfg, script, nodes, task, m, kind, d + 1, Examine(p, i, t[i], k).probe, clock + 1, goal);
      ScanGoesOn(cfg, script, nodes, task, m, kind, d, p, clock, goal);
    } else {
      ScanEnds(cfg, script, nodes, task, m, kind, d, p, clock);
    }
  }

  /** A scan ends as ProbeSlot says. */
  lemma ProbeLeads(cfg: Config, script: Script, nodes: seq<Node>, task: Task, m: nat, kind: Kind, clock: nat)
    requires m < |nodes|
    ensures var r := ProbeSlot(nodes[m].Part(kind), TaskKey(cfg, task), script, clock);
            Leads(cfg, script, Point(nodes, Scan(task, m, kind), clock),
                  Point(nodes, AfterProbe(cfg, |nodes|, Scan(task, m, kind), r.result), r.clock))
  {
    ScanLeads(cfg, script, nodes, task, m, kind, 0, NO_PROBE, clock,
              Scanned(cfg, script, nodes, task, m, kind, 0, NO_PROBE, clock));
  }

  /** A commit as far as what follows it is concerned. */
  function Storing(task: Task, m: nat, kind: Kind, tie: nat): (l: Local)
    ensures l.Writing? && l.task == task
  {
    Writing(task, m, kind, 0, 0, ZERO_SLOT, tie)
  }

  function WithTable(nodes: seq<Node>, l: Local, t: SlotArray): seq<Node>
    requires l.Writing? && l.m < |nodes|
  {
    Put(nodes, l.m, l.kind, t)
  }

  function Committing(cfg: Config, n: nat, l: Local, won: bool): Local
    requires n > 0 && l.Writing?
  {
    AfterCommit(cfg, n, Storing(l.task, l.m, l.kind, l.tie), won)
  }

  lemma WriteTurn(cfg: Config, script: Script, nodes: seq<Node>, l: Local, clock: nat)
    requires l.Writing? && l.m < |nodes| && l.i < |nodes[l.m].Part(l.kind)|
    ensures var q := Turn(cfg, script, Point(nodes, l, clock));
            var t1 := WriteBody(nodes[l.m].Part(l.kind), l.i, l.slot.body);
            match script(clock)
            case Dropped => q == Point(nodes, Committing(cfg, |nodes|, l, false), clock + 1)
            case ReplyLost => q == Point(WithTable(nodes, l, t1), Committing(cfg, |nodes|, l, false), clock + 1)
            case Delivered =>
              q == Point(WithTable(nodes, l, t1), Swapping(l.task, l.m, l.kind, l.i, l.compare, l.slot, l.tie),
                         clock + 1)
  {
  }

  lemma SwapTurn(cfg: Config, script: Script, nodes: seq<Node>, l: Local, t: SlotArray, clock: nat)
    requires l.Writing? && l.m < |nodes| && l.i < |t|
    ensures var q := Turn(cfg, script,
                          Point(WithTable(nodes, l, t), Swapping(l.task, l.m, l.kind, l.i, l.compare, l.slot, l.tie),
                                clock));
            var t2 := CasGuard(t, l.i, l.compare, l.slot.body.visible);
            match script(clock)
            case Dropped => q == Point(WithTable(nodes, l, t), Committing(cfg, |nodes|, l, false), clock + 1)
            case ReplyLost => q == Point(WithTable(nodes, l, t2), Committing(cfg, |nodes|, l, false), clock + 1)
            case Delivered => q == Point(WithTable(nodes, l, t2),
                                         Committing(cfg, |nodes|, l, t[l.i].guard == l.compare), clock + 1)
  {
    var t2 := CasGuard(t, l.i, l.compare, l.slot.body.visible);
    assert Put(WithTable(nodes, l, t), l.m, l.kind, t2) == WithTable(nodes, l, t2);
  }

  lemma CommitLeads(cfg: Config, script: Script, nodes: seq<Node>, l: Local, clock: nat)
    requires l.Writing? && l.m < |nodes| && l.i < |nodes[l.m].Part(l.kind)|
    ensures var c := CommitSlot(nodes[l.m].Part(l.kind), l.i, l.slot, l.compare, script, clock);
            Leads(cfg, script, Point(nodes, l, clock),
                  Point(WithTable(nodes, l, c.table), Committing(cfg, |nodes|, l, c.ok && c.observed == l.compare),
                        c.clock))
  {
    var here := Point(nodes, l, clock);
    var t := nodes[l.m].Part(l.kind);
    assert WithTable(nodes, l, t) == nodes;
    LeadsNext(cfg, script, here);
    WriteTurn(cfg, script, nodes, l, clock);
    if script(clock) == Delivered {
      var next := Turn(cfg, script, here);
      LeadsNext(cfg, script, next);
      SwapTurn(cfg, script, nodes, l, WriteBody(t, l.i, l.slot.body), clock + 1);
      LeadsOn(cfg, script, here, next, Turn(cfg, script, next));
    }
  }

  /** Where a scan in a storing stage leads. */
  function StoreEnd(cfg: Config, n: nat, task: Task, m: nat, kind: Kind, s: Stored): Local
    requires n > 0
  {
    if s.reached then AfterCommit(cfg, n, Storing(task, m, kind, s.tie), s.won)
    else AfterProbe(cfg, n, Scan(task, m, kind), None)
  }

  /** A scan in one of the storing stages ends as Store says. */
  lemma StoreLeads(cfg: Config, script: Script, nodes: seq<Node>, task: Task, m: nat, kind: Kind, p: Slot, clock: nat)
    requires m < |nodes| && (task.stage.AtVote? || task.stage.AtRepair? || task.stage.AtRefresh?)
    requires p == (if task.Writes() then task.proposal else task.probe.slot) && p.body.key == TaskKey(cfg, task)
    ensures var s := Store(nodes[m].Part(kind), p, script, clock);
            Leads(cfg, script, Point(nodes, Scan(task, m, kind), clock),
                  Point(Put(nodes, m, kind, s.table), StoreEnd(cfg, |nodes|, task, m, kind, s), s.clock))
  {
    var t := nodes[m].Part(kind);
    var here := Point(nodes, Scan(task, m, kind), clock);
    var probed := ProbeSlot(t, p.body.key, script, clock);
    var s := Store(t, p, script, clock);
    assert Put(nodes, m, kind, t) == nodes;
    ProbeLeads(cfg, script, nodes, task, m, kind, clock);
    if probed.result.Some? {
      var q := probed.result.value;
      var l := StoreTo(Scan(task, m, kind), q);
      CommitLeads(cfg, script, nodes, l, probed.clock);
      LeadsOn(cfg, script, here, Point(nodes, l, probed.clock),
              Point(Put(nodes, m, kind, s.table), AfterCommit(cfg, |nodes|, Storing(task, m, kind, s.tie), s.won),
                    s.clock));
    }
  }

  // ------------------------------------------------------------------- from back to front

  lemma RefreshAnswers(cfg: Config, script: Script, nodes: seq<Node>, task: Task, p: Slot, clock: nat)
    requires |nodes| > 0 && task.stage == AtRefresh
    requires p == (if task.Writes() then task.proposal else task.probe.slot) && p.body.key == TaskKey(cfg, task)
    ensures var o := Offered(nodes, Primary(p.body.key, |nodes|), Cache, p, script, clock);
            Answers(cfg, script, Point(nodes, Scan(task, Primary(p.body.key, |nodes|), Cache), clock),
                    Done(o.nodes, Outcome(cfg, task), o.clock))
  {
    var m := Primary(p.body.key, |nodes|);
    var s := Store(nodes[m].cache, p, script, clock);
    StoreLeads(cfg, script, nodes, task, m, Cache, p, clock);
    var there := Point(Put(nodes, m, Cache, s.table), Returning(task, Outcome(cfg, task)), s.clock);
    var d := Done(there.nodes, Outcome(cfg, task), s.clock);
    AnswersNow(cfg, script, there, d);
    LeadsTo(cfg, script, Point(nodes, Scan(task, m, Cache), clock), there, d);
  }

  /** With the last replica seen to, the cache is refreshed if it is on, and the rule is returned. */
  lemma RepairedAnswers(cfg: Config, script: Script, nodes: seq<Node>, task: Task, clock: nat)
    requires |nodes| > 0 && task.Writes() && task.proposal.body.key == TaskKey(cfg, task)
    ensures var f := RefreshCache(cfg, nodes, task.proposal, script, clock);
            Answers(cfg, script, Point(nodes, GoRepair(cfg, |nodes|, task, |task.votes|), clock),
                    Done(f.nodes, Ruled(task.rule), f.clock))
  {
    if cfg.cacheOn {
      RefreshAnswers(cfg, script, nodes, task.(stage := AtRefresh), task.proposal, clock);
    } else {
      AnswersNow(cfg, script, Point(nodes, Returning(task, Ruled(task.rule)), clock),
                 Done(nodes, Ruled(task.rule), clock));
    }
  }

  lemma AfterRepair(cfg: Config, n: nat, task: Task, idx: nat, m: nat, tie: nat, won: bool)
    requires n > 0 && task.Writes() && idx < |task.votes| && task.stage == AtRepair(idx)
    ensures AfterCommit(cfg, n, Storing(task, m, Backup, tie), won) == GoRepair(cfg, n, task, idx + 1)
    ensures AfterProbe(cfg, n, Scan(task, m, Backup), None) == GoRepair(cfg, n, task, idx + 1)
  {
  }

  lemma RepairEnd(cfg: Config, n: nat, task: Task, idx: nat, m: nat, s: Stored)
    requires n > 0 && task.Writes() && idx < |task.votes| && task.stage == AtRepair(idx)
    ensures StoreEnd(cfg, n, task, m, Backup, s) == GoRepair(cfg, n, task, idx + 1)
  {
    AfterRepair(cfg, n, task, idx, m, s.tie, s.won);
  }

  lemma StoreLeadsTo(cfg: Config, script: Script, nodes: seq<Node>, task: Task, m: nat, kind: Kind, p: Slot, clock: nat,
                     next: Local)
    requires m < |nodes| && (task.stage.AtVote? || task.stage.AtRepair? || task.stage.AtRefresh?)
    requires p == (if task.Writes() then task.proposal else task.probe.slot) && p.body.key == TaskKey(cfg, task)
    requires next == StoreEnd(cfg, |nodes|, task, m, kind, Store(nodes[m].Part(kind), p, script, clock))
    ensures var o := Offered(nodes, m, kind, p, script, clock);
            Leads(cfg, script, Point(nodes, Scan(task, m, kind), clock), Point(o.nodes, next, o.clock))
  {
    StoreLeads(cfg, script, nodes, task, m, kind, p, clock);
  }

  /** The repair of one replica: the writer goes on to the next, whatever comes of it. */
  lemma RepairLeads(cfg: Config, script: Script, nodes: seq<Node>, task: Task, idx: nat, clock: nat, next: Local)
    requires |nodes| > 0 && task.Writes() && idx < |task.votes| && task.proposal.body.key == TaskKey(cfg, task)
    requires task.stage == AtRepair(idx) && next == GoRepair(cfg, |nodes|, task, idx + 1)
    ensures var m := Replica(task.proposal.body.key, idx + 1, |nodes|);
            var o := Offered(nodes, m, Backup, task.proposal, script, clock);
            Leads(cfg, script, Point(nodes, Scan(task, m, Backup), clock), Point(o.nodes, next, o.clock))
  {
    var m := Replica(task.proposal.body.key, idx + 1, |nodes|);
    RepairEnd(cfg, |nodes|, task, idx, m, Store(nodes[m].Part(Backup), task.proposal, script, clock));
    StoreLeadsTo(cfg, script, nodes, task, m, Backup, task.proposal, clock, next);
  }

  /** From the repair of replica idx on. */
  lemma {:induction false} RepairAnswers(cfg: Config, script: Script, nodes: seq<Node>, task: Task, idx: nat,
                                         clock: nat)
    requires |nodes| > 0 && task.Writes() && idx <= |task.votes| && task.proposal.body.key == TaskKey(cfg, task)
    ensures var r := RepairPhase(nodes, task.proposal, idx, task.votes, script, clock);
            var f := RefreshCache(cfg, r.nodes, task.proposal, script, r.clock);
            Answers(cfg, script, Point(nodes, GoRepair(cfg, |nodes|, task, idx), clock),
                    Done(f.nodes, Ruled(task.rule), f.clock))
    decreases |task.votes| - idx
  {
    var p := task.proposal;
    if idx == |task.votes| {
      RepairedAnswers(cfg, script, nodes, task, clock);
    } else if task.votes[idx].success {
      RepairAnswers(cfg, script, nodes, task, idx + 1, clock);
    } else {
      var m := Replica(p.body.key, idx + 1, |nodes|);
      var now := task.(stage := AtRepair(idx));
      var o := Offered(nodes, m, Backup, p, script, clock);
      var r := RepairPhase(o.nodes, p, idx + 1, task.votes, script, o.clock);
      var f := RefreshCache(cfg, r.nodes, p, script, r.clock);
      RepairLeads(cfg, script, nodes, now, idx, clock, GoRepair(cfg, |nodes|, now, idx + 1));
      RepairAnswers(cfg, script, o.nodes, now, idx + 1, o.clock);
      LeadsTo(cfg, script, Point(nodes, Scan(now, m, Backup), clock),
              Point(o.nodes, GoRepair(cfg, |nodes|, now, idx + 1), o.clock), Done(f.nodes, Ruled(task.rule), f.clock));
    }
  }

  /** From the commit to PRIME on. */
  lemma CommitAnswers(cfg: Config, script: Script, b: Backups, task: Task)
    requires |b.nodes| > 0 && task.Writes() && task.stage == AtCommit && task.votes == b.votes
    requires task.proposal.body.key == TaskKey(cfg, task)
    requires task.probe.candIndex < |b.nodes[Primary(TaskKey(cfg, task), |b.nodes|)].prime|
    ensures var prim := Primary(TaskKey(cfg, task), |b.nodes|);
            var r := CommitPhase(cfg, b, prim, task.probe, task.proposal, task.rule, script);
            Answers(cfg, script, Point(b.nodes, Writing(task, prim, Prime, task.probe.candIndex, task.probe.cand.guard,
                                                        task.proposal, 0), b.clock),
                    Done(r.nodes, Ruled(r.rule), r.clock))
  {
    var prim := Primary(TaskKey(cfg, task), |b.nodes|);
    var q := task.probe;
    var l := Writing(task, prim, Prime, q.candIndex, q.cand.guard, task.proposal, 0);
    var r := CommitPhase(cfg, b, prim, q, task.proposal, task.rule, script);
    var c := CommitSlot(b.nodes[prim].prime, q.candIndex, task.proposal, q.cand.guard, script, b.clock);
    var committed := Put(b.nodes, prim, Prime, c.table);
    var won := c.ok && c.observed == q.cand.guard;
    var there := Point(committed, AfterCommit(cfg, |b.nodes|, Storing(task, prim, Prime, 0), won), c.clock);
    var d := Done(r.nodes, Ruled(r.rule), r.clock);
    CommitLeads(cfg, script, b.nodes, l, b.clock);
    if won {
      RepairAnswers(cfg, script, committed, task, 0, c.clock);
    } else {
      AnswersNow(cfg, script, there, d);
    }
    LeadsTo(cfg, script, Point(b.nodes, l, b.clock), there, d);
  }

  lemma AfterVote(cfg: Config, n: nat, task: Task, idx: nat, m: nat, s: Stored)
    requires n > 0 && task.Writes() && idx < |task.votes| && task.stage == AtVote(idx)
    ensures AfterCommit(cfg, n, Storing(task, m, Backup, s.tie), s.won)
            == GoVote(cfg, n, task.(votes := task.votes[idx := VoteOf(s)]), idx + 1)
    ensures AfterProbe(cfg, n, Scan(task, m, Backup), None) == Returning(task, Ruled(-1))
  {
  }

  /** The vote of one replica: the writer goes on to the next, or gives up. */
  lemma VoteLeads(cfg: Config, script: Script, nodes: seq<Node>, task: Task, idx: nat, clock: nat)
    requires |nodes| > 0 && task.Writes() && idx < |task.votes| && task.proposal.body.key == TaskKey(cfg, task)
    requires task.stage == AtVote(idx)
    ensures var m := Replica(task.proposal.body.key, idx + 1, |nodes|);
            var s := Store(nodes[m].backup, task.proposal, script, clock);
            Leads(cfg, script, Point(nodes, Scan(task, m, Backup), clock),
                  if s.reached
                  then Point(Put(nodes, m, Backup, s.table),
                             GoVote(cfg, |nodes|, task.(votes := task.votes[idx := VoteOf(s)]), idx + 1), s.clock)
                  else Point(nodes, Returning(task, Ruled(-1)), s.clock))
  {
    var m := Replica(task.proposal.body.key, idx + 1, |nodes|);
    assert Put(nodes, m, Backup, nodes[m].backup) == nodes;
    AfterVote(cfg, |nodes|, task, idx, m, Store(nodes[m].backup, task.proposal, script, clock));
    StoreLeads(cfg, script, nodes, task, m, Backup, task.proposal, clock);
  }

  /** From the decision on. */
  lemma DecisionAnswers(cfg: Config, script: Script, b: Backups, task: Task)
    requires |b.nodes| > 0 && task.Writes() && task.votes == b.votes && !b.aborted
    requires task.proposal.body.key == TaskKey(cfg, task)
    requires task.probe.candIndex < |b.nodes[Primary(TaskKey(cfg, task), |b.nodes|)].prime|
    ensures var r := Decide(cfg, b, Primary(TaskKey(cfg, task), |b.nodes|), task.probe, task.proposal, script);
            Answers(cfg, script, Point(b.nodes, GoVote(cfg, |b.nodes|, task, |task.votes|), b.clock),
                    Done(r.nodes, Ruled(r.rule), r.clock))
  {
    var rule := Rule(task.votes, task.proposal.body.tie);
    if rule == 0 {
      AnswersNow(cfg, script, Point(b.nodes, Returning(task, Ruled(-1)), b.clock), Done(b.nodes, Ruled(-1), b.clock));
    } else {
      CommitAnswers(cfg, script, b, task.(stage := AtCommit, rule := rule));
    }
  }

  /** From the vote of replica idx on. */
  lemma {:induction false} VoteAnswers(cfg: Config, script: Script, nodes: seq<Node>, task: Task, idx: nat, clock: nat)
    requires |nodes| > 0 && task.Writes() && idx <= |task.votes| && task.proposal.body.key == TaskKey(cfg, task)
    requires task.probe.candIndex < |nodes[Primary(TaskKey(cfg, task), |nodes|)].prime|
    ensures var b := BackupPhase(nodes, task.proposal, idx, task.votes, script, clock);
            var r := Decide(cfg, b, Primary(TaskKey(cfg, task), |nodes|), task.probe, task.proposal, script);
            Answers(cfg, script, Point(nodes, GoVote(cfg, |nodes|, task, idx), clock),
                    Done(r.nodes, Ruled(r.rule), r.clock))
    decreases |task.votes| - idx
  {
    var p := task.proposal;
    var b := BackupPhase(nodes, p, idx, task.votes, script, clock);
    if idx == |task.votes| {
      DecisionAnswers(cfg, script, b, task);
    } else {
      var r := Decide(cfg, b, Primary(TaskKey(cfg, task), |nodes|), task.probe, p, script);
      var d := Done(r.nodes, Ruled(r.rule), r.clock);
      var m := Replica(p.body.key, idx + 1, |nodes|);
      var now := task.(stage := AtVote(idx));
      var here := Point(nodes, Scan(now, m, Backup), clock);
      var s := Store(nodes[m].backup, p, script, clock);
      VoteLeads(cfg, script, nodes, now, idx, clock);
      if s.reached {
        var next := Put(nodes, m, Backup, s.table);
        var voted := now.(votes := task.votes[idx := VoteOf(s)]);
        VoteAnswers(cfg, script, next, voted, idx + 1, s.clock);
        LeadsTo(cfg, script, here, Point(next, GoVote(cfg, |nodes|, voted, idx + 1), s.clock), d);
      } else {
        var there := Point(nodes, Returning(now, Ruled(-1)), s.clock);
        AnswersNow(cfg, script, there, d);
        LeadsTo(cfg, script, here, there, d);
      }
    }
  }

  /** From the answer to the probe of PRIME on. */
  lemma ProposedAnswers(cfg: Config, script: Script, nodes: seq<Node>, task: Task, q: Probe, clock: nat)
    requires |nodes| > 0 && task.Writes() && CallOf(cfg, task, q).Some?
    requires q.candIndex < |nodes[Primary(TaskKey(cfg, task), |nodes|)].prime|
    ensures var r := Propose(cfg, nodes, Primary(TaskKey(cfg, task), |nodes|), q,
                             Made(cfg.crypto, CallOf(cfg, task, q).value), script, clock);
            Answers(cfg, script, Point(nodes, Proposed(cfg, |nodes|, task, q), clock),
                    Done(r.nodes, Ruled(r.rule), r.clock))
  {
    var p := Made(cfg.crypto, CallOf(cfg, task, q).value);
    VoteAnswers(cfg, script, nodes, task.(probe := q, proposal := p, votes := NoVotes(BackupCount(cfg, |nodes|))), 0,
                clock);
  }

  lemma WriteProbes(cfg: Config, script: Script, nodes: seq<Node>, task: Task, clock: nat)
    requires |nodes| > 0 && task.Writes() && task.stage == AtPrime
    ensures var prim := Primary(TaskKey(cfg, task), |nodes|);
            var probed := ProbeSlot(nodes[prim].prime, TaskKey(cfg, task), script, clock);
            Leads(cfg, script, Point(nodes, Scan(task, prim, Prime), clock),
                  Point(nodes, if probed.result.Some? then Proposed(cfg, |nodes|, task, probed.result.value)
                               else Returning(task, Ruled(-1)), probed.clock))
  {
    ProbeLeads(cfg, script, nodes, task, Primary(TaskKey(cfg, task), |nodes|), Prime, clock);
  }

  /** What follows the probe of PRIME answers as the whole write does. */
  lemma WriteDecides(cfg: Config, script: Script, nodes: seq<Node>, task: Task, clock: nat)
    requires |nodes| > 0 && task.Writes() && task.stage == AtPrime
    ensures var k := TaskKey(cfg, task);
            var probed := ProbeSlot(nodes[Primary(k, |nodes|)].prime, k, script, clock);
            var r := WriteValue(cfg, nodes, task.op.w, script, clock);
            Answers(cfg, script,
                    Point(nodes, if probed.result.Some? then Proposed(cfg, |nodes|, task, probed.result.value)
                                 else Returning(task, Ruled(-1)), probed.clock),
                    Done(r.nodes, Ruled(r.rule), r.clock))
  {
    var k := TaskKey(cfg, task);
    var probed := ProbeSlot(nodes[Primary(k, |nodes|)].prime, k, script, clock);
    if probed.result.Some? && CallOf(cfg, task, probed.result.value).Some? {
      var q := probed.result.value;
      WriteProposes(cfg, nodes, task.op.w, script, clock, q, Made(cfg.crypto, CallOf(cfg, task, q).value));
      ProposedAnswers(cfg, script, nodes, task, q, probed.clock);
    } else {
      AnswersNow(cfg, script, Point(nodes, Returning(task, Ruled(-1)), probed.clock),
                 Done(nodes, Ruled(-1), probed.clock));
    }
  }

  lemma WriteAnswers(cfg: Config, script: Script, nodes: seq<Node>, w: Write, id: nat, clock: nat)
    requires |nodes| > 0
    ensures Answers(cfg, script, Point(nodes, Started(cfg, |nodes|, DoWrite(w), id), clock),
                    Step(cfg, nodes, DoWrite(w), script, clock))
  {
    var task := NewTask(DoWrite(w), id);
    WriteProbes(cfg, script, nodes, task, clock);
    WriteDecides(cfg, script, nodes, task, clock);
    var probed := ProbeSlot(nodes[Primary(TaskKey(cfg, task), |nodes|)].prime, TaskKey(cfg, task), script, clock);
    LeadsTo(cfg, script, Point(nodes, Started(cfg, |nodes|, DoWrite(w), id), clock),
            Point(nodes, if probed.result.Some? then Proposed(cfg, |nodes|, task, probed.result.value)
                         else Returning(task, Ruled(-1)), probed.clock),
            Step(cfg, nodes, DoWrite(w), script, clock));
  }

  // ------------------------------------------------------------------------- reading

  lemma ReadPrimeAnswers(cfg: Config, script: Script, nodes: seq<Node>, task: Task, clock: nat)
    requires |nodes| > 0 && !task.Writes() && task.stage == AtCache
    ensures var r := ReadPrime(cfg, nodes, TaskKey(cfg, task), task.probe, script, clock);
            Answers(cfg, script, Point(nodes, GoReadPrime(cfg, |nodes|, task), clock),
                    Done(r.nodes, Replied(r.reply), r.clock))
  {
    var k := TaskKey(cfg, task);
    var here := Point(nodes, GoReadPrime(cfg, |nodes|, task), clock);
    if here.local.Returning? {
      var r := ReadPrime(cfg, nodes, k, task.probe, script, clock);
      AnswersNow(cfg, script, here, Done(r.nodes, Replied(r.reply), r.clock));
    } else {
      RefreshAnswers(cfg, script, nodes, task.(stage := AtRefresh), task.probe.slot, clock);
    }
  }

  lemma ReadCacheAnswers(cfg: Config, script: Script, nodes: seq<Node>, task: Task, clock: nat)
    requires |nodes| > 0 && !task.Writes() && task.stage == AtCache
    ensures var k := TaskKey(cfg, task);
            var cached := ProbeSlot(nodes[Primary(k, |nodes|)].cache, k, script, clock);
            var hit := cached.result.Some? && CacheConsistent(task.probe, cached.result.value, k)
                       && DecodeSlot(cfg.crypto, cached.result.value.slot).Some?;
            var r := if hit then Answer(nodes, Found(DecodeSlot(cfg.crypto, cached.result.value.slot).value),
                                        cached.clock)
                     else ReadPrime(cfg, nodes, k, task.probe, script, cached.clock);
            Answers(cfg, script, Point(nodes, Scan(task, Primary(k, |nodes|), Cache), clock),
                    Done(r.nodes, Replied(r.reply), r.clock))
  {
    var k := TaskKey(cfg, task);
    var m := Primary(k, |nodes|);
    var cached := ProbeSlot(nodes[m].cache, k, script, clock);
    var here := Point(nodes, Scan(task, m, Cache), clock);
    ProbeLeads(cfg, script, nodes, task, m, Cache, clock);
    var there := Point(nodes, AfterProbe(cfg, |nodes|, here.local, cached.result), cached.clock);
    if cached.result.Some? && CacheConsistent(task.probe, cached.result.value, k)
       && DecodeSlot(cfg.crypto, cached.result.value.slot).Some? {
      var d := Done(nodes, Replied(Found(DecodeSlot(cfg.crypto, cached.result.value.slot).value)), cached.clock);
      AnswersNow(cfg, script, there, d);
      LeadsTo(cfg, script, here, there, d);
    } else {
      var r := ReadPrime(cfg, nodes, k, task.probe, script, cached.clock);
      ReadPrimeAnswers(cfg, script, nodes, task, cached.clock);
      LeadsTo(cfg, script, here, there, Done(r.nodes, Replied(r.reply), r.clock));
    }
  }

  lemma ReadAnswers(cfg: Config, script: Script, nodes: seq<Node>, key: string, id: nat, clock: nat)
    requires |nodes| > 0
    ensures Answers(cfg, script, Point(nodes, Started(cfg, |nodes|, DoRead(key), id), clock),
                    Step(cfg, nodes, DoRead(key), script, clock))
  {
    var here := Point(nodes, Started(cfg, |nodes|, DoRead(key), id), clock);
    var task := here.local.task;
    var k := TaskKey(cfg, task);
    var prim := Primary(k, |nodes|);
    var probed := ProbeSlot(nodes[prim].prime, k, script, clock);
    var d := Step(cfg, nodes, DoRead(key), script, clock);
    ProbeLeads(cfg, script, nodes, task, prim, Prime, clock);
    var there := Point(nodes, AfterProbe(cfg, |nodes|, here.local, probed.result), probed.clock);
    if probed.result.None? {
      AnswersNow(cfg, script, there, d);
    } else {
      var seen := task.(probe := probed.result.value, stage := AtCache);
      if cfg.cacheOn {
        ReadCacheAnswers(cfg, script, nodes, seen, probed.clock);
      } else {
        ReadPrimeAnswers(cfg, script, nodes, seen, probed.clock);
      }
    }
    LeadsTo(cfg, script, here, there, d);
  }

  // ------------------------------------------------------------------- in the machine

  /** All steps are those of client c. */
  predicate OnlyOf(events: seq<Event>, c: nat) {
    forall j :: 0 <= j < |events| ==> !events[j].Evict? && events[j].c == c
  }

  lemma ActIsTurn(cfg: Config, s: State, c: nat, script: Script, p: Point)
    requires |s.nodes| > 0 && c < |s.clients| && p.nodes == s.nodes && p.local == s.clients[c]
    ensures var r, q := Next(cfg, s, Act(c, script(p.clock))), TurnOf(cfg, script)(p);
            r.nodes == q.nodes && r.clients == s.clients[c := q.local]
  {
  }

  lemma ExecuteNext(cfg: Config, s: State, events: seq<Event>, event: Event)
    requires |s.nodes| > 0
    ensures Execute(cfg, s, events + [event]) == Next(cfg, Execute(cfg, s, events), event)
  {
    assert (events + [event])[..|events|] == events;
  }

  /** The steps of one client, as events. */
  lemma {:induction false} TurnsExecute(cfg: Config, s: State, c: nat, script: Script, here: Point,
                                        n: nat) returns (events: seq<Event>)
    requires |s.nodes| > 0 && c < |s.clients| && here.nodes == s.nodes && here.local == s.clients[c]
    ensures OnlyOf(events, c)
    ensures var q := Iterate(TurnOf(cfg, script), here, n);
            var r := Execute(cfg, s, events);
            r.nodes == q.nodes && r.clients == s.clients[c := q.local]
  {
    if n == 0 {
      events := [];
    } else {
      var before := TurnsExecute(cfg, s, c, script, here, n - 1);
      var p := Iterate(TurnOf(cfg, script), here, n - 1);
      var after := Execute(cfg, s, before);
      events := before + [Act(c, script(p.clock))];
      ExecuteNext(cfg, s, before, Act(c, script(p.clock)));
      ActIsTurn(cfg, after, c, script, p);
      assert after.clients[c := TurnOf(cfg, script)(p).local] == s.clients[c := TurnOf(cfg, script)(p).local];
    }
  }

  lemma {:induction false} ExecuteAfter(cfg: Config, s: State, first: seq<Event>, later: seq<Event>)
    requires |s.nodes| > 0
    ensures Execute(cfg, s, first + later) == Execute(cfg, Execute(cfg, s, first), later)
  {
    if later == [] {
      assert first + later == first;
    } else {
      var n := |later| - 1;
      ExecuteAfter(cfg, s, first, later[..n]);
      assert (first + later)[..|first + later| - 1] == first + later[..n];
    }
  }

  lemma AnswerExecutes(cfg: Config, s: State, c: nat, script: Script, here: Point, d: Done) returns (events: seq<Event>)
    requires |s.nodes| > 0 && c < |s.clients| && here.nodes == s.nodes && here.local == s.clients[c]
    requires Answers(cfg, script, here, d)
    ensures OnlyOf(events, c)
    ensures var r := Execute(cfg, s, events);
            && r.nodes == d.nodes && r.clients[c].Returning? && r.clients[c].result == d.result
            && (forall e :: 0 <= e < |s.clients| && e != c ==> r.clients[e] == s.clients[e])
  {
    var q :| Leads(cfg, script, here, q) && Ended(q, d);
    var n: nat :| Iterate(TurnOf(cfg, script), here, n) == q;
    events := TurnsExecute(cfg, s, c, script, here, n);
  }

  lemma StepAnswers(cfg: Config, script: Script, nodes: seq<Node>, op: Op, id: nat, clock: nat)
    requires |nodes| > 0
    ensures Answers(cfg, script, Point(nodes, Started(cfg, |nodes|, op, id), clock),
                    Step(cfg, nodes, op, script, clock))
  {
    match op
    case DoWrite(w) => WriteAnswers(cfg, script, nodes, w, id, clock);
    case DoRead(key) => ReadAnswers(cfg, script, nodes, key, id, clock);
  }

  /** From any state, a client that is idle can start any operation and, if nobody else takes a step, comes to return
      exactly the result, over exactly the nodes, of the sequential account under the same faults. */
  lemma SoloIsSequential(cfg: Config, s: State, c: nat, op: Op, script: Script, clock: nat) returns (events: seq<Event>)
    requires |s.nodes| > 0 && c < |s.clients| && s.clients[c].Idle?
    ensures OnlyOf(events, c) && |events| > 0 && events[0] == Start(c, op)
    ensures var r := Execute(cfg, s, events);
            var d := Step(cfg, s.nodes, op, script, clock);
            && r.nodes == d.nodes
            && r.clients[c].Returning? && r.clients[c].result == d.result
            && (forall e :: 0 <= e < |s.clients| && e != c ==> r.clients[e] == s.clients[e])
  {
    var begun := Next(cfg, s, Start(c, op));
    var here := Point(s.nodes, Started(cfg, |s.nodes|, op, s.started), clock);
    StepAnswers(cfg, script, s.nodes, op, s.started, clock);
    var rest := AnswerExecutes(cfg, begun, c, script, here, Step(cfg, s.nodes, op, script, clock));
    events := [Start(c, op)] + rest;
    ExecuteNext(cfg, s, [], Start(c, op));
    assert [] + [Start(c, op)] == [Start(c, op)];
    ExecuteAfter(cfg, s, [Start(c, op)], rest);
  }
}
