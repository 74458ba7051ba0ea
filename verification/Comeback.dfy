/** Why the guards of BACKUP must not come back: a writer that has slept since an earlier epoch can set a guard back
    between two others that had probed it, and then both of these win. */
module Comeback {
  import opened Slots
  import opened Table
  import opened Codec
  import opened Votes
  import opened Cluster
  import opened FaultyRuns
  import opened Machine
  import opened Majorities

  // -------------------------------------------------------------------- views of a state

  /** As much of a state, and of what is recorded, as later steps depend on. */
  datatype View = View(nodes: seq<Node>, clients: seq<Local>, started: nat, record: Record)

  function ViewOf(cfg: Config, s: State, events: seq<Event>): View
    requires |s.nodes| > 0
  {
    var r := Execute(cfg, s, events);
    View(r.nodes, r.clients, r.started, Recorded(cfg, s, events))
  }

  function ViewNext(cfg: Config, v: View, event: Event): (r: View)
    requires |v.nodes| > 0
    ensures |r.nodes| == |v.nodes|
  {
    match event
    case Start(c, op) =>
      if c < |v.clients| && v.clients[c].Idle?
      then v.(clients := v.clients[c := Started(cfg, |v.nodes|, op, v.started)], started := v.started + 1) else v
    case Evict(m, i) => v.(nodes := Apply(v.nodes, Evicted(m, i)))
    case Act(c, fault) =>
      if c < |v.clients| then
        var move := Advance(cfg, v.nodes, v.clients[c], fault);
        View(Apply(v.nodes, move.effect), v.clients[c := move.local], v.started,
             RecordAct(cfg, v.nodes, v.clients[c], fault, v.record))
      else v
  }

  function Go(cfg: Config, v: View, events: seq<Event>): (r: View)
    requires |v.nodes| > 0
    ensures |r.nodes| == |v.nodes|
  {
    if events == [] then v else ViewNext(cfg, Go(cfg, v, events[..|events| - 1]), events[|events| - 1])
  }

  lemma {:induction false} GoViews(cfg: Config, s: State, events: seq<Event>)
    requires |s.nodes| > 0
    ensures ViewOf(cfg, s, events) == Go(cfg, ViewOf(cfg, s, []), events)
  {
    if events != [] {
      GoViews(cfg, s, events[..|events| - 1]);
    }
  }

  lemma GoOne(cfg: Config, v: View, events: seq<Event>, event: Event)
    requires |v.nodes| > 0
    ensures Go(cfg, v, events + [event]) == ViewNext(cfg, Go(cfg, v, events), event)
  {
    assert (events + [event])[..|events|] == events;
  }

  ghost predicate Reaches(cfg: Config, v: View, w: View)
    requires |v.nodes| > 0
  {
    exists events :: Go(cfg, v, events) == w
  }

  lemma {:induction false} GoThen(cfg: Config, v: View, first: seq<Event>, later: seq<Event>)
    requires |v.nodes| > 0
    ensures Go(cfg, v, first + later) == Go(cfg, Go(cfg, v, first), later)
  {
    if later == [] {
      assert first + later == first;
    } else {
      var n := |later| - 1;
      GoThen(cfg, v, first, later[..n]);
      assert (first + later)[..|first + later| - 1] == first + later[..n];
    }
  }

  lemma ReachesOn(cfg: Config, v: View, w: View, x: View)
    requires |v.nodes| > 0 && |w.nodes| > 0 && Reaches(cfg, v, w) && Reaches(cfg, w, x)
    ensures Reaches(cfg, v, x)
  {
    var first :| Go(cfg, v, first) == w;
    var later :| Go(cfg, w, later) == x;
    GoThen(cfg, v, first, later);
  }

  lemma ReachesNext(cfg: Config, v: View, event: Event, w: View)
    requires |v.nodes| > 0 && ViewNext(cfg, v, event) == w
    ensures Reaches(cfg, v, w)
  {
    GoOne(cfg, v, [], event);
    assert [] + [event] == [event];
    assert Go(cfg, v, [event]) == w;
  }

  // ------------------------------------------------------------------------ the cluster

  /** Two nodes, one PRIME slot on the first and one BACKUP slot on the second; one replica; no cache. */
  function Pair(p: Slot, b: Slot): seq<Node> {
    [Node([p], [], []), Node([], [], [b])]
  }

  function Cfg(c: Crypto): Config {
    Config(c, 2, false)
  }

  predicate Plain(c: Crypto, w: Write) {
    c.hash(w.key) == 0 && |w.value| <= MAX_VALUE_SIZE && !w.updateOnly && !w.tombstone
  }

  function Slot2(c: Crypto, w: Write, epoch: nat): Slot
    requires Plain(c, w)
  {
    Made(c, Call(w.key, w.value, w.tombstone, epoch))
  }

  predicate Usable(s: Slot) {
    s.IsEmpty() || s.Holds(0)
  }

  function Seen(s: Slot): Probe {
    if s.IsEmpty() then Probe(false, ZERO_SLOT, 0, true, s, 0) else Probe(true, s, 0, true, s, 0)
  }

  // --------------------------------------------------------------------- a write, by steps

  function Voting(c: Crypto, w: Write, id: nat, p: Slot): Task
    requires Plain(c, w)
  {
    Task(id, DoWrite(w), AtVote(0), Seen(p), Slot2(c, w, p.guard + 1), NoVotes(1), 0, None)
  }

  function Voted(c: Crypto, w: Write, id: nat, p: Slot): Task
    requires Plain(c, w)
  {
    Voting(c, w, id, p).(stage := AtCommit, votes := [Vote(true, 0)], rule := 1)
  }

  function Begun(w: Write, id: nat): Local {
    Fetching(NewTask(DoWrite(w), id), 0, Prime, 0, NO_PROBE)
  }

  function Asking(c: Crypto, w: Write, id: nat, p: Slot): Local
    requires Plain(c, w)
  {
    Fetching(Voting(c, w, id, p), 1, Backup, 0, NO_PROBE)
  }

  function Offering(c: Crypto, w: Write, id: nat, p: Slot, b: Slot): Local
    requires Plain(c, w)
  {
    Writing(Voting(c, w, id, p), 1, Backup, 0, b.guard, Slot2(c, w, p.guard + 1), b.body.tie)
  }

  function Claiming(c: Crypto, w: Write, id: nat, p: Slot, b: Slot): Local
    requires Plain(c, w)
  {
    Swapping(Voting(c, w, id, p), 1, Backup, 0, b.guard, Slot2(c, w, p.guard + 1), b.body.tie)
  }

  function Elected(c: Crypto, w: Write, id: nat, p: Slot): Local
    requires Plain(c, w)
  {
    Writing(Voted(c, w, id, p), 0, Prime, 0, p.guard, Slot2(c, w, p.guard + 1), 0)
  }

  function Committing(c: Crypto, w: Write, id: nat, p: Slot): Local
    requires Plain(c, w)
  {
    Swapping(Voted(c, w, id, p), 0, Prime, 0, p.guard, Slot2(c, w, p.guard + 1), 0)
  }

  function Ended(c: Crypto, w: Write, id: nat, p: Slot): Local
    requires Plain(c, w)
  {
    Returning(Voted(c, w, id, p), Ruled(1))
  }

  lemma OneVote()
    ensures NoVotes(1) == [NO_VOTE] && Rule([Vote(true, 0)], 0) == 1
    ensures forall tie: nat :: Rule([Vote(true, 0)], tie) == 1
  {
    assert [Vote(true, 0)][..0] == [];
    assert Successes([Vote(true, 0)]) == 1;
  }

  lemma Asks(c: Crypto, p: Slot, b: Slot, w: Write, id: nat)
    requires Plain(c, w) && Usable(p)
    ensures var move := Advance(Cfg(c), Pair(p, b), Begun(w, id), Delivered);
            move.local == Asking(c, w, id, p) && move.effect == Nothing
  {
    OneVote();
  }

  lemma Offers(c: Crypto, p0: Slot, p: Slot, b: Slot, w: Write, id: nat)
    requires Plain(c, w) && Usable(b)
    ensures var move := Advance(Cfg(c), Pair(p, b), Asking(c, w, id, p0), Delivered);
            move.local == Offering(c, w, id, p0, b) && move.effect == Nothing
  {
  }

  lemma Claims(c: Crypto, p0: Slot, b0: Slot, p: Slot, b: Slot, w: Write, id: nat)
    requires Plain(c, w)
    ensures var move := Advance(Cfg(c), Pair(p, b), Offering(c, w, id, p0, b0), Delivered);
            && move.local == Claiming(c, w, id, p0, b0)
            && move.effect == WroteBody(1, Backup, 0, Slot2(c, w, p0.guard + 1).body)
            && Apply(Pair(p, b), move.effect) == Pair(p, Slot(b.guard, Slot2(c, w, p0.guard + 1).body))
  {
    assert WriteBody([b], 0, Slot2(c, w, p0.guard + 1).body) == [Slot(b.guard, Slot2(c, w, p0.guard + 1).body)];
  }

  lemma Wins(c: Crypto, p0: Slot, b0: Slot, p: Slot, b: Slot, w: Write, id: nat)
    requires Plain(c, w) && b.guard == b0.guard && b.body == Slot2(c, w, p0.guard + 1).body
    ensures var move := Advance(Cfg(c), Pair(p, b), Claiming(c, w, id, p0, b0), Delivered);
            && move.local == Elected(c, w, id, p0)
            && move.effect == SwappedGuard(1, Backup, 0, b0.guard, p0.guard + 1)
            && Apply(Pair(p, b), move.effect) == Pair(p, Slot2(c, w, p0.guard + 1))
  {
    OneVote();
    assert NoVotes(1)[0 := Vote(true, 0)] == [Vote(true, 0)];
    assert CasGuard([b], 0, b0.guard, p0.guard + 1) == [Slot2(c, w, p0.guard + 1)];
  }

  lemma Commits(c: Crypto, p: Slot, b: Slot, w: Write, id: nat)
    requires Plain(c, w)
    ensures var move := Advance(Cfg(c), Pair(p, b), Elected(c, w, id, p), Delivered);
            && move.local == Committing(c, w, id, p)
            && move.effect == WroteBody(0, Prime, 0, Slot2(c, w, p.guard + 1).body)
            && Apply(Pair(p, b), move.effect) == Pair(Slot(p.guard, Slot2(c, w, p.guard + 1).body), b)
  {
    assert WriteBody([p], 0, Slot2(c, w, p.guard + 1).body) == [Slot(p.guard, Slot2(c, w, p.guard + 1).body)];
  }

  lemma Ends(c: Crypto, p0: Slot, p: Slot, b: Slot, w: Write, id: nat)
    requires Plain(c, w) && p.guard == p0.guard && p.body == Slot2(c, w, p0.guard + 1).body
    ensures var move := Advance(Cfg(c), Pair(p, b), Committing(c, w, id, p0), Delivered);
            && move.local == Ended(c, w, id, p0)
            && move.effect == SwappedGuard(0, Prime, 0, p0.guard, p0.guard + 1)
            && Apply(Pair(p, b), move.effect) == Pair(Slot2(c, w, p0.guard + 1), b)
  {
    assert CasGuard([p], 0, p0.guard, p0.guard + 1) == [Slot2(c, w, p0.guard + 1)];
    assert GoRepair(Cfg(c), 2, Voted(c, w, id, p0), 1) == Ended(c, w, id, p0);
  }

  // --------------------------------------------------------------------------- the run

  function VoteSwap(from: nat, to: nat, id: nat): Swap {
    Swap(1, 0, from, to, id, Some(0))
  }

  function ElectionFor(c: Crypto, w: Write, id: nat, p: Slot): Election
    requires Plain(c, w)
  {
    Election(id, 0, [Vote(true, 0)], Slot2(c, w, p.guard + 1).body.tie, 1)
  }

  function RecordWin(c: Crypto, r: Record, w: Write, id: nat, p: Slot, b: Slot): Record
    requires Plain(c, w)
  {
    Record(r.swaps + [VoteSwap(b.guard, p.guard + 1, id)], r.elections + {ElectionFor(c, w, id, p)})
  }

  /** A step that neither swaps a guard of BACKUP nor turns to the primary. */
  lemma ActKeeps(c: Crypto, p: Slot, b: Slot, clients: seq<Local>, started: nat, r: Record, i: nat)
    requires i < |clients|
    requires var move := Advance(Cfg(c), Pair(p, b), clients[i], Delivered);
             SwapBy(Pair(p, b), clients[i], move.effect) == [] && !Elects(clients[i], move.local)
    ensures var move := Advance(Cfg(c), Pair(p, b), clients[i], Delivered);
            ViewNext(Cfg(c), View(Pair(p, b), clients, started, r), Act(i, Delivered))
              == View(Apply(Pair(p, b), move.effect), clients[i := move.local], started, r)
  {
    assert r.swaps + [] == r.swaps && r.elections + {} == r.elections;
  }

  /** A claim that finds its guard wins the vote, the only one there is. */
  lemma ActWins(c: Crypto, p0: Slot, b0: Slot, p: Slot, b: Slot, w: Write, id: nat, clients: seq<Local>, started: nat,
                r: Record, i: nat)
    requires Plain(c, w) && b.guard == b0.guard && b.body == Slot2(c, w, p0.guard + 1).body
    requires i < |clients| && clients[i] == Claiming(c, w, id, p0, b0)
    ensures ViewNext(Cfg(c), View(Pair(p, b), clients, started, r), Act(i, Delivered))
         == View(Pair(p, Slot2(c, w, p0.guard + 1)), clients[i := Elected(c, w, id, p0)], started,
                 RecordWin(c, r, w, id, p0, b0))
  {
    Wins(c, p0, b0, p, b, w, id);
  }

  /** A client starts a write and probes PRIME. */
  lemma Begins(c: Crypto, p: Slot, b: Slot, clients: seq<Local>, started: nat, r: Record, i: nat, w: Write)
    requires Plain(c, w) && Usable(p) && i < |clients| && clients[i] == Idle
    ensures Reaches(Cfg(c), View(Pair(p, b), clients, started, r),
                    View(Pair(p, b), clients[i := Asking(c, w, started, p)], started + 1, r))
  {
    var v := View(Pair(p, b), clients, started, r);
    var begun := View(Pair(p, b), clients[i := Begun(w, started)], started + 1, r);
    var asking := View(Pair(p, b), clients[i := Asking(c, w, started, p)], started + 1, r);
    ReachesNext(Cfg(c), v, Start(i, DoWrite(w)), begun);
    Asks(c, p, b, w, started);
    ActKeeps(c, p, b, begun.clients, started + 1, r, i);
    assert begun.clients[i := Asking(c, w, started, p)] == asking.clients;
    ReachesNext(Cfg(c), begun, Act(i, Delivered), asking);
    ReachesOn(Cfg(c), v, begun, asking);
  }

  /** It probes BACKUP. */
  lemma Probes(c: Crypto, p0: Slot, p: Slot, b: Slot, clients: seq<Local>, started: nat, r: Record, i: nat, w: Write,
               id: nat)
    requires Plain(c, w) && Usable(b) && i < |clients| && clients[i] == Asking(c, w, id, p0)
    ensures Reaches(Cfg(c), View(Pair(p, b), clients, started, r),
                    View(Pair(p, b), clients[i := Offering(c, w, id, p0, b)], started, r))
  {
    Offers(c, p0, p, b, w, id);
    ActKeeps(c, p, b, clients, started, r, i);
    ReachesNext(Cfg(c), View(Pair(p, b), clients, started, r), Act(i, Delivered),
                View(Pair(p, b), clients[i := Offering(c, w, id, p0, b)], started, r));
  }

  /** It stores its body and claims the vote; the guard is as it probed it. */
  lemma Prevailing(c: Crypto, p0: Slot, b0: Slot, p: Slot, b: Slot, clients: seq<Local>, started: nat, r: Record,
                   i: nat, w: Write, id: nat)
    requires Plain(c, w) && b.guard == b0.guard && i < |clients| && clients[i] == Offering(c, w, id, p0, b0)
    ensures Reaches(Cfg(c), View(Pair(p, b), clients, started, r),
                    View(Pair(p, Slot2(c, w, p0.guard + 1)), clients[i := Elected(c, w, id, p0)], started,
                         RecordWin(c, r, w, id, p0, b0)))
  {
    var v := View(Pair(p, b), clients, started, r);
    var stored := Slot(b.guard, Slot2(c, w, p0.guard + 1).body);
    var claiming := View(Pair(p, stored), clients[i := Claiming(c, w, id, p0, b0)], started, r);
    var elected := View(Pair(p, Slot2(c, w, p0.guard + 1)), clients[i := Elected(c, w, id, p0)], started,
                        RecordWin(c, r, w, id, p0, b0));
    Claims(c, p0, b0, p, b, w, id);
    ActKeeps(c, p, b, clients, started, r, i);
    ReachesNext(Cfg(c), v, Act(i, Delivered), claiming);
    ActWins(c, p0, b0, p, stored, w, id, claiming.clients, started, r, i);
    assert claiming.clients[i := Elected(c, w, id, p0)] == elected.clients;
    ReachesNext(Cfg(c), claiming, Act(i, Delivered), elected);
    ReachesOn(Cfg(c), v, claiming, elected);
  }

  /** It commits to PRIME and returns. */
  lemma Finishes(c: Crypto, p: Slot, b: Slot, clients: seq<Local>, started: nat, r: Record, i: nat, w: Write, id: nat)
    requires Plain(c, w) && i < |clients| && clients[i] == Elected(c, w, id, p)
    ensures Reaches(Cfg(c), View(Pair(p, b), clients, started, r),
                    View(Pair(Slot2(c, w, p.guard + 1), b), clients[i := Idle], started, r))
  {
    var cfg, v := Cfg(c), View(Pair(p, b), clients, started, r);
    var p1, p2 := Slot(p.guard, Slot2(c, w, p.guard + 1).body), Slot2(c, w, p.guard + 1);
    var stored := View(Pair(p1, b), clients[i := Committing(c, w, id, p)], started, r);
    var done := View(Pair(p2, b), clients[i := Ended(c, w, id, p)], started, r);
    var idle := View(Pair(p2, b), clients[i := Idle], started, r);
    Commits(c, p, b, w, id);
    ActKeeps(c, p, b, clients, started, r, i);
    ReachesNext(cfg, v, Act(i, Delivered), stored);
    Ends(c, p, p1, b, w, id);
    ActKeeps(c, p1, b, stored.clients, started, r, i);
    assert stored.clients[i := Ended(c, w, id, p)] == done.clients;
    ReachesNext(cfg, stored, Act(i, Delivered), done);
    ActKeeps(c, p2, b, done.clients, started, r, i);
    assert done.clients[i := Idle] == idle.clients;
    ReachesNext(cfg, done, Act(i, Delivered), idle);
    ReachesOn(cfg, v, stored, done);
    ReachesOn(cfg, v, done, idle);
  }

  // ------------------------------------------------------------------------- the whole run

  const NO_RECORD: Record := Record([], {})

  /** Client 1 wins the vote for w1, whatever client 0 is at. */
  lemma FirstVote(c: Crypto, w1: Write, a: Local)
    requires Plain(c, w1)
    ensures var z := ZERO_SLOT;
            Reaches(Cfg(c), View(Pair(z, z), [a, Asking(c, w1, 1, z), Idle], 2, NO_RECORD),
                    View(Pair(z, Slot2(c, w1, 1)), [a, Elected(c, w1, 1, z), Idle], 2,
                         RecordWin(c, NO_RECORD, w1, 1, z, z)))
  {
    var z := ZERO_SLOT;
    var v2 := View(Pair(z, z), [a, Asking(c, w1, 1, z), Idle], 2, NO_RECORD);
    var v3 := View(Pair(z, z), [a, Offering(c, w1, 1, z, z), Idle], 2, NO_RECORD);
    var v4 := View(Pair(z, Slot2(c, w1, 1)), [a, Elected(c, w1, 1, z), Idle], 2, RecordWin(c, NO_RECORD, w1, 1, z, z));
    Probes(c, z, z, z, v2.clients, 2, NO_RECORD, 1, w1, 1);
    Prevailing(c, z, z, z, z, v3.clients, 2, NO_RECORD, 1, w1, 1);
    assert v2.clients[1 := Offering(c, w1, 1, z, z)] == v3.clients;
    assert v3.clients[1 := Elected(c, w1, 1, z)] == v4.clients;
    ReachesOn(Cfg(c), v2, v3, v4);
  }

  /** It writes w1 to the end. */
  lemma FirstWrite(c: Crypto, w1: Write, a: Local)
    requires Plain(c, w1)
    ensures var z, one := ZERO_SLOT, Slot2(c, w1, 1);
            Reaches(Cfg(c), View(Pair(z, z), [a, Asking(c, w1, 1, z), Idle], 2, NO_RECORD),
                    View(Pair(one, one), [a, Idle, Idle], 2, RecordWin(c, NO_RECORD, w1, 1, z, z)))
  {
    var z, one := ZERO_SLOT, Slot2(c, w1, 1);
    var r := RecordWin(c, NO_RECORD, w1, 1, z, z);
    var v2 := View(Pair(z, z), [a, Asking(c, w1, 1, z), Idle], 2, NO_RECORD);
    var v4 := View(Pair(z, one), [a, Elected(c, w1, 1, z), Idle], 2, r);
    FirstVote(c, w1, a);
    Finishes(c, z, one, v4.clients, 2, r, 1, w1, 1);
    assert v4.clients[1 := Idle] == [a, Idle, Idle];
    ReachesOn(Cfg(c), v2, v4, View(Pair(one, one), [a, Idle, Idle], 2, r));
  }

  /** Client 0 probes PRIME for w0 and falls asleep; client 1 writes w1 to the end. */
  lemma First(c: Crypto, w0: Write, w1: Write)
    requires Plain(c, w0) && Plain(c, w1)
    ensures var z, one := ZERO_SLOT, Slot2(c, w1, 1);
            Reaches(Cfg(c), View(Pair(z, z), [Idle, Idle, Idle], 0, NO_RECORD),
                    View(Pair(one, one), [Asking(c, w0, 0, z), Idle, Idle], 2, RecordWin(c, NO_RECORD, w1, 1, z, z)))
  {
    var z, one, cfg := ZERO_SLOT, Slot2(c, w1, 1), Cfg(c);
    var a := Asking(c, w0, 0, z);
    var v0 := View(Pair(z, z), [Idle, Idle, Idle], 0, NO_RECORD);
    var v1 := View(Pair(z, z), [a, Idle, Idle], 1, NO_RECORD);
    var v2 := View(Pair(z, z), [a, Asking(c, w1, 1, z), Idle], 2, NO_RECORD);
    Begins(c, z, z, v0.clients, 0, NO_RECORD, 0, w0);
    Begins(c, z, z, v1.clients, 1, NO_RECORD, 1, w1);
    assert v0.clients[0 := a] == v1.clients && v1.clients[1 := Asking(c, w1, 1, z)] == v2.clients;
    ReachesOn(cfg, v0, v1, v2);
    FirstWrite(c, w1, a);
    ReachesOn(cfg, v0, v2, View(Pair(one, one), [a, Idle, Idle], 2, RecordWin(c, NO_RECORD, w1, 1, z, z)));
  }

  /** Clients 1 and 2 probe PRIME and BACKUP for w2 and w3. */
  lemma Second(c: Crypto, one: Slot, w2: Write, w3: Write, a: Local, r: Record)
    requires Plain(c, w2) && Plain(c, w3) && one.Holds(0)
    ensures Reaches(Cfg(c), View(Pair(one, one), [a, Idle, Idle], 2, r),
                    View(Pair(one, one), [a, Offering(c, w2, 2, one, one), Offering(c, w3, 3, one, one)], 4, r))
  {
    var cfg, l := Cfg(c), Offering(c, w2, 2, one, one);
    var v0 := View(Pair(one, one), [a, Idle, Idle], 2, r);
    var v1 := View(Pair(one, one), [a, Asking(c, w2, 2, one), Idle], 3, r);
    var v2 := View(Pair(one, one), [a, l, Idle], 3, r);
    var v3 := View(Pair(one, one), [a, l, Asking(c, w3, 3, one)], 4, r);
    var v4 := View(Pair(one, one), [a, l, Offering(c, w3, 3, one, one)], 4, r);
    Begins(c, one, one, v0.clients, 2, r, 1, w2);
    Probes(c, one, one, one, v1.clients, 3, r, 1, w2, 2);
    Begins(c, one, one, v2.clients, 3, r, 2, w3);
    Probes(c, one, one, one, v3.clients, 4, r, 2, w3, 3);
    assert v0.clients[1 := Asking(c, w2, 2, one)] == v1.clients && v1.clients[1 := l] == v2.clients;
    assert v2.clients[2 := Asking(c, w3, 3, one)] == v3.clients;
    assert v3.clients[2 := Offering(c, w3, 3, one, one)] == v4.clients;
    ReachesOn(cfg, v0, v1, v2);
    ReachesOn(cfg, v0, v2, v3);
    ReachesOn(cfg, v0, v3, v4);
  }

  /** Client 0 wakes up, probes BACKUP, wins the vote and with its old epoch sets the guard back. */
  lemma Wakes(c: Crypto, one: Slot, two: Slot, w0: Write, l1: Local, l2: Local, r: Record)
    requires Plain(c, w0) && two.Holds(0)
    ensures var z := ZERO_SLOT;
            Reaches(Cfg(c), View(Pair(one, two), [Asking(c, w0, 0, z), l1, l2], 4, r),
                    View(Pair(one, Slot2(c, w0, 1)), [Elected(c, w0, 0, z), l1, l2], 4, RecordWin(c, r, w0, 0, z, two)))
  {
    var z, cfg := ZERO_SLOT, Cfg(c);
    var v1 := View(Pair(one, two), [Asking(c, w0, 0, z), l1, l2], 4, r);
    var v2 := View(Pair(one, two), [Offering(c, w0, 0, z, two), l1, l2], 4, r);
    var v3 := View(Pair(one, Slot2(c, w0, 1)), [Elected(c, w0, 0, z), l1, l2], 4, RecordWin(c, r, w0, 0, z, two));
    Probes(c, z, one, two, v1.clients, 4, r, 0, w0, 0);
    Prevailing(c, z, two, one, two, v2.clients, 4, r, 0, w0, 0);
    assert v1.clients[0 := Offering(c, w0, 0, z, two)] == v2.clients;
    assert v2.clients[0 := Elected(c, w0, 0, z)] == v3.clients;
    ReachesOn(cfg, v1, v2, v3);
  }

  /** Client 1 wins the vote; client 0 wins it too, with its old epoch; and so does client 2. */
  lemma Third(c: Crypto, one: Slot, w0: Write, w2: Write, w3: Write, r: Record)
    requires Plain(c, w0) && Plain(c, w2) && Plain(c, w3) && one.guard == 1
    ensures var z, two := ZERO_SLOT, Slot2(c, w2, 2);
            var r1 := RecordWin(c, r, w2, 2, one, one);
            var r2 := RecordWin(c, r1, w0, 0, z, two);
            Reaches(Cfg(c),
                    View(Pair(one, one), [Asking(c, w0, 0, z), Offering(c, w2, 2, one, one),
                                          Offering(c, w3, 3, one, one)], 4, r),
                    View(Pair(one, Slot2(c, w3, 2)), [Elected(c, w0, 0, z), Elected(c, w2, 2, one),
                                                      Elected(c, w3, 3, one)], 4, RecordWin(c, r2, w3, 3, one, one)))
  {
    var z, two, back, cfg := ZERO_SLOT, Slot2(c, w2, 2), Slot2(c, w0, 1), Cfg(c);
    var l1, l2 := Elected(c, w2, 2, one), Offering(c, w3, 3, one, one);
    var r1 := RecordWin(c, r, w2, 2, one, one);
    var r2 := RecordWin(c, r1, w0, 0, z, two);
    var v0 := View(Pair(one, one), [Asking(c, w0, 0, z), Offering(c, w2, 2, one, one), l2], 4, r);
    var v1 := View(Pair(one, two), [Asking(c, w0, 0, z), l1, l2], 4, r1);
    var v3 := View(Pair(one, back), [Elected(c, w0, 0, z), l1, l2], 4, r2);
    var v4 := View(Pair(one, Slot2(c, w3, 2)), [Elected(c, w0, 0, z), l1, Elected(c, w3, 3, one)], 4,
                   RecordWin(c, r2, w3, 3, one, one));
    Prevailing(c, one, one, one, one, v0.clients, 4, r, 1, w2, 2);
    Wakes(c, one, two, w0, l1, l2, r1);
    Prevailing(c, one, one, one, back, v3.clients, 4, r2, 2, w3, 3);
    assert v0.clients[1 := l1] == v1.clients && v3.clients[2 := Elected(c, w3, 3, one)] == v4.clients;
    ReachesOn(cfg, v0, v1, v3);
    ReachesOn(cfg, v0, v3, v4);
  }

  function Opening(): State {
    State(Pair(ZERO_SLOT, ZERO_SLOT), [Idle, Idle, Idle], 0, {}, {}, [], {})
  }

  function FinalRecord(c: Crypto, w0: Write, w1: Write, w2: Write, w3: Write): Record
    requires Plain(c, w0) && Plain(c, w1) && Plain(c, w2) && Plain(c, w3)
  {
    var z, one, two := ZERO_SLOT, Slot2(c, w1, 1), Slot2(c, w2, 2);
    var r1 := RecordWin(c, RecordWin(c, NO_RECORD, w1, 1, z, z), w2, 2, one, one);
    RecordWin(c, RecordWin(c, r1, w0, 0, z, two), w3, 3, one, one)
  }

  lemma Play(c: Crypto, w0: Write, w1: Write, w2: Write, w3: Write) returns (events: seq<Event>)
    requires Plain(c, w0) && Plain(c, w1) && Plain(c, w2) && Plain(c, w3)
    ensures Recorded(Cfg(c), Opening(), events) == FinalRecord(c, w0, w1, w2, w3)
  {
    var z, one, cfg := ZERO_SLOT, Slot2(c, w1, 1), Cfg(c);
    var a, r := Asking(c, w0, 0, z), RecordWin(c, NO_RECORD, w1, 1, z, z);
    var v0 := View(Pair(z, z), [Idle, Idle, Idle], 0, NO_RECORD);
    var v1 := View(Pair(one, one), [a, Idle, Idle], 2, r);
    var v2 := View(Pair(one, one), [a, Offering(c, w2, 2, one, one), Offering(c, w3, 3, one, one)], 4, r);
    var v3 := View(Pair(one, Slot2(c, w3, 2)), [Elected(c, w0, 0, z), Elected(c, w2, 2, one), Elected(c, w3, 3, one)],
                   4, FinalRecord(c, w0, w1, w2, w3));
    First(c, w0, w1);
    Second(c, one, w2, w3, a, r);
    Third(c, one, w0, w2, w3, r);
    ReachesOn(cfg, v0, v1, v2);
    ReachesOn(cfg, v0, v2, v3);
    events :| Go(cfg, v0, events) == v3;
    GoViews(cfg, Opening(), events);
  }

  lemma FinalSwaps(c: Crypto, w0: Write, w1: Write, w2: Write, w3: Write)
    requires Plain(c, w0) && Plain(c, w1) && Plain(c, w2) && Plain(c, w3)
    ensures FinalRecord(c, w0, w1, w2, w3).swaps
         == [VoteSwap(0, 1, 1), VoteSwap(1, 2, 2), VoteSwap(2, 1, 0), VoteSwap(1, 2, 3)]
    ensures var one, elections := Slot2(c, w1, 1), FinalRecord(c, w0, w1, w2, w3).elections;
            ElectionFor(c, w2, 2, one) in elections && ElectionFor(c, w3, 3, one) in elections
  {
  }

  /** The record shows two writes of one key that both got rule 1, by winning the same vote on the same slot with the
      same guard probed, which came back in between. */
  ghost predicate BothElected(r: Record, x: Election, y: Election) {
    && x in r.elections && y in r.elections && x.id != y.id && x.key == y.key && x.rule == y.rule == 1
    && BothWon(r.swaps, x, y, 0, 1, 3)
    && r.swaps[1].i == r.swaps[3].i && r.swaps[1].from == r.swaps[3].from && Returned(r.swaps, 1, 3, r.swaps[1].from)
  }

  lemma SwapsElectBoth(r: Record, x: Election, y: Election)
    requires r.swaps == [VoteSwap(0, 1, 1), VoteSwap(1, 2, 2), VoteSwap(2, 1, 0), VoteSwap(1, 2, 3)]
    requires x in r.elections && y in r.elections && x.id == 2 && y.id == 3 && x.key == y.key && x.rule == y.rule == 1
    ensures BothElected(r, x, y)
  {
    assert OnSlot(r.swaps[2], 1, 0) && r.swaps[2].to == 1;
  }

  /** Two writes of one key, with any values, probe the same backup slot with the same guard before either has
      claimed it, and both get rule 1: a third one, that probed PRIME when it was empty, has set the guard back in
      between. */
  lemma GuardsCanComeBack(c: Crypto, w0: Write, w1: Write, w2: Write, w3: Write)
    returns (events: seq<Event>, x: Election, y: Election)
    requires Plain(c, w0) && Plain(c, w1) && Plain(c, w2) && Plain(c, w3)
    ensures Initial(Opening()) && BothElected(Recorded(Cfg(c), Opening(), events), x, y)
  {
    events := Play(c, w0, w1, w2, w3);
    FinalSwaps(c, w0, w1, w2, w3);
    var one := Slot2(c, w1, 1);
    x, y := ElectionFor(c, w2, 2, one), ElectionFor(c, w3, 3, one);
    SwapsElectBoth(FinalRecord(c, w0, w1, w2, w3), x, y);
    Opens();
  }

  lemma Opens()
    ensures Initial(Opening())
  {
  }
}
