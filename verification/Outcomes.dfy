/** What a write reports, exactly, whatever becomes of its calls: told from the probes of the tables and the fates of
    the calls alone. */
module Outcomes {
  import opened Slots
  import opened Table
  import opened Codec
  import opened Votes
  import opened Cluster
  import opened Effects

  // ---------------------------------------------------------------------- the calls of a write

  /** The BACKUP table of the i-th replica. */
  function BackupOf(nodes: seq<Node>, k: nat, i: nat): SlotArray
    requires |nodes| > 0
  {
    nodes[Replica(k, i + 1, |nodes|)].backup
  }

  /** A commit makes a second call only if its first was answered. */
  function CommitEnd(script: Script, clock: nat): nat {
    if script(clock) == Delivered then clock + 2 else clock + 1
  }

  predicate CommitAnswered(script: Script, clock: nat) {
    script(clock) == Delivered && script(clock + 1) == Delivered
  }

  /** The number of the call with which the i-th replica's turn begins, votes beginning at call number clock. */
  function ClockAt(nodes: seq<Node>, k: nat, script: Script, clock: nat, i: nat): nat
    requires |nodes| > 0
  {
    if i == 0 then clock
    else CommitEnd(script, ProbeSlot(BackupOf(nodes, k, i - 1), k, script,
                                     ClockAt(nodes, k, script, clock, i - 1)).clock)
  }

  function ProbedAt(nodes: seq<Node>, k: nat, script: Script, clock: nat, i: nat): Probed
    requires |nodes| > 0
  {
    ProbeSlot(BackupOf(nodes, k, i), k, script, ClockAt(nodes, k, script, clock, i))
  }

  /** The i-th vote is won: the probe was answered, with a candidate, and so were both calls of the commit. */
  predicate WonAt(nodes: seq<Node>, k: nat, script: Script, clock: nat, i: nat)
    requires |nodes| > 0
  {
    var probed := ProbedAt(nodes, k, script, clock, i);
    probed.result.Some? && CommitAnswered(script, probed.clock)
  }

  /** The tie-breaker of the slot to be overwritten. */
  function TieAt(nodes: seq<Node>, k: nat, script: Script, clock: nat, i: nat): nat
    requires |nodes| > 0 && ProbedAt(nodes, k, script, clock, i).result.Some?
  {
    ProbedAt(nodes, k, script, clock, i).result.value.cand.body.tie
  }

  /** A place the key may take, with no such place before it. */
  ghost predicate Takes(t: SlotArray, k: nat, i: nat) {
    i < |t| && (t[i].IsEmpty() || t[i].Reusable()) && ChainTo(t, k, i) && FirstPlace(t, k, i)
  }

  /** tie is that of the key's slot in the table or, where it has none, of the first place the key may take. */
  ghost predicate TieToBeat(t: SlotArray, k: nat, tie: nat) {
    match SlotOf(t, k)
    case Some(s) => tie == s.body.tie
    case None => exists i: nat :: Takes(t, k, i) && t[i].body.tie == tie
  }

  lemma TieIsToBeat(nodes: seq<Node>, k: nat, script: Script, clock: nat, i: nat)
    requires |nodes| > 0 && NodesOk(nodes) && ProbedAt(nodes, k, script, clock, i).result.Some?
    ensures TieToBeat(BackupOf(nodes, k, i), k, TieAt(nodes, k, script, clock, i))
  {
    ProbeMeetsTable(BackupOf(nodes, k, i), k, script, ClockAt(nodes, k, script, clock, i));
  }

  // ------------------------------------------------------------------------------- votes

  lemma StoreReport(t: SlotArray, p: Slot, script: Script, clock: nat)
    requires TableOk(t) && IsProposal(p)
    ensures var s, probed := Store(t, p, script, clock), ProbeSlot(t, p.body.key, script, clock);
            && (s.reached <==> probed.result.Some?)
            && (s.won <==> probed.result.Some? && CommitAnswered(script, probed.clock))
            && (s.reached ==> s.tie == probed.result.value.cand.body.tie && s.clock == CommitEnd(script, probed.clock))
  {
    var probed := ProbeSlot(t, p.body.key, script, clock);
    ProbeMeetsTable(t, p.body.key, script, clock);
    if probed.result.Some? {
      CommitExact(t, probed.result.value.candIndex, p, probed.result.value.cand.guard, script, probed.clock);
    }
  }

  /** Some replica, in its turn, could not be probed, or neither had the key nor a place for it. */
  ghost predicate GivenUp(nodes: seq<Node>, k: nat, script: Script, clock: nat, from: nat, n: nat)
    requires |nodes| > 0
  {
    exists i :: from <= i < n && ProbedAt(nodes, k, script, clock, i).result.None?
  }

  /** The vote a replica comes to in its turn. */
  function VoteAt(nodes: seq<Node>, k: nat, script: Script, clock: nat, i: nat): Vote
    requires |nodes| > 0 && ProbedAt(nodes, k, script, clock, i).result.Some?
  {
    if WonAt(nodes, k, script, clock, i) then Vote(true, 0) else Vote(false, TieAt(nodes, k, script, clock, i))
  }

  /** b is what the turns of the replicas from the from-th on come to, the votes before it being given. */
  ghost predicate VotesAre(nodes: seq<Node>, k: nat, script: Script, clock: nat, from: nat, votes: seq<Vote>,
                           b: Backups)
    requires |nodes| > 0 && from <= |votes|
  {
    && |b.votes| == |votes|
    && (b.aborted <==> GivenUp(nodes, k, script, clock, from, |votes|))
    && (!b.aborted ==>
          && b.clock == ClockAt(nodes, k, script, clock, |votes|)
          && (forall i :: 0 <= i < from ==> b.votes[i] == votes[i])
          && (forall i :: from <= i < |votes| ==>
                ProbedAt(nodes, k, script, clock, i).result.Some? && b.votes[i] == VoteAt(nodes, k, script, clock, i)))
  }

  lemma VotesOn(nodes: seq<Node>, k: nat, script: Script, clock: nat, from: nat, votes: seq<Vote>, b: Backups)
    requires |nodes| > 0 && from < |votes| && ProbedAt(nodes, k, script, clock, from).result.Some?
    requires VotesAre(nodes, k, script, clock, from + 1, votes[from := VoteAt(nodes, k, script, clock, from)], b)
    ensures VotesAre(nodes, k, script, clock, from, votes, b)
  {
    var voted := votes[from := VoteAt(nodes, k, script, clock, from)];
    assert forall i :: 0 <= i < from ==> voted[i] == votes[i];
  }

  lemma VotesEnd(nodes: seq<Node>, k: nat, script: Script, clock: nat, votes: seq<Vote>, b: Backups)
    requires |nodes| > 0 && b.votes == votes && !b.aborted && b.clock == ClockAt(nodes, k, script, clock, |votes|)
    ensures VotesAre(nodes, k, script, clock, |votes|, votes, b)
  {
  }

  lemma VotesGivenUp(nodes: seq<Node>, k: nat, script: Script, clock: nat, from: nat, votes: seq<Vote>, b: Backups)
    requires |nodes| > 0 && |b.votes| == |votes| && b.aborted
    requires from < |votes| && ProbedAt(nodes, k, script, clock, from).result.None?
    ensures VotesAre(nodes, k, script, clock, from, votes, b)
  {
  }

  /** A replica's turn: what its store reports is told from its probe, and it leaves the other replicas as they were. */
  lemma TurnReport(cfg: Config, nodes: seq<Node>, cur: seq<Node>, p: Slot, idx: nat, script: Script, clock: nat)
    requires |cur| == |nodes| > 0 && NodesOk(nodes) && IsProposal(p) && idx < BackupCount(cfg, |nodes|)
    requires forall i :: idx <= i < BackupCount(cfg, |nodes|) ==>
               BackupOf(cur, p.body.key, i) == BackupOf(nodes, p.body.key, i)
    ensures var k, m := p.body.key, Replica(p.body.key, idx + 1, |nodes|);
            var s := Store(cur[m].backup, p, script, ClockAt(nodes, k, script, clock, idx));
            && (s.reached <==> ProbedAt(nodes, k, script, clock, idx).result.Some?)
            && (s.reached ==> VoteOf(s) == VoteAt(nodes, k, script, clock, idx)
                              && s.clock == ClockAt(nodes, k, script, clock, idx + 1))
            && forall i :: idx + 1 <= i < BackupCount(cfg, |nodes|) ==>
                 BackupOf(Put(cur, m, Backup, s.table), k, i) == BackupOf(nodes, k, i)
  {
    var k, m, now := p.body.key, Replica(p.body.key, idx + 1, |nodes|), ClockAt(nodes, p.body.key, script, clock, idx);
    var s := Store(cur[m].backup, p, script, now);
    assert cur[m].backup == BackupOf(nodes, k, idx);
    StoreReport(BackupOf(nodes, k, idx), p, script, now);
    forall i | idx + 1 <= i < BackupCount(cfg, |nodes|)
      ensures BackupOf(Put(cur, m, Backup, s.table), k, i) == BackupOf(nodes, k, i)
    {
      OtherReplica(cfg, cur, k, s.table, i + 1, idx + 1);
    }
  }

  /** Collecting the votes comes to just what the probes of the tables as they were before it say. */
  lemma {:induction false} VotesReport(cfg: Config, nodes: seq<Node>, cur: seq<Node>, p: Slot, idx: nat,
                                       votes: seq<Vote>,
                                       script: Script, clock: nat, now: nat)
    requires |cur| == |nodes| > 0 && NodesOk(nodes) && IsProposal(p)
    requires idx <= |votes| == BackupCount(cfg, |nodes|) && now == ClockAt(nodes, p.body.key, script, clock, idx)
    requires forall i :: idx <= i < |votes| ==> BackupOf(cur, p.body.key, i) == BackupOf(nodes, p.body.key, i)
    ensures VotesAre(nodes, p.body.key, script, clock, idx, votes, BackupPhase(cur, p, idx, votes, script, now))
    decreases |votes| - idx
  {
    var goal := BackupPhase(cur, p, idx, votes, script, now);
    if idx == |votes| {
      VotesEnd(nodes, p.body.key, script, clock, votes, goal);
    } else {
      var s := Store(cur[Replica(p.body.key, idx + 1, |nodes|)].backup, p, script, now);
      TurnReport(cfg, nodes, cur, p, idx, script, clock);
      if s.reached {
        var next, voted := Put(cur, Replica(p.body.key, idx + 1, |nodes|), Backup, s.table), votes[idx := VoteOf(s)];
        VotesReport(cfg, nodes, next, p, idx + 1, voted, script, clock, s.clock);
        VotesOn(nodes, p.body.key, script, clock, idx, votes, goal);
      } else {
        VotesGivenUp(nodes, p.body.key, script, clock, idx, votes, goal);
      }
    }
    assert VotesAre(nodes, p.body.key, script, clock, idx, votes, goal);
  }

  // -------------------------------------------------------------------- what is reported

  /** The votes won. */
  function WonSet(nodes: seq<Node>, k: nat, script: Script, clock: nat, n: nat): set<nat>
    requires |nodes| > 0
  {
    set i: nat | i < n && WonAt(nodes, k, script, clock, i)
  }

  /** The i-th vote is won, or tie is below the tie-breaker, unless that is zero, of the slot to be overwritten
      there. */
  ghost predicate WonOrBelow(nodes: seq<Node>, k: nat, script: Script, clock: nat, i: nat, tie: nat)
    requires |nodes| > 0
  {
    WonAt(nodes, k, script, clock, i)
    || forall other :: TieToBeat(BackupOf(nodes, k, i), k, other) && other != 0 ==> tie < other
  }

  ghost predicate Undercutting(nodes: seq<Node>, k: nat, script: Script, clock: nat, n: nat, tie: nat)
    requires |nodes| > 0
  {
    tie < UINT64_MAX && forall i :: 0 <= i < n ==> WonOrBelow(nodes, k, script, clock, i, tie)
  }

  lemma TakesFirst(t: SlotArray, k: nat, i: nat, j: nat)
    requires Takes(t, k, i) && Takes(t, k, j)
    ensures Off(Home(k, |t|), i, |t|) >= Off(Home(k, |t|), j, |t|)
  {
    var h := Home(k, |t|);
    assert t[Pos(h, Off(h, i, |t|), |t|)] == t[i];
  }

  lemma TieToBeatUnique(t: SlotArray, k: nat, a: nat, b: nat)
    requires TieToBeat(t, k, a) && TieToBeat(t, k, b)
    ensures a == b
  {
    if SlotOf(t, k).None? {
      var i: nat :| Takes(t, k, i) && t[i].body.tie == a;
      var j: nat :| Takes(t, k, j) && t[j].body.tie == b;
      TakesFirst(t, k, i, j);
      TakesFirst(t, k, j, i);
    }
  }

  lemma LostMeans(nodes: seq<Node>, k: nat, script: Script, clock: nat, i: nat, tie: nat)
    requires |nodes| > 0 && NodesOk(nodes) && ProbedAt(nodes, k, script, clock, i).result.Some?
    ensures !LostTo(VoteAt(nodes, k, script, clock, i), tie) <==> WonOrBelow(nodes, k, script, clock, i, tie)
  {
    var seen := TieAt(nodes, k, script, clock, i);
    TieIsToBeat(nodes, k, script, clock, i);
    forall other | TieToBeat(BackupOf(nodes, k, i), k, other) ensures other == seen {
      TieToBeatUnique(BackupOf(nodes, k, i), k, other, seen);
    }
  }

  lemma WonMeans(nodes: seq<Node>, k: nat, script: Script, clock: nat, votes: seq<Vote>)
    requires |nodes| > 0
    requires forall i :: 0 <= i < |votes| ==>
               ProbedAt(nodes, k, script, clock, i).result.Some? && votes[i] == VoteAt(nodes, k, script, clock, i)
    ensures Successes(votes) == |WonSet(nodes, k, script, clock, |votes|)|
  {
    forall i | 0 <= i < |votes| ensures votes[i].success <==> i in WonSet(nodes, k, script, clock, |votes|) {
      assert votes[i] == VoteAt(nodes, k, script, clock, i);
    }
    SuccessesOf(votes, WonSet(nodes, k, script, clock, |votes|));
  }

  /** The rule of the votes taken, said of the set of those won and of the slots where the others were lost. */
  ghost predicate RuleOf(nodes: seq<Node>, k: nat, script: Script, clock: nat, n: nat, tie: nat, rule: nat)
    requires |nodes| > 0
  {
    var won := |WonSet(nodes, k, script, clock, n)|;
    && (rule == 1 <==> won == n)
    && (rule == 2 <==> won < n && 2 * won > n)
    && (rule == 3 <==> won < n && 2 * won <= n && Undercutting(nodes, k, script, clock, n, tie))
    && rule <= 3 && won <= n
  }

  lemma VotesMean(nodes: seq<Node>, k: nat, script: Script, clock: nat, votes: seq<Vote>, tie: nat)
    requires |nodes| > 0 && NodesOk(nodes)
    requires forall i :: 0 <= i < |votes| ==>
               ProbedAt(nodes, k, script, clock, i).result.Some? && votes[i] == VoteAt(nodes, k, script, clock, i)
    ensures RuleOf(nodes, k, script, clock, |votes|, tie, Rule(votes, tie))
  {
    RuleIff(votes, tie);
    SuccessesAll(votes);
    WonMeans(nodes, k, script, clock, votes);
    forall i | 0 <= i < |votes| ensures !LostTo(votes[i], tie) <==> WonOrBelow(nodes, k, script, clock, i, tie) {
      LostMeans(nodes, k, script, clock, i, tie);
    }
  }

  /** What is left of an attempt to get proposal p through, PRIME having been probed. */
  ghost predicate ProposalReports(cfg: Config, nodes: seq<Node>, p: Slot, script: Script, clock: nat, r: Written)
    requires |nodes| > 0
  {
    var k, n := p.body.key, BackupCount(cfg, |nodes|);
    if GivenUp(nodes, k, script, clock, 0, n) || RuleOf(nodes, k, script, clock, n, p.body.tie, 0)
    then r.rule == -1 && SamePrimesAndCaches(nodes, r.nodes)
    else if CommitAnswered(script, ClockAt(nodes, k, script, clock, n))
    then r.rule > 0 && RuleOf(nodes, k, script, clock, n, p.body.tie, r.rule)
    else r.rule == -1 && SameCaches(nodes, r.nodes)
  }

  ghost predicate SameCaches(nodes: seq<Node>, nodes': seq<Node>) {
    |nodes'| == |nodes| && forall m :: 0 <= m < |nodes| ==> nodes'[m].cache == nodes[m].cache
  }

  ghost predicate SamePrimesAndCaches(nodes: seq<Node>, nodes': seq<Node>) {
    SameCaches(nodes, nodes') && forall m :: 0 <= m < |nodes| ==> nodes'[m].prime == nodes[m].prime
  }

  lemma DecideReports(cfg: Config, nodes: seq<Node>, b: Backups, prim: nat, q: Probe, p: Slot, script: Script,
                      clock: nat)
    requires |nodes| == |b.nodes| > 0 && NodesOk(nodes) && SamePrimesAndCaches(nodes, b.nodes)
    requires |b.votes| == BackupCount(cfg, |nodes|)
    requires VotesAre(nodes, p.body.key, script, clock, 0, NoVotes(|b.votes|), b)
    requires prim < |nodes| && q.candIndex < |nodes[prim].prime| && q.cand == nodes[prim].prime[q.candIndex]
    ensures ProposalReports(cfg, nodes, p, script, clock, Decide(cfg, b, prim, q, p, script))
  {
    if !b.aborted {
      VotesMean(nodes, p.body.key, script, clock, b.votes, p.body.tie);
      CommitExact(b.nodes[prim].prime, q.candIndex, p, q.cand.guard, script, b.clock);
    }
  }

  lemma ProposeReports(cfg: Config, nodes: seq<Node>, q: Probe, p: Slot, script: Script, clock: nat)
    requires NodesOk(nodes) && |nodes| > 0 && IsProposal(p)
    requires ProbeMeets(nodes[Primary(p.body.key, |nodes|)].prime, p.body.key, Some(q))
    ensures ProposalReports(cfg, nodes, p, script, clock,
                            Propose(cfg, nodes, Primary(p.body.key, |nodes|), q, p, script, clock))
  {
    var votes := NoVotes(BackupCount(cfg, |nodes|));
    VotesReport(cfg, nodes, nodes, p, 0, votes, script, clock, clock);
    DecideReports(cfg, nodes, BackupPhase(nodes, p, 0, votes, script, clock), Primary(p.body.key, |nodes|), q, p,
                  script, clock);
  }

  /** The write sends nothing: its PRIME probe, made from call number clock on, is not answered or finds no place, or it
      updates a key that is not live, or its value is too long. */
  ghost predicate Unsent(cfg: Config, nodes: seq<Node>, w: Write, script: Script, clock: nat)
    requires |nodes| > 0
  {
    var k := cfg.crypto.hash(w.key);
    var t := nodes[Primary(k, |nodes|)].prime;
    || !AllDelivered(script, clock, Fetches(t, k, 0)) || NoCandidate(t, k)
    || (w.updateOnly && PrimeLive(nodes, k) == None)
    || |w.value| > MAX_VALUE_SIZE
  }

  /** The guard of the key's slot in the table or, where it has none, of the first place the key may take. */
  ghost predicate GuardToMatch(t: SlotArray, k: nat, g: nat) {
    match SlotOf(t, k)
    case Some(s) => g == s.guard
    case None => exists i: nat :: Takes(t, k, i) && t[i].guard == g
  }

  /** The write offers slot p, at the epoch after g, which it found, from call number begin on; and p and the fates
      of its calls say what it reports. */
  ghost predicate Sends(cfg: Config, nodes: seq<Node>, w: Write, script: Script, begin: nat, g: nat, p: Slot,
                        r: Written)
    requires |nodes| > 0
  {
    var k := cfg.crypto.hash(w.key);
    && |w.value| <= MAX_VALUE_SIZE && p == Made(cfg.crypto, Call(w.key, w.value, w.tombstone, g + 1))
    && GuardToMatch(nodes[Primary(k, |nodes|)].prime, k, g) && ProposalReports(cfg, nodes, p, script, begin, r)
  }

  /** The call number at which a write begins to collect votes. */
  function Begin(cfg: Config, nodes: seq<Node>, w: Write, clock: nat): nat
    requires |nodes| > 0
  {
    var k := cfg.crypto.hash(w.key);
    clock + Fetches(nodes[Primary(k, |nodes|)].prime, k, 0)
  }

  ghost predicate WriteReport(cfg: Config, nodes: seq<Node>, w: Write, script: Script, clock: nat, r: Written)
    requires |nodes| > 0
  {
    if Unsent(cfg, nodes, w, script, clock) then r.rule == -1 && r.nodes == nodes
    else exists g: nat, p: Slot :: Sends(cfg, nodes, w, script, Begin(cfg, nodes, w, clock), g, p, r)
  }

  lemma FoundIsLive(t: SlotArray, k: nat, q: Probe)
    requires ProbeMeets(t, k, Some(q))
    ensures q.found && q.slot.Present(k) <==> LiveOf(t, k).Some?
    ensures GuardToMatch(t, k, q.cand.guard)
  {
    assert !q.found ==> Takes(t, k, q.candIndex);
  }

  /** Slot p, at the epoch after that of the probed q, is the one write w offers. */
  ghost predicate Offers(cfg: Config, nodes: seq<Node>, w: Write, q: Probe, p: Slot)
    requires |nodes| > 0
  {
    var k := cfg.crypto.hash(w.key);
    var t := nodes[Primary(k, |nodes|)].prime;
    && ProbeMeets(t, k, Some(q)) && GuardToMatch(t, k, q.cand.guard) && |w.value| <= MAX_VALUE_SIZE
    && p == Made(cfg.crypto, Call(w.key, w.value, w.tombstone, q.cand.guard + 1))
    && (w.updateOnly ==> q.found && q.slot.Present(k))
  }

  lemma SentOffers(cfg: Config, nodes: seq<Node>, w: Write, script: Script, clock: nat, q: Probe, p: Slot)
    requires NodesOk(nodes) && |nodes| > 0 && !Unsent(cfg, nodes, w, script, clock)
    requires var k := cfg.crypto.hash(w.key);
             ProbeSlot(nodes[Primary(k, |nodes|)].prime, k, script, clock).result == Some(q)
    requires p == Made(cfg.crypto, Call(w.key, w.value, w.tombstone, q.cand.guard + 1))
    ensures Offers(cfg, nodes, w, q, p)
  {
    var k := cfg.crypto.hash(w.key);
    var t := nodes[Primary(k, |nodes|)].prime;
    ProbeMeetsTable(t, k, script, clock);
    FoundIsLive(t, k, q);
  }

  lemma OfferProposes(cfg: Config, nodes: seq<Node>, w: Write, script: Script, clock: nat, q: Probe, p: Slot)
    requires |nodes| > 0 && Offers(cfg, nodes, w, q, p)
    requires var k := cfg.crypto.hash(w.key);
             ProbeSlot(nodes[Primary(k, |nodes|)].prime, k, script, clock).result == Some(q)
    ensures var k := cfg.crypto.hash(w.key);
            var prim := Primary(k, |nodes|);
            WriteValue(cfg, nodes, w, script, clock)
            == Propose(cfg, nodes, prim, q, p, script, ProbeSlot(nodes[prim].prime, k, script, clock).clock)
  {
    assert MakeSlot(cfg.crypto, w.key, w.value, w.tombstone, q.cand.guard + 1) == Some(p);
    WriteProposes(cfg, nodes, w, script, clock, q, p);
  }

  lemma OfferSends(cfg: Config, nodes: seq<Node>, w: Write, script: Script, clock: nat, q: Probe, p: Slot, begin: nat)
    requires NodesOk(nodes) && |nodes| > 0 && Offers(cfg, nodes, w, q, p)
    requires var k := cfg.crypto.hash(w.key);
             ProbeSlot(nodes[Primary(k, |nodes|)].prime, k, script, clock) == Probed(Some(q), begin)
    ensures Sends(cfg, nodes, w, script, begin, q.cand.guard, p, WriteValue(cfg, nodes, w, script, clock))
  {
    OfferProposes(cfg, nodes, w, script, clock, q, p);
    ProposeReports(cfg, nodes, q, p, script, begin);
  }

  lemma UnsentReports(cfg: Config, nodes: seq<Node>, w: Write, script: Script, clock: nat)
    requires NodesOk(nodes) && |nodes| > 0 && Unsent(cfg, nodes, w, script, clock)
    ensures WriteReport(cfg, nodes, w, script, clock, WriteValue(cfg, nodes, w, script, clock))
  {
    var k := cfg.crypto.hash(w.key);
    var t := nodes[Primary(k, |nodes|)].prime;
    ProbeExact(t, k, script, clock);
    ProbeMeetsTable(t, k, script, clock);
    var probed := ProbeSlot(t, k, script, clock);
    if probed.result.Some? {
      FoundIsLive(t, k, probed.result.value);
    }
  }

  lemma SentProbes(cfg: Config, nodes: seq<Node>, w: Write, script: Script, clock: nat) returns (q: Probe)
    requires NodesOk(nodes) && |nodes| > 0 && !Unsent(cfg, nodes, w, script, clock)
    ensures var k := cfg.crypto.hash(w.key);
            ProbeSlot(nodes[Primary(k, |nodes|)].prime, k, script, clock)
                == Probed(Some(q), Begin(cfg, nodes, w, clock))
    ensures Offers(cfg, nodes, w, q, Made(cfg.crypto, Call(w.key, w.value, w.tombstone, q.cand.guard + 1)))
  {
    var k := cfg.crypto.hash(w.key);
    var t := nodes[Primary(k, |nodes|)].prime;
    ProbeExact(t, k, script, clock);
    q := ProbeSlot(t, k, script, clock).result.value;
    SentOffers(cfg, nodes, w, script, clock, q, Made(cfg.crypto, Call(w.key, w.value, w.tombstone, q.cand.guard + 1)));
  }

  lemma SentSends(cfg: Config, nodes: seq<Node>, w: Write, script: Script, clock: nat) returns (g: nat, p: Slot)
    requires NodesOk(nodes) && |nodes| > 0 && !Unsent(cfg, nodes, w, script, clock)
    ensures Sends(cfg, nodes, w, script, Begin(cfg, nodes, w, clock), g, p, WriteValue(cfg, nodes, w, script, clock))
  {
    var q := SentProbes(cfg, nodes, w, script, clock);
    g, p := q.cand.guard, Made(cfg.crypto, Call(w.key, w.value, w.tombstone, q.cand.guard + 1));
    OfferSends(cfg, nodes, w, script, clock, q, p, Begin(cfg, nodes, w, clock));
  }

  /** A write reports just what the tables as it found them and the fates of its calls say. */
  lemma WriteReports(cfg: Config, nodes: seq<Node>, w: Write, script: Script, clock: nat)
    requires NodesOk(nodes) && |nodes| > 0
    ensures WriteReport(cfg, nodes, w, script, clock, WriteValue(cfg, nodes, w, script, clock))
  {
    if Unsent(cfg, nodes, w, script, clock) {
      UnsentReports(cfg, nodes, w, script, clock);
    } else {
      var g, p := SentSends(cfg, nodes, w, script, clock);
    }
  }

  /** A majority of won votes, or all where there are none to lose, gets a write through under rule 1 or 2 if the calls
      of its PRIME commit are answered. */
  ghost predicate MajorityPasses(cfg: Config, nodes: seq<Node>, k: nat, script: Script, begin: nat, rule: int)
    requires |nodes| > 0
  {
    var n := BackupCount(cfg, |nodes|);
    var won := |WonSet(nodes, k, script, begin, n)|;
    (&& (won == n || 2 * won > n) && !GivenUp(nodes, k, script, begin, 0, n)
     && CommitAnswered(script, ClockAt(nodes, k, script, begin, n)))
    ==> rule == if won == n then 1 else 2
  }

  /** A write that gets through under rule 3 has a tie-breaker below those, zeros aside, of the slots it was to
      overwrite where its vote was lost. */
  ghost predicate LowestPasses(cfg: Config, nodes: seq<Node>, w: Write, g: nat, script: Script, begin: nat, rule: int)
    requires |nodes| > 0
  {
    rule == 3 ==> Undercutting(nodes, cfg.crypto.hash(w.key), script, begin, BackupCount(cfg, |nodes|),
                               cfg.crypto.tieBreaker(w.key, w.value, g + 1))
  }

  lemma SendsPasses(cfg: Config, nodes: seq<Node>, w: Write, script: Script, begin: nat, g: nat, p: Slot, r: Written)
    requires |nodes| > 0 && Sends(cfg, nodes, w, script, begin, g, p, r)
    ensures MajorityPasses(cfg, nodes, cfg.crypto.hash(w.key), script, begin, r.rule)
    ensures LowestPasses(cfg, nodes, w, g, script, begin, r.rule)
  {
  }

  lemma RuleReports(cfg: Config, nodes: seq<Node>, w: Write, script: Script, clock: nat) returns (g: nat)
    requires NodesOk(nodes) && |nodes| > 0 && !Unsent(cfg, nodes, w, script, clock)
    ensures var k, begin, rule := cfg.crypto.hash(w.key), Begin(cfg, nodes, w, clock),
              WriteValue(cfg, nodes, w, script, clock).rule;
            && GuardToMatch(nodes[Primary(k, |nodes|)].prime, k, g)
            && MajorityPasses(cfg, nodes, k, script, begin, rule)
            && LowestPasses(cfg, nodes, w, g, script, begin, rule)
  {
    var p;
    g, p := SentSends(cfg, nodes, w, script, clock);
    SendsPasses(cfg, nodes, w, script, Begin(cfg, nodes, w, clock), g, p, WriteValue(cfg, nodes, w, script, clock));
  }

  // ------------------------------------------------------------------------------- reads

  /** The reply to a read that PRIME answers. */
  function PrimeReply(c: Crypto, nodes: seq<Node>, k: nat): Reply
    requires |nodes| > 0
  {
    match PrimeLive(nodes, k)
    case None => NotFound
    case Some(s) => match DecodeSlot(c, s) case None => Failed case Some(v) => Found(v)
  }

  /** The reply is what a live CACHE slot with the epoch of PRIME's decodes to. */
  ghost predicate FromCache(c: Crypto, nodes: seq<Node>, k: nat, reply: Reply)
    requires |nodes| > 0
  {
    exists s :: s in nodes[Primary(k, |nodes|)].cache && s.Present(k) && DecodeSlot(c, s).Some?
      && PrimeSlot(nodes, k).Some? && s.guard == PrimeSlot(nodes, k).value.guard
         && reply == Found(DecodeSlot(c, s).value)
  }

  /** A read errs if its probe of PRIME is not answered or finds no place for the key, whatever CACHE has. Otherwise it
      replies what PRIME says, or, with the cache on, what a CACHE slot of the same epoch does. */
  lemma ReadReports(cfg: Config, nodes: seq<Node>, key: string, script: Script, clock: nat)
    requires NodesOk(nodes) && |nodes| > 0
    ensures var k := cfg.crypto.hash(key);
            var t := nodes[Primary(k, |nodes|)].prime;
            var reply := ReadValue(cfg, nodes, key, script, clock).reply;
            if AllDelivered(script, clock, Fetches(t, k, 0)) && !NoCandidate(t, k)
            then reply == PrimeReply(cfg.crypto, nodes, k) || (cfg.cacheOn && FromCache(cfg.crypto, nodes, k, reply))
            else reply == Failed
  {
    var k := cfg.crypto.hash(key);
    var prim := Primary(k, |nodes|);
    var probed := ProbeSlot(nodes[prim].prime, k, script, clock);
    ProbeExact(nodes[prim].prime, k, script, clock);
    ProbeMeetsTable(nodes[prim].prime, k, script, clock);
    FoundIn(nodes[prim].cache, k, 0, NO_PROBE, script, probed.clock);
  }

  lemma {:induction false} FoundIn(t: SlotArray, k: nat, d: nat, p: Probe, script: Script, clock: nat)
    requires d <= |t| && (p.candValid ==> p.candIndex < |t|) && !p.found
    ensures var r := ProbeFrom(t, k, d, p, script, clock).result; r.Some? && r.value.found ==> r.value.slot in t
    decreases |t| - d
  {
    if d < |t| && script(clock) == Delivered {
      var i := Pos(Home(k, |t|), d, |t|);
      match Examine(p, i, t[i], k)
      case Halt(q) =>
      case More(q) => FoundIn(t, k, d + 1, q, script, clock + 1);
    }
  }

  // ---------------------------------------------------------------------- without a cache

  lemma SubmitLeavesCaches(cfg: Config, nodes: seq<Node>, w: Write, prim: nat, q: Probe, script: Script, clock: nat)
    requires prim < |nodes| && q.candIndex < |nodes[prim].prime| && !cfg.cacheOn
    ensures SameCaches(nodes, Submit(cfg, nodes, w, prim, q, script, clock).nodes)
  {
  }

  /** With the cache off a write changes no CACHE, and a read nothing at all. */
  lemma CacheOffIsLeft(cfg: Config, nodes: seq<Node>, w: Write, key: string, script: Script, clock: nat)
    requires |nodes| > 0 && !cfg.cacheOn
    ensures SameCaches(nodes, WriteValue(cfg, nodes, w, script, clock).nodes)
    ensures ReadValue(cfg, nodes, key, script, clock).nodes == nodes
  {
    var k := cfg.crypto.hash(w.key);
    var prim := Primary(k, |nodes|);
    var probed := ProbeSlot(nodes[prim].prime, k, script, clock);
    if probed.result.Some? {
      SubmitLeavesCaches(cfg, nodes, w, prim, probed.result.value, script, probed.clock);
    }
  }
}
