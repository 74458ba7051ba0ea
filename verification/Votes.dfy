/** The vote a writer takes over its backups before it may commit to the primary. */
module Votes {

  const UINT64_MAX: nat := 0xFFFF_FFFF_FFFF_FFFF

  datatype Vote = Vote(success: bool, observedTie: nat)

  const NO_VOTE: Vote := Vote(false, 0)

  function NoVotes(n: nat): (votes: seq<Vote>)
    ensures |votes| == n
  {
    seq(n, i => NO_VOTE)
  }

  function Successes(votes: seq<Vote>): (n: nat)
    ensures n <= |votes|
  {
    if votes == [] then 0
    else Successes(votes[..|votes| - 1]) + if votes[|votes| - 1].success then 1 else 0
  }

  /** The least tie-breaker seen in a slot a vote was lost to; zero words do not take part. */
  function MinOther(votes: seq<Vote>): nat {
    if votes == [] then UINT64_MAX
    else
      var v, m := votes[|votes| - 1], MinOther(votes[..|votes| - 1]);
      if !v.success && v.observedTie != 0 && v.observedTie < m then v.observedTie else m
  }

  /** The commit rule: 1 all, 2 majority, 3 tie-breaker, 0 lost. */
  function Rule(votes: seq<Vote>, myTie: nat): nat {
    if Successes(votes) == |votes| then 1
    else if Successes(votes) * 2 > |votes| then 2
    else if myTie < MinOther(votes) then 3
    else 0
  }

  method EvaluateVotes(votes: seq<Vote>, myTie: nat) returns (rule: nat)
    ensures rule == Rule(votes, myTie)
  {
    var success := 0;
    var minOther := UINT64_MAX;
    for idx := 0 to |votes|
      invariant success == Successes(votes[..idx])
      invariant minOther == MinOther(votes[..idx])
    {
      assert votes[..idx + 1][..idx] == votes[..idx];
      if votes[idx].success {
        success := success + 1;
      } else if votes[idx].observedTie != 0 && votes[idx].observedTie < minOther {
        minOther := votes[idx].observedTie;
      }
    }
    assert votes[..|votes|] == votes;
    if |votes| == 0 || success == |votes| {
      return 1;
    }
    if success * 2 > |votes| {
      return 2;
    }
    if myTie < minOther {
      return 3;
    }
    return 0;
  }

  // -------------------------------------------------------------- what the rule means

  predicate LostTo(v: Vote, tie: nat) {
    !v.success && v.observedTie != 0 && v.observedTie <= tie
  }

  lemma {:induction false} BelowMinOther(votes: seq<Vote>, myTie: nat)
    ensures myTie < MinOther(votes) <==> myTie < UINT64_MAX && forall i :: 0 <= i < |votes| ==> !LostTo(votes[i], myTie)
  {
    if votes != [] {
      BelowMinOther(votes[..|votes| - 1], myTie);
    }
  }

  lemma {:induction false} SuccessesAll(votes: seq<Vote>)
    ensures Successes(votes) == |votes| <==> forall i :: 0 <= i < |votes| ==> votes[i].success
  {
    if votes != [] {
      SuccessesAll(votes[..|votes| - 1]);
    }
  }

  /** Rule 1 is a full vote; rule 3 is no majority, but a tie-breaker below every one, zeros aside, that was met
      where a vote was lost; and the writer loses just when there is neither a majority nor that. */
  lemma RuleIff(votes: seq<Vote>, myTie: nat)
    ensures var r := Rule(votes, myTie);
            var all := forall i :: 0 <= i < |votes| ==> votes[i].success;
            var lowest := myTie < UINT64_MAX && forall i :: 0 <= i < |votes| ==> !LostTo(votes[i], myTie);
            && (r == 1 <==> all)
            && (r in {1, 2} <==> all || 2 * Successes(votes) > |votes|)
            && (r == 3 <==> !all && 2 * Successes(votes) <= |votes| && lowest)
            && (r == 0 <==> !all && 2 * Successes(votes) <= |votes| && !lowest)
  {
    BelowMinOther(votes, myTie);
    SuccessesAll(votes);
  }

  /** The successes are as many as there are votes won. */
  lemma {:induction false} SuccessesCount(votes: seq<Vote>)
    ensures Successes(votes) == |set i | 0 <= i < |votes| && votes[i].success|
  {
    var won := set i | 0 <= i < |votes| && votes[i].success;
    if votes == [] {
      assert won == {};
    } else {
      var n := |votes| - 1;
      var before := set i | 0 <= i < n && votes[..n][i].success;
      SuccessesCount(votes[..n]);
      assert won == before + if votes[n].success then {n} else {};
    }
  }

  lemma SuccessesOf(votes: seq<Vote>, won: set<nat>)
    requires forall i: nat :: i in won <==> i < |votes| && votes[i].success
    ensures Successes(votes) == |won|
  {
    SuccessesCount(votes);
    assert won == set i | 0 <= i < |votes| && votes[i].success;
  }

  // --------------------------------------------------------------- monotonicity

  lemma {:induction false} TurnVote(votes: seq<Vote>, i: nat)
    requires i < |votes| && !votes[i].success
    ensures Successes(votes[i := votes[i].(success := true)]) == Successes(votes) + 1
    ensures MinOther(votes[i := votes[i].(success := true)]) >= MinOther(votes)
  {
    var n := |votes| - 1;
    var turned := votes[i := votes[i].(success := true)];
    if i == n {
      assert turned[..n] == votes[..n];
    } else {
      TurnVote(votes[..n], i);
      assert turned[..n] == votes[..n][i := votes[i].(success := true)];
    }
  }

  /** Winning one more backup never loses a write that would have been allowed, nor weakens a full vote
      or a majority to the tie-breaker. */
  lemma RuleMonotone(votes: seq<Vote>, i: nat, myTie: nat)
    requires i < |votes| && !votes[i].success
    ensures var r, r' := Rule(votes, myTie), Rule(votes[i := votes[i].(success := true)], myTie);
            (r != 0 ==> 1 <= r' <= r)
  {
    TurnVote(votes, i);
  }

  // ---------------------------------------------------------------- exclusivity

  /** Contender c issues its CAS at backup b; the order of the events is the order in which the
      nodes carry them out. */
  datatype CasEvent = CasEvent(contender: nat, backup: nat)

  /** The guards after a run of CASes, each comparing with the guard all contenders probed. */
  function Guards(probed: seq<nat>, epoch: nat -> nat, run: seq<CasEvent>): (g: seq<nat>)
    ensures |g| == |probed|
  {
    if run == [] then probed
    else
      var g := Guards(probed, epoch, run[..|run| - 1]);
      var e := run[|run| - 1];
      if e.backup < |g| && g[e.backup] == probed[e.backup] then g[e.backup := epoch(e.contender)] else g
  }

  /** The j-th CAS of the run was the one that changed its guard. */
  predicate Won(probed: seq<nat>, epoch: nat -> nat, run: seq<CasEvent>, j: nat)
    requires j < |run|
  {
    var e := run[j];
    e.backup < |probed| && Guards(probed, epoch, run[..j])[e.backup] == probed[e.backup]
  }

  /** What contender c saw of the vote at backup b. */
  ghost predicate WonBackup(probed: seq<nat>, epoch: nat -> nat, run: seq<CasEvent>, c: nat, b: nat) {
    exists j :: 0 <= j < |run| && run[j] == CasEvent(c, b) && Won(probed, epoch, run, j)
  }

  lemma {:induction false} WonStays(probed: seq<nat>, epoch: nat -> nat, run: seq<CasEvent>, j: nat, m: nat)
    requires forall e :: e in run && e.backup < |probed| ==> epoch(e.contender) != probed[e.backup]
    requires j < m <= |run| && Won(probed, epoch, run, j)
    ensures Guards(probed, epoch, run[..m])[run[j].backup] != probed[run[j].backup]
  {
    assert run[..m][..m - 1] == run[..m - 1];
    if m == j + 1 {
      assert run[j] in run;
    } else {
      WonStays(probed, epoch, run, j, m - 1);
    }
  }

  /** A backup slot all contenders probed alike is won by one of them at most. */
  lemma OneWinnerPerBackup(probed: seq<nat>, epoch: nat -> nat, run: seq<CasEvent>, c: nat, d: nat, b: nat)
    requires forall e :: e in run && e.backup < |probed| ==> epoch(e.contender) != probed[e.backup]
    requires WonBackup(probed, epoch, run, c, b) && WonBackup(probed, epoch, run, d, b)
    ensures c == d
  {
    var i :| 0 <= i < |run| && run[i] == CasEvent(c, b) && Won(probed, epoch, run, i);
    var j :| 0 <= j < |run| && run[j] == CasEvent(d, b) && Won(probed, epoch, run, j);
    if i < j {
      WonStays(probed, epoch, run, i, j);
    } else if j < i {
      WonStays(probed, epoch, run, j, i);
    }
  }

  lemma {:induction false} DisjointSuccesses(v: seq<Vote>, w: seq<Vote>)
    requires |v| == |w| && forall b :: 0 <= b < |v| ==> !(v[b].success && w[b].success)
    ensures Successes(v) + Successes(w) <= |v|
  {
    if v != [] {
      DisjointSuccesses(v[..|v| - 1], w[..|w| - 1]);
    }
  }

  /** Among contenders that probed the same backup slots before any of them committed, at most one
      wins all backups or a majority of them, in whatever order their commits are carried out. */
  lemma MajorityExclusive(probed: seq<nat>, epoch: nat -> nat, run: seq<CasEvent>,
                          c: nat, d: nat, v: seq<Vote>, w: seq<Vote>, tieC: nat, tieD: nat)
    requires |v| == |w| == |probed| >= 1 && c != d
    requires forall e :: e in run && e.backup < |probed| ==> epoch(e.contender) != probed[e.backup]
    requires forall b :: 0 <= b < |probed| ==> (v[b].success <==> WonBackup(probed, epoch, run, c, b))
    requires forall b :: 0 <= b < |probed| ==> (w[b].success <==> WonBackup(probed, epoch, run, d, b))
    ensures Rule(v, tieC) in {1, 2} ==> Rule(w, tieD) in {0, 3}
  {
    forall b | 0 <= b < |probed| ensures !(v[b].success && w[b].success) {
      if v[b].success && w[b].success {
        OneWinnerPerBackup(probed, epoch, run, c, d, b);
      }
    }
    DisjointSuccesses(v, w);
  }

  // ------------------------------------------------------- when two contenders pass

  /** The votes of contender c: won where its CAS succeeded; where it did not, with the tie-breaker of the slot it had
      probed there, which is nobody's but that of the slot to be overwritten. */
  ghost predicate Ballot(probed: seq<nat>, ties: seq<nat>, epoch: nat -> nat, run: seq<CasEvent>, c: nat,
                         v: seq<Vote>) {
    && |v| == |probed| == |ties|
    && forall b :: 0 <= b < |v| ==>
         && (v[b].success <==> WonBackup(probed, epoch, run, c, b))
         && (!v[b].success ==> v[b].observedTie == ties[b])
  }

  /** Contender c won all backups or a majority of them. */
  ghost predicate Prevails(probed: seq<nat>, v: seq<Vote>) {
    (forall b :: 0 <= b < |v| ==> v[b].success) || 2 * Successes(v) > |probed|
  }

  /** Its tie-breaker is below every one, zeros aside, of the slots at the backups it did not win. */
  ghost predicate Undercuts(ties: seq<nat>, probed: seq<nat>, epoch: nat -> nat, run: seq<CasEvent>, c: nat, tie: nat) {
    tie < UINT64_MAX
    && forall b :: 0 <= b < |ties| && !WonBackup(probed, epoch, run, c, b) && ties[b] != 0 ==> tie < ties[b]
  }

  /** A contender gets through to the primary just when it prevails or undercuts. */
  lemma PassesIff(probed: seq<nat>, ties: seq<nat>, epoch: nat -> nat, run: seq<CasEvent>, c: nat, v: seq<Vote>,
                  tie: nat)
    requires Ballot(probed, ties, epoch, run, c, v)
    ensures Rule(v, tie) > 0 <==> Prevails(probed, v) || Undercuts(ties, probed, epoch, run, c, tie)
  {
    RuleIff(v, tie);
    if Undercuts(ties, probed, epoch, run, c, tie) {
      assert forall b :: 0 <= b < |v| ==> !LostTo(v[b], tie);
    }
    if forall b :: 0 <= b < |v| ==> !LostTo(v[b], tie) {
      assert forall b :: 0 <= b < |v| && !v[b].success ==> !LostTo(v[b], tie);
    }
  }

  ghost predicate Contested(probed: seq<nat>, epoch: nat -> nat, run: seq<CasEvent>) {
    |probed| >= 1 && forall e :: e in run && e.backup < |probed| ==> epoch(e.contender) != probed[e.backup]
  }

  lemma OnePrevails(probed: seq<nat>, ties: seq<nat>, epoch: nat -> nat, run: seq<CasEvent>,
                    c: nat, d: nat, v: seq<Vote>, w: seq<Vote>)
    requires Contested(probed, epoch, run) && c != d
    requires Ballot(probed, ties, epoch, run, c, v) && Ballot(probed, ties, epoch, run, d, w)
    ensures !(Prevails(probed, v) && Prevails(probed, w))
  {
    MajorityExclusive(probed, epoch, run, c, d, v, w, 0, 0);
    RuleIff(v, 0);
    RuleIff(w, 0);
  }

  /** Two contenders get through together just when one of them undercuts and the other undercuts or prevails; two that
      prevail there are not. */
  lemma BothPassIff(probed: seq<nat>, ties: seq<nat>, epoch: nat -> nat, run: seq<CasEvent>,
                    c: nat, d: nat, v: seq<Vote>, w: seq<Vote>, tieC: nat, tieD: nat)
    requires Contested(probed, epoch, run) && c != d
    requires Ballot(probed, ties, epoch, run, c, v) && Ballot(probed, ties, epoch, run, d, w)
    ensures var lowC := Undercuts(ties, probed, epoch, run, c, tieC);
            var lowD := Undercuts(ties, probed, epoch, run, d, tieD);
            Rule(v, tieC) > 0 && Rule(w, tieD) > 0
            <==> (lowC && lowD) || (lowC && Prevails(probed, w)) || (Prevails(probed, v) && lowD)
  {
    PassesIff(probed, ties, epoch, run, c, v, tieC);
    PassesIff(probed, ties, epoch, run, d, w, tieD);
    OnePrevails(probed, ties, epoch, run, c, d, v, w);
  }

  // ------------------------------------------------------------------------ witnesses

  /** The contenders propose epoch 2 where the slots carry 1. */
  function Two(contender: nat): nat {
    2
  }

  /** Of two backups with probed tie-breaker 9, contender 0 reaches the first before contender 1 does; the second
      falls to contender 0 too if it is there first, and otherwise to contender 1. */
  function Race(sweep: bool): seq<CasEvent> {
    if sweep then [CasEvent(0, 0), CasEvent(0, 1), CasEvent(1, 0), CasEvent(1, 1)]
    else [CasEvent(0, 0), CasEvent(1, 1), CasEvent(0, 1), CasEvent(1, 0)]
  }

  lemma RaceGuards(sweep: bool)
    ensures var run := Race(sweep);
            && Won([1, 1], Two, run, 0) && Won([1, 1], Two, run, 1)
            && !Won([1, 1], Two, run, 2) && !Won([1, 1], Two, run, 3)
  {
    var run := Race(sweep);
    assert run[..0] == [] && run[..1] == [run[0]] && run[..2] == [run[0], run[1]]
           && run[..3] == [run[0], run[1], run[2]];
    assert run[..1][..0] == [] && run[..2][..1] == run[..1] && run[..3][..2] == run[..2];
    assert Guards([1, 1], Two, run[..0]) == [1, 1];
    assert Guards([1, 1], Two, run[..1]) == [2, 1];
    assert Guards([1, 1], Two, run[..2]) == [2, 2];
    assert Guards([1, 1], Two, run[..3]) == [2, 2];
  }

  function RaceVotes(sweep: bool, c: nat): seq<Vote> {
    [Vote(c == 0, 9), Vote(if sweep then c == 0 else c == 1, 9)]
  }

  lemma RaceBallot(sweep: bool, c: nat)
    requires c < 2
    ensures Ballot([1, 1], [9, 9], Two, Race(sweep), c, RaceVotes(sweep, c))
  {
    var run, v := Race(sweep), RaceVotes(sweep, c);
    RaceGuards(sweep);
    forall b | 0 <= b < 2 ensures v[b].success <==> WonBackup([1, 1], Two, run, c, b) {
      if v[b].success {
        assert run[b] == CasEvent(c, b) && Won([1, 1], Two, run, b);
      } else {
        assert forall j :: 0 <= j < 4 && run[j] == CasEvent(c, b) ==> !Won([1, 1], Two, run, j);
      }
    }
  }

  lemma RaceRule(v: seq<Vote>, tie: nat)
    requires |v| == 2 && v[0].observedTie == v[1].observedTie == 9 && tie < 9
    ensures Rule(v, tie) == if v[0].success && v[1].success then 1 else 3
  {
    assert v[..1][..0] == [] && v[..1][0] == v[0];
    RuleIff(v, tie);
  }

  /** The tie-breaker rule is not exclusive: in a split vote both contenders pass by it, and one that lost every
      backup passes beside one that won them all. */
  lemma TieBreakNotExclusive(sweep: bool)
    ensures Contested([1, 1], Two, Race(sweep))
    ensures Ballot([1, 1], [9, 9], Two, Race(sweep), 0, RaceVotes(sweep, 0))
    ensures Ballot([1, 1], [9, 9], Two, Race(sweep), 1, RaceVotes(sweep, 1))
    ensures Rule(RaceVotes(sweep, 0), 7) == (if sweep then 1 else 3) && Rule(RaceVotes(sweep, 1), 5) == 3
  {
    RaceBallot(sweep, 0);
    RaceBallot(sweep, 1);
    RaceRule(RaceVotes(sweep, 0), 7);
    RaceRule(RaceVotes(sweep, 1), 5);
  }
}
