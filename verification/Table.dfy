/** One open-addressing slot array: linear probing, tombstone reuse, and the
    two-word commit. Everything here is about one region kind of one node. */
module Table {
  import opened Slots

  type SlotArray = seq<Slot>

  // ---------------------------------------------------------------- positions

  function Home(k: nat, n: nat): (h: nat)
    ensures n > 0 ==> h < n
  {
    if n == 0 then 0 else k % n
  }

  /** The slot a scan starting at h looks at in its d-th round. */
  function Pos(h: nat, d: nat, n: nat): (i: nat)
    requires h < n && d < n
    ensures i < n && i == (h + d) % n
  {
    if h + d < n then h + d else h + d - n
  }

  /** The round in which a scan starting at h looks at slot i. */
  function Off(h: nat, i: nat, n: nat): (d: nat)
    requires h < n && i < n
    ensures d < n && Pos(h, d, n) == i
  {
    if i >= h then i - h else i + n - h
  }

  lemma ModShift(x: nat, d: nat, n: nat)
    requires n > 0 && d < n
    ensures (x + d) % n == if x % n + d < n then x % n + d else x % n + d - n
  {
    var q := x / n;
    assert x + d == q * n + (x % n + d);
    if x % n + d < n {
      ModIs(x + d, n, q, x % n + d);
    } else {
      ModIs(x + d, n, q + 1, x % n + d - n);
    }
  }

  lemma ModIs(x: nat, n: nat, q: nat, r: nat)
    requires r < n && x == q * n + r
    ensures x % n == r
  {
    var e: int := x / n - q;
    assert e * n == r - x % n;
    assert e >= 1 ==> e * n >= n;
    assert e <= -1 ==> e * n <= 0 - n;
  }

  /** Keys spread evenly over a table: of as many consecutive hashes as there are slots, no two have the same home,
      and each slot is the home of one. */
  lemma HomesSpread(k: nat, n: nat, d: nat, e: nat) returns (f: nat)
    requires d < n && e < n
    ensures Home(k + d, n) == Home(k + e, n) <==> d == e
    ensures f < n && Home(k + f, n) == d
  {
    ModShift(k, d, n);
    ModShift(k, e, n);
    f := if d >= k % n then d - k % n else d + n - k % n;
    ModShift(k, f, n);
  }

  // ------------------------------------------------------------------- probing

  datatype Probe = Probe(found: bool, slot: Slot, slotIndex: nat,
                         candValid: bool, cand: Slot, candIndex: nat)

  const NO_PROBE: Probe := Probe(false, ZERO_SLOT, 0, false, ZERO_SLOT, 0)

  datatype Scan = More(probe: Probe) | Halt(probe: Probe)

  function Remember(p: Probe, i: nat, s: Slot): Probe {
    if p.candValid then p else p.(candValid := true, cand := s, candIndex := i)
  }

  /** One round of the probe loop: slot i was fetched and holds s. */
  function Examine(p: Probe, i: nat, s: Slot, k: nat): Scan {
    if !s.Stable() then More(p)
    else if s.body.valid && s.body.key == k then Halt(Probe(true, s, i, true, s, i))
    else if s.body.valid && s.body.tombstone then More(Remember(p, i, s))
    else if s.IsEmpty() then Halt(Remember(p, i, s))
    else More(p)
  }

  datatype Probed = Probed(result: Option<Probe>, clock: nat)

  /** The rest of a probe for k from round d on, with probe state p; a fetch that is not
      answered ends it with an error. */
  function ProbeFrom(t: SlotArray, k: nat, d: nat, p: Probe, script: Script, clock: nat): (r: Probed)
    requires d <= |t| && (p.candValid ==> p.candIndex < |t|)
    ensures r.result.Some? ==> r.result.value.candValid && r.result.value.candIndex < |t|
    decreases |t| - d
  {
    if d == |t| then Probed(if p.candValid then Some(p) else None, clock)
    else if script(clock) != Delivered then Probed(None, clock + 1)
    else
      var i := Pos(Home(k, |t|), d, |t|);
      match Examine(p, i, t[i], k)
      case Halt(q) => Probed(Some(q), clock + 1)
      case More(q) => ProbeFrom(t, k, d + 1, q, script, clock + 1)
  }

  function ProbeSlot(t: SlotArray, k: nat, script: Script, clock: nat): (r: Probed)
    ensures r.result.Some? ==> r.result.value.candIndex < |t|
  {
    ProbeFrom(t, k, 0, NO_PROBE, script, clock)
  }

  // --------------------------------------------------------------- table state

  predicate SlotOk(s: Slot) {
    s.IsEmpty() || (s.body.valid && s.body.visible >= 1)
  }

  /** No empty slot between a key's home and slot i. */
  predicate ChainTo(t: SlotArray, k: nat, i: nat)
    requires i < |t|
  {
    var h := Home(k, |t|);
    forall d :: 0 <= d < Off(h, i, |t|) ==> !t[Pos(h, d, |t|)].IsEmpty()
  }

  /** Every written slot, half-committed or not, is reachable from the home of its key. */
  predicate Chained(t: SlotArray) {
    forall i :: 0 <= i < |t| && t[i].body.valid ==> ChainTo(t, t[i].body.key, i)
  }

  predicate OneSlotPerKey(t: SlotArray) {
    forall i, j :: 0 <= i < |t| && 0 <= j < |t| && t[i].Holds(t[i].body.key) && t[j].Holds(t[i].body.key) ==> i == j
  }

  predicate TableOk(t: SlotArray) {
    && (forall i :: 0 <= i < |t| ==> SlotOk(t[i]))
    && Chained(t)
    && OneSlotPerKey(t)
  }

  /** The first stable slot of k at or after i. */
  function SlotFrom(t: SlotArray, k: nat, i: nat): Option<Slot>
    requires i <= |t|
    decreases |t| - i
  {
    if i == |t| then None
    else if t[i].Holds(k) then Some(t[i])
    else SlotFrom(t, k, i + 1)
  }

  /** The stable slot of a key, if it has one. */
  function SlotOf(t: SlotArray, k: nat): Option<Slot> {
    SlotFrom(t, k, 0)
  }

  function LiveOf(t: SlotArray, k: nat): Option<Slot> {
    match SlotOf(t, k)
    case None => None
    case Some(s) => if s.body.tombstone then None else Some(s)
  }

  lemma {:induction false} SlotFromAt(t: SlotArray, k: nat, i: nat, j: nat)
    requires OneSlotPerKey(t) && i <= j < |t| && t[j].Holds(k)
    ensures SlotFrom(t, k, i) == Some(t[j])
    decreases |t| - i
  {
    if t[i].Holds(k) {
      assert t[i].Holds(t[i].body.key);
    } else {
      SlotFromAt(t, k, i + 1, j);
    }
  }

  lemma SlotOfAt(t: SlotArray, k: nat, i: nat)
    requires OneSlotPerKey(t) && i < |t| && t[i].Holds(k)
    ensures SlotOf(t, k) == Some(t[i])
  {
    SlotFromAt(t, k, 0, i);
  }

  lemma {:induction false} SlotFromNone(t: SlotArray, k: nat, i: nat)
    requires i <= |t|
    ensures SlotFrom(t, k, i) == None <==> forall j :: i <= j < |t| ==> !t[j].Holds(k)
    decreases |t| - i
  {
    if i < |t| {
      SlotFromNone(t, k, i + 1);
    }
  }

  /** A key has no stable slot just when no slot of the table holds it. */
  lemma SlotOfNone(t: SlotArray, k: nat)
    ensures SlotOf(t, k) == None <==> forall j :: 0 <= j < |t| ==> !t[j].Holds(k)
  {
    SlotFromNone(t, k, 0);
  }

  // ------------------------------------------------------- what a probe reports

  ghost predicate NoCandidate(t: SlotArray, k: nat) {
    forall i :: 0 <= i < |t| ==> !t[i].IsEmpty() && !t[i].Reusable() && !t[i].Holds(k)
  }

  /** No stable tombstone between the home of k and slot i. */
  ghost predicate FirstPlace(t: SlotArray, k: nat, i: nat)
    requires i < |t|
  {
    var h := Home(k, |t|);
    forall d :: 0 <= d < Off(h, i, |t|) ==> !t[Pos(h, d, |t|)].Reusable()
  }

  /** The whole meaning of an answered probe: the key's slot, or else the first place the key may take. */
  ghost predicate ProbeMeets(t: SlotArray, k: nat, r: Option<Probe>) {
    match r
    case None => NoCandidate(t, k)
    case Some(q) =>
      && q.candValid && q.candIndex < |t| && q.cand == t[q.candIndex]
      && ChainTo(t, k, q.candIndex)
      && (q.found ==> q.slot == q.cand && q.slotIndex == q.candIndex && q.cand.Holds(k) && SlotOf(t, k) == Some(q.slot))
      && (!q.found ==> SlotOf(t, k) == None && (q.cand.IsEmpty() || q.cand.Reusable()) && FirstPlace(t, k, q.candIndex))
  }

  ghost predicate ScanInv(t: SlotArray, k: nat, d: nat, p: Probe)
    requires d <= |t|
  {
    var h := Home(k, |t|);
    && !p.found
    && (forall e :: 0 <= e < d ==> !t[Pos(h, e, |t|)].IsEmpty() && !t[Pos(h, e, |t|)].Holds(k))
    && (p.candValid ==>
          && p.candIndex < |t| && p.cand == t[p.candIndex] && p.cand.Reusable()
          && Off(h, p.candIndex, |t|) < d && FirstPlace(t, k, p.candIndex))
    && (!p.candValid ==> forall e :: 0 <= e < d ==> !t[Pos(h, e, |t|)].Reusable())
  }

  lemma ScannedAll(t: SlotArray, k: nat, p: Probe)
    requires ScanInv(t, k, |t|, p)
    ensures forall i :: 0 <= i < |t| ==> !t[i].IsEmpty() && !t[i].Holds(k) && (!p.candValid ==> !t[i].Reusable())
  {
    forall i | 0 <= i < |t|
      ensures !t[i].IsEmpty() && !t[i].Holds(k) && (!p.candValid ==> !t[i].Reusable())
    {
      var d := Off(Home(k, |t|), i, |t|);
      assert t[Pos(Home(k, |t|), d, |t|)] == t[i];
    }
  }

  lemma StoppedAtEmpty(t: SlotArray, k: nat, d: nat, p: Probe)
    requires TableOk(t) && d < |t| && ScanInv(t, k, d, p)
    requires t[Pos(Home(k, |t|), d, |t|)].IsEmpty()
    ensures SlotOf(t, k) == None
  {
    var h := Home(k, |t|);
    forall i | 0 <= i < |t| ensures !t[i].Holds(k) {
      var e := Off(h, i, |t|);
      assert t[Pos(h, e, |t|)] == t[i];
      assert t[i].Holds(k) ==> ChainTo(t, k, i);
    }
    SlotOfNone(t, k);
  }

  lemma HaltMeets(t: SlotArray, k: nat, d: nat, p: Probe)
    requires TableOk(t) && d < |t| && ScanInv(t, k, d, p)
    requires var i := Pos(Home(k, |t|), d, |t|); Examine(p, i, t[i], k).Halt?
    ensures var i := Pos(Home(k, |t|), d, |t|); ProbeMeets(t, k, Some(Examine(p, i, t[i], k).probe))
  {
    var h := Home(k, |t|);
    var i := Pos(h, d, |t|);
    var q := Examine(p, i, t[i], k).probe;
    assert Off(h, i, |t|) == d;
    assert ChainTo(t, k, q.candIndex);
    if q.found {
      SlotOfAt(t, k, i);
    } else {
      StoppedAtEmpty(t, k, d, p);
    }
  }

  lemma ScanAdvances(t: SlotArray, k: nat, d: nat, p: Probe)
    requires d < |t| && ScanInv(t, k, d, p)
    requires var i := Pos(Home(k, |t|), d, |t|); Examine(p, i, t[i], k).More?
    ensures var i := Pos(Home(k, |t|), d, |t|); ScanInv(t, k, d + 1, Examine(p, i, t[i], k).probe)
  {
    assert Off(Home(k, |t|), Pos(Home(k, |t|), d, |t|), |t|) == d;
  }

  lemma ScannedAllMeets(t: SlotArray, k: nat, p: Probe)
    requires ScanInv(t, k, |t|, p)
    ensures ProbeMeets(t, k, if p.candValid then Some(p) else None)
  {
    ScannedAll(t, k, p);
    SlotOfNone(t, k);
  }

  lemma {:induction false} ProbeFromMeets(t: SlotArray, k: nat, d: nat, p: Probe, script: Script, clock: nat)
    requires TableOk(t) && d <= |t| && ScanInv(t, k, d, p)
    ensures var r := ProbeFrom(t, k, d, p, script, clock);
            (r.result.Some? || ReliableFrom(script, clock)) ==> ProbeMeets(t, k, r.result)
    decreases |t| - d
  {
    if d == |t| {
      ScannedAllMeets(t, k, p);
    } else if script(clock) == Delivered {
      var i := Pos(Home(k, |t|), d, |t|);
      match Examine(p, i, t[i], k)
      case Halt(q) => HaltMeets(t, k, d, p);
      case More(q) =>
        ScanAdvances(t, k, d, p);
        ProbeFromMeets(t, k, d + 1, q, script, clock + 1);
    }
  }

  /** An answered probe of a table in order finds exactly the key's slot, or the first place
      the key may be put, or reports that there is none. */
  lemma ProbeMeetsTable(t: SlotArray, k: nat, script: Script, clock: nat)
    requires TableOk(t)
    ensures var r := ProbeSlot(t, k, script, clock);
            (r.result.Some? || ReliableFrom(script, clock)) ==> ProbeMeets(t, k, r.result)
  {
    ProbeFromMeets(t, k, 0, NO_PROBE, script, clock);
  }

  // ---------------------------------------------------------- what a probe fetches

  /** A scan for k ends at slot s. */
  predicate Stops(s: Slot, k: nat) {
    s.Holds(k) || s.IsEmpty()
  }

  /** The fetches a scan for k makes from round d on, if all are answered. */
  function Fetches(t: SlotArray, k: nat, d: nat): (n: nat)
    requires d <= |t|
    ensures n <= |t| - d
    decreases |t| - d
  {
    if d == |t| then 0
    else if Stops(t[Pos(Home(k, |t|), d, |t|)], k) then 1
    else 1 + Fetches(t, k, d + 1)
  }

  /** It fetches up to the first slot that is empty or holds the key, and all slots where there is none. */
  lemma {:induction false} FetchesMeaning(t: SlotArray, k: nat, d: nat)
    requires d <= |t|
    ensures var n := Fetches(t, k, d);
            && (forall e :: d <= e < d + n - 1 ==> !Stops(t[Pos(Home(k, |t|), e, |t|)], k))
            && (d + n < |t| ==> n > 0 && Stops(t[Pos(Home(k, |t|), d + n - 1, |t|)], k))
    decreases |t| - d
  {
    if d < |t| && !Stops(t[Pos(Home(k, |t|), d, |t|)], k) {
      FetchesMeaning(t, k, d + 1);
    }
  }

  ghost predicate AllDelivered(script: Script, clock: nat, n: nat) {
    forall j :: clock <= j < clock + n ==> script(j) == Delivered
  }

  /** What a scan comes to whose fetches are all answered: told from the table alone. */
  function ScanResult(t: SlotArray, k: nat, d: nat, p: Probe): Option<Probe>
    requires d <= |t| && (p.candValid ==> p.candIndex < |t|)
    decreases |t| - d
  {
    if d == |t| then (if p.candValid then Some(p) else None)
    else
      var i := Pos(Home(k, |t|), d, |t|);
      match Examine(p, i, t[i], k)
      case Halt(q) => Some(q)
      case More(q) => ScanResult(t, k, d + 1, q)
  }

  /** A scan whose fetches are all answered makes just those calls, and its result depends on the table alone;
      otherwise it ends, with an error, with the first one that is not. */
  lemma {:induction false} ProbeFromExact(t: SlotArray, k: nat, d: nat, p: Probe, script: Script, clock: nat)
    requires d <= |t| && (p.candValid ==> p.candIndex < |t|)
    ensures var n, r := Fetches(t, k, d), ProbeFrom(t, k, d, p, script, clock);
            if AllDelivered(script, clock, n) then r == Probed(ScanResult(t, k, d, p), clock + n)
            else r.result == None && clock < r.clock <= clock + n && script(r.clock - 1) != Delivered
                 && AllDelivered(script, clock, r.clock - 1 - clock)
    decreases |t| - d
  {
    if d < |t| {
      var i := Pos(Home(k, |t|), d, |t|);
      match Examine(p, i, t[i], k)
      case Halt(q) =>
      case More(q) => ProbeFromExact(t, k, d + 1, q, script, clock + 1);
    }
  }

  /** A probe is answered just when all its fetches are and there is a candidate; and it makes no other calls. */
  lemma ProbeExact(t: SlotArray, k: nat, script: Script, clock: nat)
    requires TableOk(t)
    ensures var n, r := Fetches(t, k, 0), ProbeSlot(t, k, script, clock);
            && (r.result.Some? <==> AllDelivered(script, clock, n) && !NoCandidate(t, k))
            && (if AllDelivered(script, clock, n) then r.clock == clock + n
                else clock < r.clock <= clock + n && script(r.clock - 1) != Delivered
                     && AllDelivered(script, clock, r.clock - 1 - clock))
  {
    ProbeFromExact(t, k, 0, NO_PROBE, script, clock);
    ProbeFromExact(t, k, 0, NO_PROBE, i => Delivered, 0);
    ProbeMeetsTable(t, k, i => Delivered, 0);
  }

  // ---------------------------------------------------------------- committing

  function WriteBody(t: SlotArray, i: nat, b: Body): SlotArray
    requires i < |t|
  {
    t[i := Slot(t[i].guard, b)]
  }

  function CasGuard(t: SlotArray, i: nat, compare: nat, swap: nat): SlotArray
    requires i < |t|
  {
    if t[i].guard == compare then t[i := Slot(swap, t[i].body)] else t
  }

  datatype Committed = Committed(table: SlotArray, ok: bool, observed: nat, clock: nat)

  /** Body write, then CAS on the guard; either call may be lost before or after it acts. */
  function CommitSlot(t: SlotArray, i: nat, p: Slot, compare: nat, script: Script, clock: nat): (r: Committed)
    requires i < |t|
    ensures |r.table| == |t|
  {
    match script(clock)
    case Dropped => Committed(t, false, 0, clock + 1)
    case ReplyLost => Committed(WriteBody(t, i, p.body), false, 0, clock + 1)
    case Delivered =>
      var t1 := WriteBody(t, i, p.body);
      var t2 := CasGuard(t1, i, compare, p.body.visible);
      match script(clock + 1)
      case Dropped => Committed(t1, false, 0, clock + 2)
      case ReplyLost => Committed(t2, false, 0, clock + 2)
      case Delivered => Committed(t2, true, t1[i].guard, clock + 2)
  }

  /** A commit changes a guard only over its own body, and only after its body write was answered; and it is answered
      itself just when both its calls are. */
  lemma CommitExact(t: SlotArray, i: nat, p: Slot, compare: nat, script: Script, clock: nat)
    requires i < |t|
    ensures var r := CommitSlot(t, i, p, compare, script, clock);
            && (forall j :: 0 <= j < |t| && j != i ==> r.table[j] == t[j])
            && (r.table[i].guard != t[i].guard ==>
                  r.table[i].body == p.body && r.table[i].guard == p.body.visible && t[i].guard == compare
                  && script(clock) == Delivered && script(clock + 1) != Dropped)
            && (r.ok <==> script(clock) == Delivered && script(clock + 1) == Delivered)
            && (r.ok ==> r.observed == t[i].guard)
            && r.clock == (if script(clock) == Delivered then clock + 2 else clock + 1)
  {
  }

  /** How a table may differ after one attempt to store proposal p. */
  ghost predicate Attempted(t: SlotArray, t': SlotArray, p: Slot) {
    var k := p.body.key;
    && |t'| == |t|
    && TableOk(t')
    && (forall k2 :: k2 != k ==> LiveOf(t', k2) == LiveOf(t, k2))
    && (SlotOf(t', k) == SlotOf(t, k) || SlotOf(t', k) == None || SlotOf(t', k) == Some(p))
  }

  lemma AttemptedNothing(t: SlotArray, p: Slot)
    requires TableOk(t)
    ensures Attempted(t, t, p)
  {
  }

  /** Overwriting the probed candidate with any word in its guard. */
  lemma OverwriteCandidate(t: SlotArray, q: Probe, p: Slot, g: nat)
    requires TableOk(t) && IsProposal(p) && ProbeMeets(t, p.body.key, Some(q))
    ensures Attempted(t, t[q.candIndex := Slot(g, p.body)], p)
    ensures g == p.body.visible ==> SlotOf(t[q.candIndex := Slot(g, p.body)], p.body.key) == Some(p)
  {
    var k, c := p.body.key, q.candIndex;
    var s := Slot(g, p.body);
    var t' := t[c := s];
    assert forall i :: 0 <= i < |t| && t[i].Holds(k) ==> i == c by {
      forall i | 0 <= i < |t| && t[i].Holds(k) ensures i == c {
        SlotOfAt(t, k, i);
        assert q.found;
        assert t[c].Holds(k) && t[c].Holds(t[c].body.key);
      }
    }
    forall i | 0 <= i < |t'| && t'[i].body.valid ensures ChainTo(t', t'[i].body.key, i) {
      if i != c {
        assert ChainTo(t, t[i].body.key, i);
      }
    }
    assert OneSlotPerKey(t') by {
      forall i, j | 0 <= i < |t'| && 0 <= j < |t'| && t'[i].Holds(t'[i].body.key) && t'[j].Holds(t'[i].body.key)
        ensures i == j
      {
      }
    }
    assert TableOk(t');
    forall k2 | k2 != k ensures LiveOf(t', k2) == LiveOf(t, k2) {
      LiveElsewhere(t, t', c, k2);
    }
    if s.Holds(k) {
      assert s == p;
      SlotOfAt(t', k, c);
    } else {
      SlotOfNone(t', k);
    }
  }

  lemma LiveElsewhere(t: SlotArray, t': SlotArray, c: nat, k2: nat)
    requires TableOk(t) && TableOk(t') && c < |t| == |t'|
    requires forall i :: 0 <= i < |t| && i != c ==> t'[i] == t[i]
    requires !t[c].Present(k2) && !t'[c].Holds(k2)
    ensures LiveOf(t', k2) == LiveOf(t, k2)
  {
    SlotOfNone(t, k2);
    SlotOfNone(t', k2);
    if i :| 0 <= i < |t| && t[i].Holds(k2) {
      SlotOfAt(t, k2, i);
    }
    if j :| 0 <= j < |t'| && t'[j].Holds(k2) {
      SlotOfAt(t', k2, j);
    }
    if i :| 0 <= i < |t| && t[i].Present(k2) {
      SlotOfAt(t, k2, i);
      SlotOfAt(t', k2, i);
    }
  }

  /** A commit to the probed candidate: order is kept, no other live key changes, the key ends
      with its old slot, none, or the proposal, and with the proposal when the commit is answered. */
  lemma CommitAttempts(t: SlotArray, q: Probe, p: Slot, script: Script, clock: nat)
    requires TableOk(t) && IsProposal(p) && ProbeMeets(t, p.body.key, Some(q))
    ensures var r := CommitSlot(t, q.candIndex, p, q.cand.guard, script, clock);
            && Attempted(t, r.table, p)
            && (r.ok ==> r.observed == q.cand.guard && SlotOf(r.table, p.body.key) == Some(p))
  {
    var c := q.candIndex;
    OverwriteCandidate(t, q, p, t[c].guard);
    OverwriteCandidate(t, q, p, p.body.visible);
    AttemptedNothing(t, p);
    var t1 := WriteBody(t, c, p.body);
    assert t1 == t[c := Slot(t[c].guard, p.body)];
    assert CasGuard(t1, c, q.cand.guard, p.body.visible) == t[c := Slot(p.body.visible, p.body)];
  }

  /** A second attempt after a first one is one attempt. */
  lemma AttemptAgain(t0: SlotArray, t1: SlotArray, t2: SlotArray, p: Slot)
    requires Attempted(t0, t1, p) && Attempted(t1, t2, p)
    ensures Attempted(t0, t2, p)
  {
  }

  // ----------------------------------------------------------------- storing

  datatype Stored = Stored(table: SlotArray, reached: bool, won: bool, tie: nat, clock: nat)

  /** A probe for the key of p and, if it names a candidate, a commit of p to it. */
  function Store(t: SlotArray, p: Slot, script: Script, clock: nat): (r: Stored)
    ensures |r.table| == |t|
  {
    var probed := ProbeSlot(t, p.body.key, script, clock);
    match probed.result
    case None => Stored(t, false, false, 0, probed.clock)
    case Some(q) =>
      var c := CommitSlot(t, q.candIndex, p, q.cand.guard, script, probed.clock);
      Stored(c.table, true, c.ok && c.observed == q.cand.guard, q.cand.body.tie, c.clock)
  }

  lemma {:induction false} ClockForwardFrom(t: SlotArray, k: nat, d: nat, p: Probe, script: Script, clock: nat)
    requires d <= |t| && (p.candValid ==> p.candIndex < |t|)
    ensures ProbeFrom(t, k, d, p, script, clock).clock >= clock
    decreases |t| - d
  {
    if d < |t| && script(clock) == Delivered {
      var i := Pos(Home(k, |t|), d, |t|);
      match Examine(p, i, t[i], k)
      case Halt(q) =>
      case More(q) => ClockForwardFrom(t, k, d + 1, q, script, clock + 1);
    }
  }

  lemma StoreForward(t: SlotArray, p: Slot, script: Script, clock: nat)
    ensures Store(t, p, script, clock).clock >= clock
  {
    ClockForwardFrom(t, p.body.key, 0, NO_PROBE, script, clock);
  }

  /** What storing p does to a table in order, whatever the transport does; and that without faults it
      is refused only to a key the table does not hold. */
  lemma StoreMeets(t: SlotArray, p: Slot, script: Script, clock: nat)
    requires TableOk(t) && IsProposal(p)
    ensures var r := Store(t, p, script, clock);
            && Attempted(t, r.table, p)
            && (r.won ==> SlotOf(r.table, p.body.key) == Some(p))
            && (!r.reached ==> r.table == t)
            && (r.reached ==> !NoCandidate(t, p.body.key))
            && (ReliableFrom(script, clock) ==> r.won == r.reached)
            && (ReliableFrom(script, clock) && !r.reached ==>
                  NoCandidate(t, p.body.key) && SlotOf(t, p.body.key) == None)
  {
    var probed := ProbeSlot(t, p.body.key, script, clock);
    ProbeMeetsTable(t, p.body.key, script, clock);
    ClockForwardFrom(t, p.body.key, 0, NO_PROBE, script, clock);
    match probed.result
    case None =>
      AttemptedNothing(t, p);
      if ReliableFrom(script, clock) {
        SlotOfNone(t, p.body.key);
      }
    case Some(q) =>
      CommitAttempts(t, q, p, script, probed.clock);
  }
}
