/** The clock sweep that frees CACHE slots. */
module Eviction {
  import opened Slots
  import opened Table

  // ------------------------------------------------------------------- counting

  /** How many slots of t[lo..hi] carry the VALID flag. */
  function ValidIn(t: SlotArray, lo: nat, hi: nat): (c: nat)
    requires lo <= hi <= |t|
    ensures c <= hi - lo
    decreases hi
  {
    if lo == hi then 0 else ValidIn(t, lo, hi - 1) + if t[hi - 1].body.valid then 1 else 0
  }

  function ValidCount(t: SlotArray): nat {
    ValidIn(t, 0, |t|)
  }

  /** The usage the node counts: VALID slots that are not half-committed. */
  function UsedCount(t: SlotArray): (c: nat) {
    if t == [] then 0
    else UsedCount(t[..|t| - 1]) + if t[|t| - 1].body.valid && t[|t| - 1].Stable() then 1 else 0
  }

  lemma {:induction false} ValidPrefix(t: SlotArray, n: nat, lo: nat, hi: nat)
    requires lo <= hi <= n <= |t|
    ensures ValidIn(t[..n], lo, hi) == ValidIn(t, lo, hi)
    decreases hi
  {
    if lo < hi {
      ValidPrefix(t, n, lo, hi - 1);
    }
  }

  lemma {:induction false} UsedAtMostValid(t: SlotArray)
    ensures UsedCount(t) <= ValidCount(t)
  {
    if t != [] {
      UsedAtMostValid(t[..|t| - 1]);
      ValidPrefix(t, |t| - 1, 0, |t| - 1);
    }
  }

  /** The slots with the VALID flag, and those of them that are not half-committed. */
  function ValidSlots(t: SlotArray): set<nat> {
    set i: nat | i < |t| && t[i].body.valid
  }

  function UsedSlots(t: SlotArray): set<nat> {
    set i: nat | i < |t| && t[i].body.valid && t[i].Stable()
  }

  lemma {:induction false} ValidCountMeans(t: SlotArray)
    ensures ValidCount(t) == |ValidSlots(t)|
  {
    if t != [] {
      var n := |t| - 1;
      ValidCountMeans(t[..n]);
      ValidPrefix(t, n, 0, n);
      assert ValidSlots(t) == ValidSlots(t[..n]) + if t[n].body.valid then {n} else {};
    }
  }

  lemma {:induction false} UsedCountMeans(t: SlotArray)
    ensures UsedCount(t) == |UsedSlots(t)|
  {
    if t != [] {
      var n := |t| - 1;
      UsedCountMeans(t[..n]);
      assert UsedSlots(t) == UsedSlots(t[..n]) + if t[n].body.valid && t[n].Stable() then {n} else {};
    }
  }

  lemma {:induction false} ValidSplit(t: SlotArray, lo: nat, mid: nat, hi: nat)
    requires lo <= mid <= hi <= |t|
    ensures ValidIn(t, lo, hi) == ValidIn(t, lo, mid) + ValidIn(t, mid, hi)
    decreases hi
  {
    if mid < hi {
      ValidSplit(t, lo, mid, hi - 1);
    }
  }

  lemma {:induction false} ValidGrows(t: SlotArray, t': SlotArray, lo: nat, hi: nat)
    requires lo <= hi <= |t| == |t'|
    requires forall i :: lo <= i < hi && t[i].body.valid ==> t'[i].body.valid
    ensures ValidIn(t, lo, hi) <= ValidIn(t', lo, hi)
    decreases hi
  {
    if lo < hi {
      ValidGrows(t, t', lo, hi - 1);
    }
  }

  /** VALID slots among the first d the sweep looks at from cursor c on. */
  function Passed(t: SlotArray, c: nat, d: nat): nat
    requires c < |t| && d <= |t|
  {
    if d == 0 then 0 else Passed(t, c, d - 1) + if t[Pos(c, d - 1, |t|)].body.valid then 1 else 0
  }

  lemma {:induction false} PassedRange(t: SlotArray, c: nat, d: nat)
    requires c < |t| && d <= |t|
    ensures Passed(t, c, d) == if c + d <= |t| then ValidIn(t, c, c + d)
                               else ValidIn(t, c, |t|) + ValidIn(t, 0, c + d - |t|)
  {
    if d > 0 {
      PassedRange(t, c, d - 1);
    }
  }

  /** A full lap passes every VALID slot once. */
  lemma PassedAll(t: SlotArray, c: nat)
    requires c < |t|
    ensures Passed(t, c, |t|) == ValidCount(t)
  {
    PassedRange(t, c, |t|);
    ValidSplit(t, 0, c, |t|);
  }

  // ------------------------------------------------------------------- the sweep

  /** How far the sweep still goes from its d-th slot on, to free target VALID slots. */
  function SpanFrom(t: SlotArray, c: nat, d: nat, target: nat): (l: nat)
    requires c < |t| && d <= |t|
    ensures d <= l <= |t|
    decreases |t| - d
  {
    if target == 0 || d == |t| then d
    else SpanFrom(t, c, d + 1, if t[Pos(c, d, |t|)].body.valid then target - 1 else target)
  }

  function Span(t: SlotArray, c: nat, target: nat): (l: nat)
    requires c < |t|
    ensures l <= |t|
  {
    SpanFrom(t, c, 0, target)
  }

  /** The table after the sweep has passed l slots from c on. */
  function Swept(t: SlotArray, c: nat, l: nat): (r: SlotArray)
    requires c < |t|
    ensures |r| == |t|
  {
    seq(|t|, i requires 0 <= i < |t| => if Off(c, i, |t|) < l && t[i].body.valid then ZERO_SLOT else t[i])
  }

  lemma SweptNext(t: SlotArray, c: nat, l: nat)
    requires c < |t| && l < |t|
    ensures var i := Pos(c, l, |t|);
            && Swept(t, c, l)[i] == t[i]
            && Swept(t, c, l + 1) == if t[i].body.valid then Swept(t, c, l)[i := ZERO_SLOT] else Swept(t, c, l)
  {
    var i := Pos(c, l, |t|);
    assert Off(c, i, |t|) == l;
    forall j | 0 <= j < |t| && j != i ensures Swept(t, c, l + 1)[j] == Swept(t, c, l)[j] {
      assert Pos(c, Off(c, j, |t|), |t|) == j;
    }
  }

  lemma {:induction false} SpanExact(t: SlotArray, c: nat, d: nat, target: nat)
    requires c < |t| && d <= |t| && target <= ValidCount(t) - Passed(t, c, d)
    ensures Passed(t, c, SpanFrom(t, c, d, target)) == Passed(t, c, d) + target
    decreases |t| - d
  {
    if d == |t| {
      PassedAll(t, c);
    } else if target > 0 {
      SpanExact(t, c, d + 1, if t[Pos(c, d, |t|)].body.valid then target - 1 else target);
    }
  }

  lemma {:induction false} ZeroOne(t: SlotArray, i: nat, lo: nat, hi: nat)
    requires lo <= i < hi <= |t| && t[i].body.valid
    ensures ValidIn(t[i := ZERO_SLOT], lo, hi) == ValidIn(t, lo, hi) - 1
    decreases hi
  {
    if i < hi - 1 {
      ZeroOne(t, i, lo, hi - 1);
    } else {
      ZeroOther(t, i, lo, hi - 1);
    }
  }

  lemma {:induction false} ZeroOther(t: SlotArray, i: nat, lo: nat, hi: nat)
    requires lo <= hi <= i < |t|
    ensures ValidIn(t[i := ZERO_SLOT], lo, hi) == ValidIn(t, lo, hi)
    decreases hi
  {
    if lo < hi {
      ZeroOther(t, i, lo, hi - 1);
    }
  }

  lemma {:induction false} SweptCount(t: SlotArray, c: nat, l: nat)
    requires c < |t| && l <= |t|
    ensures ValidCount(Swept(t, c, l)) + Passed(t, c, l) == ValidCount(t)
  {
    if l == 0 {
      assert Swept(t, c, 0) == t;
    } else {
      SweptCount(t, c, l - 1);
      SweptNext(t, c, l - 1);
      var i := Pos(c, l - 1, |t|);
      if t[i].body.valid {
        ZeroOne(Swept(t, c, l - 1), i, 0, |t|);
      }
    }
  }

  /** With enough VALID slots the sweep frees exactly its target within one lap, leaves no VALID slot in the
      cyclic span it passed, and nothing else changes. */
  lemma SweepExact(t: SlotArray, c: nat, target: nat)
    requires c < |t| && target <= ValidCount(t)
    ensures var l := Span(t, c, target);
            var r := Swept(t, c, l);
            && l <= |t|
            && ValidCount(r) == ValidCount(t) - target
            && (forall d :: 0 <= d < l ==> !r[Pos(c, d, |t|)].body.valid)
            && (forall i :: 0 <= i < |t| ==>
                  r[i] == t[i] || (t[i].body.valid && r[i] == ZERO_SLOT && Off(c, i, |t|) < l))
            && (target > 0 ==> l > 0 && t[Pos(c, l - 1, |t|)].body.valid)
  {
    var l := Span(t, c, target);
    SpanExact(t, c, 0, target);
    SweptCount(t, c, l);
    SpanLast(t, c, 0, target);
    forall d | 0 <= d < l ensures !Swept(t, c, l)[Pos(c, d, |t|)].body.valid {
      assert Off(c, Pos(c, d, |t|), |t|) == d;
    }
  }

  lemma {:induction false} SpanLast(t: SlotArray, c: nat, d: nat, target: nat)
    requires c < |t| && d <= |t| && 0 <= target <= ValidCount(t) - Passed(t, c, d)
    ensures target > 0 ==> SpanFrom(t, c, d, target) > d && t[Pos(c, SpanFrom(t, c, d, target) - 1, |t|)].body.valid
    decreases |t| - d
  {
    if d == |t| {
      PassedAll(t, c);
    } else if target > 0 {
      SpanLast(t, c, d + 1, if t[Pos(c, d, |t|)].body.valid then target - 1 else target);
    }
  }

  /** The sweep of target slots from c has passed l slots, stands at cursor and has left slots to free. */
  ghost predicate SweepAt(t: SlotArray, c: nat, target: nat, l: nat, cursor: nat, left: nat) {
    && c < |t| && l <= |t|
    && cursor == (if c + l < |t| then c + l else c + l - |t|)
    && SpanFrom(t, c, l, left) == Span(t, c, target)
    && left + Passed(t, c, l) == target
  }

  lemma WrapMod(x: nat, n: nat)
    requires 0 < n && x < 2 * n
    ensures x % n == if x < n then x else x - n
  {
  }

  function Next(cursor: nat, n: nat): nat {
    if cursor + 1 == n then 0 else cursor + 1
  }

  lemma SweepRound(t: SlotArray, c: nat, target: nat, l: nat, cursor: nat, left: nat)
    requires SweepAt(t, c, target, l, cursor, left) && 0 < left && target <= ValidCount(t)
    ensures l < |t| && cursor == Pos(c, l, |t|)
    ensures SweepAt(t, c, target, l + 1, Next(cursor, |t|), if t[cursor].body.valid then left - 1 else left)
  {
    PassedAll(t, c);
  }

  lemma SweepDone(t: SlotArray, c: nat, target: nat, l: nat, cursor: nat)
    requires SweepAt(t, c, target, l, cursor, 0)
    ensures l == Span(t, c, target) && cursor == (c + l) % |t| && cursor < |t|
  {
    WrapMod(c + l, |t|);
  }

  // ---------------------------------------------------------------- when it ends

  /** The loop as it runs: slots, cursor and target still to free. */
  datatype Clock = Clock(table: SlotArray, cursor: nat, target: nat)

  predicate ClockOk(s: Clock) {
    s.cursor < |s.table|
  }

  function Tick(s: Clock): (r: Clock)
    requires ClockOk(s)
    ensures ClockOk(r) && |r.table| == |s.table|
  {
    var next := Next(s.cursor, |s.table|);
    if s.target == 0 then s
    else if s.table[s.cursor].body.valid then Clock(s.table[s.cursor := ZERO_SLOT], next, s.target - 1)
    else Clock(s.table, next, s.target)
  }

  function Ticks(s: Clock, n: nat): (r: Clock)
    requires ClockOk(s)
    ensures ClockOk(r) && |r.table| == |s.table|
  {
    if n == 0 then s else Tick(Ticks(s, n - 1))
  }

  lemma {:induction false} TicksBalance(s: Clock, n: nat)
    requires ClockOk(s)
    ensures Ticks(s, n).target > 0
            ==> Ticks(s, n).target - ValidCount(Ticks(s, n).table) == s.target - ValidCount(s.table)
    ensures Ticks(s, n).target == 0 && s.target > 0 ==> s.target <= ValidCount(s.table)
  {
    if n > 0 {
      TicksBalance(s, n - 1);
      var r := Ticks(s, n - 1);
      if r.target > 0 && r.table[r.cursor].body.valid {
        ZeroOne(r.table, r.cursor, 0, |r.table|);
      }
    }
  }

  /** As long as slots are left to free, the loop is at its sweep's d-th slot. */
  ghost predicate Sweeping(s: Clock, t: SlotArray, c: nat, target: nat, d: nat)
    requires c < |t| && d <= |t|
  {
    && s.table == Swept(t, c, d)
    && s.cursor == (if c + d < |t| then c + d else c + d - |t|)
    && s.target + Passed(t, c, d) == target
  }

  lemma TickSweeps(s: Clock, t: SlotArray, c: nat, target: nat, d: nat)
    requires c < |t| && d < |t| && ClockOk(s) && s.target > 0 && Sweeping(s, t, c, target, d)
    ensures Sweeping(Tick(s), t, c, target, d + 1)
  {
    SweptNext(t, c, d);
  }

  lemma SweepStarts(t: SlotArray, c: nat, target: nat)
    requires c < |t|
    ensures Sweeping(Clock(t, c, target), t, c, target, 0)
  {
    assert Swept(t, c, 0) == t;
  }

  lemma {:induction false} TicksSweep(t: SlotArray, c: nat, target: nat, start: Clock, d: nat)
    requires c < |t| && d <= |t| && start == Clock(t, c, target)
    ensures Ticks(start, d).target > 0 ==> Sweeping(Ticks(start, d), t, c, target, d)
  {
    if d == 0 {
      SweepStarts(t, c, target);
    } else {
      TicksSweep(t, c, target, start, d - 1);
      var s := Ticks(start, d - 1);
      assert Ticks(start, d) == Tick(s);
      if s.target > 0 {
        TickSweeps(s, t, c, target, d - 1);
      }
    }
  }

  ghost predicate SweepEnds(t: SlotArray, c: nat, target: nat)
    requires c < |t|
  {
    exists n: nat :: Ticks(Clock(t, c, target), n).target == 0
  }

  /** The loop ends just when there are as many VALID slots as it is to free, and then within one lap. */
  lemma SweepEndsIff(t: SlotArray, c: nat, target: nat)
    requires c < |t| && target > 0
    ensures SweepEnds(t, c, target) <==> target <= ValidCount(t)
    ensures SweepEnds(t, c, target) ==> Ticks(Clock(t, c, target), |t|).target == 0
  {
    if n: nat :| Ticks(Clock(t, c, target), n).target == 0 {
      TicksBalance(Clock(t, c, target), n);
    }
    TicksSweep(t, c, target, Clock(t, c, target), |t|);
    PassedAll(t, c);
  }

  // ------------------------------------------------------------- threshold and target

  predicate OverThreshold(used: nat, thresholdPct: nat, total: nat) {
    used * 100 >= thresholdPct * total
  }

  /** The threshold is a percentage of all slots. */
  lemma OverThresholdMeans(used: nat, thresholdPct: nat, total: nat)
    requires total > 0
    ensures OverThreshold(used, thresholdPct, total)
       <==> used as real / total as real >= thresholdPct as real / 100.0
  {
    var share := used as real / total as real;
    assert share * total as real == used as real;
    assert OverThreshold(used, thresholdPct, total)
      <==> share * total as real * 100.0 >= thresholdPct as real * total as real;
    assert share * 100.0 >= thresholdPct as real
      <==> (share * 100.0) * total as real >= thresholdPct as real * total as real;
  }

  /** n is a quarter of the used slots, rounded down, but at least one. */
  predicate IsQuarter(used: nat, n: nat) {
    if used < 4 then n == 1 else 4 * n <= used < 4 * n + 4
  }

  function Target(used: nat): (n: nat)
    ensures n >= 1 && IsQuarter(used, n)
  {
    if used / 4 == 0 then 1 else used / 4
  }

  // ------------------------------------------------------- between count and sweep

  /** CACHE and the cursor that all evictors of the node share. */
  datatype Ring = Ring(table: SlotArray, cursor: nat)

  predicate RingOk(s: Ring) {
    s.cursor < |s.table|
  }

  /** What may happen between the count of an evictor and its sweep, while it does not hold the lock: clients store
      valid bodies and swap guards, and other evictors sweep. */
  datatype Meanwhile = Wrote(i: nat, b: Body) | Swapped(i: nat, compare: nat, swap: nat) | SweptBy(target: nat)

  predicate MeanwhileOk(n: nat, e: Meanwhile) {
    match e
    case Wrote(i, b) => i < n && b.valid
    case Swapped(i, _, _) => i < n
    case SweptBy(target) => target >= 1
  }

  ghost predicate AllOk(n: nat, events: seq<Meanwhile>) {
    forall j :: 0 <= j < |events| ==> MeanwhileOk(n, events[j])
  }

  /** A sweep that ends. */
  function AfterSweep(s: Ring, target: nat): (r: Ring)
    requires RingOk(s)
    ensures RingOk(r) && |r.table| == |s.table|
  {
    var l := Span(s.table, s.cursor, target);
    Ring(Swept(s.table, s.cursor, l), (s.cursor + l) % |s.table|)
  }

  lemma {:induction false} SpanSplit(t: SlotArray, c: nat, d: nat, a: nat, b: nat)
    requires c < |t| && d <= |t|
    ensures SpanFrom(t, c, d, a + b) == SpanFrom(t, c, SpanFrom(t, c, d, a), b)
    decreases |t| - d
  {
    if a > 0 && d < |t| {
      SpanSplit(t, c, d + 1, if t[Pos(c, d, |t|)].body.valid then a - 1 else a, b);
    }
  }

  /** The cursor after l slots from c on. */
  function Onward(c: nat, l: nat, n: nat): (c': nat)
    requires c < n && l <= n
    ensures c' < n && c' == (c + l) % n
  {
    WrapMod(c + l, n);
    if c + l < n then c + l else c + l - n
  }

  lemma OnwardPos(t: SlotArray, c: nat, l: nat, d: nat)
    requires c < |t| && l + d < |t|
    ensures Pos(Onward(c, l, |t|), d, |t|) == Pos(c, l + d, |t|)
    ensures Swept(t, c, l)[Pos(c, l + d, |t|)] == t[Pos(c, l + d, |t|)]
  {
    assert Off(c, Pos(c, l + d, |t|), |t|) == l + d;
  }

  /** The span from the l-th slot on is that in a table which from its cursor on has what t has from there on. */
  lemma {:induction false} SpanAlike(t: SlotArray, c: nat, l: nat, now: SlotArray, from: nat, d: nat, b: nat)
    requires c < |t| == |now| && from < |now| && l + d <= |t| && b <= ValidCount(t) - Passed(t, c, l + d)
    requires forall e: nat :: l + e < |t| ==>
               now[Pos(from, e, |now|)].body.valid == t[Pos(c, l + e, |t|)].body.valid
    ensures SpanFrom(t, c, l + d, b) == l + SpanFrom(now, from, d, b)
    decreases |t| - d
  {
    if l + d == |t| {
      PassedAll(t, c);
    } else if b > 0 {
      SpanAlike(t, c, l, now, from, d + 1, if t[Pos(c, l + d, |t|)].body.valid then b - 1 else b);
    }
  }

  lemma SpanOnward(t: SlotArray, c: nat, l: nat, b: nat)
    requires c < |t| && l <= |t| && b <= ValidCount(t) - Passed(t, c, l)
    ensures SpanFrom(t, c, l, b) == l + Span(Swept(t, c, l), Onward(c, l, |t|), b)
  {
    forall e: nat | l + e < |t|
      ensures Swept(t, c, l)[Pos(Onward(c, l, |t|), e, |t|)] == t[Pos(c, l + e, |t|)]
    {
      OnwardPos(t, c, l, e);
    }
    SpanAlike(t, c, l, Swept(t, c, l), Onward(c, l, |t|), 0, b);
  }

  lemma SweptOnward(t: SlotArray, c: nat, l: nat, m: nat)
    requires c < |t| && l + m <= |t|
    ensures Swept(Swept(t, c, l), Onward(c, l, |t|), m) == Swept(t, c, l + m)
    ensures Onward(Onward(c, l, |t|), m, |t|) == Onward(c, l + m, |t|)
  {
  }

  lemma AfterSweepIs(s: Ring, target: nat, l: nat)
    requires RingOk(s) && l == Span(s.table, s.cursor, target)
    ensures AfterSweep(s, target) == Ring(Swept(s.table, s.cursor, l), Onward(s.cursor, l, |s.table|))
  {
  }

  /** How far the two sweeps go together. */
  lemma SpansGoOn(t: SlotArray, c: nat, a: nat, b: nat)
    requires c < |t| && a + b <= ValidCount(t)
    ensures var l := Span(t, c, a); l + Span(Swept(t, c, l), Onward(c, l, |t|), b) == Span(t, c, a + b)
  {
    SpanSplit(t, c, 0, a, b);
    SpanExact(t, c, 0, a);
    SpanOnward(t, c, Span(t, c, a), b);
  }

  /** A sweep goes on where the one before it stopped: two in a row do what one for both targets does. */
  lemma SweepsGoOn(s: Ring, a: nat, b: nat)
    requires RingOk(s) && a + b <= ValidCount(s.table)
    ensures AfterSweep(AfterSweep(s, a), b) == AfterSweep(s, a + b)
  {
    var t, c := s.table, s.cursor;
    var l := Span(t, c, a);
    AfterSweepIs(s, a, l);
    SpansGoOn(t, c, a, b);
    var m := Span(Swept(t, c, l), Onward(c, l, |t|), b);
    AfterSweepIs(AfterSweep(s, a), b, m);
    AfterSweepIs(s, a + b, l + m);
    SweptOnward(t, c, l, m);
  }

  /** Of t a sweep has left r: VALID slots freed are a quarter of those used at the count, and none is new. */
  ghost predicate FreesQuarter(used: nat, t: SlotArray, r: SlotArray) {
    ValidSlots(r) <= ValidSlots(t) && IsQuarter(used, |ValidSlots(t) - ValidSlots(r)|)
  }

  /** The sweep of a run that counted the slots of t0 and then found the ring s. */
  lemma SweepFreesQuarter(t0: SlotArray, s: Ring)
    requires RingOk(s) && Target(UsedCount(t0)) <= ValidCount(s.table)
    ensures FreesQuarter(|UsedSlots(t0)|, s.table, AfterSweep(s, Target(UsedCount(t0))).table)
  {
    var r := AfterSweep(s, Target(UsedCount(t0))).table;
    UsedCountMeans(t0);
    ValidCountMeans(s.table);
    ValidCountMeans(r);
    SweepExact(s.table, s.cursor, Target(UsedCount(t0)));
    assert ValidSlots(r) <= ValidSlots(s.table);
    assert ValidSlots(s.table) == ValidSlots(r) + (ValidSlots(s.table) - ValidSlots(r));
  }

  /** None stands for a sweep that never ends by itself: it keeps the lock, and over TCP everybody waits. Over RDMA a
      body write takes no lock; what such writes store meanwhile the sweep frees, and SweepEndsIff says how many it
      needs. */
  function Happens(s: Ring, e: Meanwhile): (r: Option<Ring>)
    requires RingOk(s) && MeanwhileOk(|s.table|, e)
    ensures r.Some? ==> RingOk(r.value) && |r.value.table| == |s.table|
  {
    match e
    case Wrote(i, b) => Some(s.(table := WriteBody(s.table, i, b)))
    case Swapped(i, compare, swap) => Some(s.(table := CasGuard(s.table, i, compare, swap)))
    case SweptBy(target) => if target <= ValidCount(s.table) then Some(AfterSweep(s, target)) else None
  }

  ghost function Carried(s: Ring, events: seq<Meanwhile>): (r: Option<Ring>)
    requires RingOk(s) && AllOk(|s.table|, events)
    ensures r.Some? ==> RingOk(r.value) && |r.value.table| == |s.table|
  {
    if events == [] then Some(s)
    else
      var n := |events| - 1;
      var before := Carried(s, events[..n]);
      if before.None? then None else Happens(before.value, events[n])
  }

  /** The slots all sweeps among the events are to free. */
  function Freed(events: seq<Meanwhile>): nat {
    if events == [] then 0
    else
      var last := events[|events| - 1];
      Freed(events[..|events| - 1]) + if last.SweptBy? then last.target else 0
  }

  /** The bodies stored into slots that were not VALID. */
  ghost function Filled(s: Ring, events: seq<Meanwhile>): nat
    requires RingOk(s) && AllOk(|s.table|, events)
  {
    if events == [] then 0
    else
      var n := |events| - 1;
      var before := Carried(s, events[..n]);
      Filled(s, events[..n])
      + if events[n].Wrote? && before.Some? && !before.value.table[events[n].i].body.valid then 1 else 0
  }

  lemma {:induction false} FillOne(t: SlotArray, i: nat, b: Body, lo: nat, hi: nat)
    requires lo <= hi <= |t| && i < |t| && b.valid
    ensures ValidIn(WriteBody(t, i, b), lo, hi)
         == ValidIn(t, lo, hi) + if lo <= i < hi && !t[i].body.valid then 1 else 0
    decreases hi
  {
    if lo < hi {
      FillOne(t, i, b, lo, hi - 1);
    }
  }

  lemma SwapNone(t: SlotArray, i: nat, compare: nat, swap: nat)
    requires i < |t|
    ensures ValidCount(CasGuard(t, i, compare, swap)) == ValidCount(t)
  {
    ValidGrows(t, CasGuard(t, i, compare, swap), 0, |t|);
    ValidGrows(CasGuard(t, i, compare, swap), t, 0, |t|);
  }

  /** VALID slots are conserved: those there are and those freed are those there were and those filled. */
  lemma {:induction false} CarriedBalance(s: Ring, events: seq<Meanwhile>)
    requires RingOk(s) && AllOk(|s.table|, events) && Carried(s, events).Some?
    ensures ValidCount(Carried(s, events).value.table) + Freed(events) == ValidCount(s.table) + Filled(s, events)
  {
    if events != [] {
      var n := |events| - 1;
      CarriedBalance(s, events[..n]);
      var before := Carried(s, events[..n]).value;
      match events[n]
      case Wrote(i, b) => FillOne(before.table, i, b, 0, |before.table|);
      case Swapped(i, compare, swap) => SwapNone(before.table, i, compare, swap);
      case SweptBy(target) => SweepExact(before.table, before.cursor, target);
    }
  }

  /** At every sweep, all sweeps so far and this one are to free no more than the VALID slots there were at the
      start and those filled since. */
  ghost predicate Enough(s: Ring, events: seq<Meanwhile>)
    requires RingOk(s) && AllOk(|s.table|, events)
  {
    forall n :: 0 <= n < |events| && events[n].SweptBy? ==>
      Freed(events[..n]) + events[n].target <= ValidCount(s.table) + Filled(s, events[..n])
  }

  lemma EnoughNext(s: Ring, events: seq<Meanwhile>)
    requires RingOk(s) && AllOk(|s.table|, events) && events != []
    ensures var n := |events| - 1;
            Enough(s, events) <==>
              Enough(s, events[..n])
              && (events[n].SweptBy? ==>
                    Freed(events[..n]) + events[n].target <= ValidCount(s.table) + Filled(s, events[..n]))
  {
    var n := |events| - 1;
    assert forall j :: 0 <= j < n ==> events[..n][..j] == events[..j];
    assert forall j :: 0 <= j < n ==> events[..n][j] == events[j];
  }

  /** All sweeps end just when there is enough for each. */
  lemma {:induction false} CarriedIff(s: Ring, events: seq<Meanwhile>)
    requires RingOk(s) && AllOk(|s.table|, events)
    ensures Carried(s, events).Some? <==> Enough(s, events)
  {
    if events != [] {
      var n := |events| - 1;
      CarriedIff(s, events[..n]);
      EnoughNext(s, events);
      if Carried(s, events[..n]).Some? {
        CarriedBalance(s, events[..n]);
      }
    }
  }

  lemma {:induction false} CarriedPrefix(s: Ring, events: seq<Meanwhile>, n: nat)
    requires RingOk(s) && AllOk(|s.table|, events) && n <= |events| && Carried(s, events).Some?
    ensures Carried(s, events[..n]).Some?
  {
    if n < |events| {
      CarriedPrefix(s, events[..|events| - 1], n);
      assert events[..|events| - 1][..n] == events[..n];
    } else {
      assert events[..n] == events;
    }
  }

  // ------------------------------------------------------------ when eviction returns

  /** A run that counted, and has target slots to free after these events, returns: the sweeps before its own end, and
      so does its own. */
  ghost predicate Returns(s: Ring, events: seq<Meanwhile>, target: nat)
    requires RingOk(s) && AllOk(|s.table|, events)
  {
    Carried(s, events).Some? && var now := Carried(s, events).value; SweepEnds(now.table, now.cursor, target)
  }

  /** A run over the threshold returns just when there is enough for the sweeps that come before its own and for its
      own. */
  lemma EvictionReturnsIff(s: Ring, events: seq<Meanwhile>)
    requires RingOk(s) && AllOk(|s.table|, events)
    ensures var target := Target(UsedCount(s.table));
            var all := events + [SweptBy(target)];
            AllOk(|s.table|, all) && (Returns(s, events, target) <==> Enough(s, all))
  {
    var target := Target(UsedCount(s.table));
    var all := events + [SweptBy(target)];
    assert all[..|all| - 1] == events;
    CarriedIff(s, all);
    if Carried(s, events).Some? {
      SweepEndsIff(Carried(s, events).value.table, Carried(s, events).value.cursor, target);
    }
  }

  ghost predicate NoneSwept(events: seq<Meanwhile>) {
    forall j :: 0 <= j < |events| ==> !events[j].SweptBy?
  }

  ghost predicate NoneStored(events: seq<Meanwhile>) {
    forall j :: 0 <= j < |events| ==> !events[j].Wrote?
  }

  lemma {:induction false} FreedNone(events: seq<Meanwhile>)
    requires NoneSwept(events)
    ensures Freed(events) == 0
  {
    if events != [] {
      FreedNone(events[..|events| - 1]);
    }
  }

  lemma {:induction false} FilledNone(s: Ring, events: seq<Meanwhile>)
    requires RingOk(s) && AllOk(|s.table|, events) && NoneStored(events)
    ensures Filled(s, events) == 0
  {
    if events != [] {
      FilledNone(s, events[..|events| - 1]);
    }
  }

  lemma {:induction false} FreedGrows(events: seq<Meanwhile>, n: nat)
    requires n < |events| && events[n].SweptBy?
    ensures Freed(events[..n]) + events[n].target <= Freed(events)
  {
    var last := |events| - 1;
    if n < last {
      FreedGrows(events[..last], n);
      assert events[..last][..n] == events[..n];
    }
  }

  lemma OverZero(used: nat, thresholdPct: nat, total: nat)
    requires OverThreshold(used, thresholdPct, total) && total > 0
    ensures used == 0 ==> thresholdPct == 0
    ensures Target(used) <= used || (used == 0 && Target(used) == 1)
  {
    if thresholdPct > 0 {
      assert thresholdPct * total >= total;
    }
  }

  /** With one evictor, whatever clients store meanwhile, a run over the threshold never returns just when the
      threshold is zero, no slot was VALID at the count, and none was filled since. */
  lemma OneEvictorReturnsIff(s: Ring, events: seq<Meanwhile>, thresholdPct: nat)
    requires RingOk(s) && AllOk(|s.table|, events) && NoneSwept(events)
    requires OverThreshold(UsedCount(s.table), thresholdPct, |s.table|)
    ensures Returns(s, events, Target(UsedCount(s.table)))
       <==> !(thresholdPct == 0 && ValidCount(s.table) + Filled(s, events) == 0)
  {
    var all := events + [SweptBy(Target(UsedCount(s.table)))];
    EvictionReturnsIff(s, events);
    FreedNone(events);
    assert all[..|all| - 1] == events;
    assert forall n :: 0 <= n < |all| && all[n].SweptBy? ==> n == |events|;
    UsedAtMostValid(s.table);
    OverZero(UsedCount(s.table), thresholdPct, |s.table|);
  }

  /** With several evictors and no stores meanwhile, a run over the threshold returns just when the VALID slots there
      were at its count are enough for the sweeps in between and its own together. */
  lemma EvictorsReturnIff(s: Ring, events: seq<Meanwhile>)
    requires RingOk(s) && AllOk(|s.table|, events) && NoneStored(events)
    ensures var target := Target(UsedCount(s.table));
            Returns(s, events, target) <==> Freed(events) + target <= ValidCount(s.table)
  {
    var target := Target(UsedCount(s.table));
    var all := events + [SweptBy(target)];
    EvictionReturnsIff(s, events);
    assert all[..|all| - 1] == events && all[|events|] == SweptBy(target);
    FilledNone(s, events);
    forall n | 0 <= n < |all| && all[n].SweptBy? && Freed(all) <= ValidCount(s.table)
      ensures Freed(all[..n]) + all[n].target <= ValidCount(s.table) + Filled(s, all[..n])
    {
      FreedGrows(all, n);
    }
  }

  lemma OneSlot(t: SlotArray, s: Slot)
    requires t == [s]
    ensures ValidCount(t) == if s.body.valid then 1 else 0
    ensures UsedCount(t) == if s.body.valid && s.Stable() then 1 else 0
  {
    assert ValidIn(t, 0, 0) == 0;
    assert t[..0] == [] && UsedCount(t[..0]) == 0;
  }

  /** Two evictors can hang a node under any threshold: both count one VALID slot, the first frees it, and the second
      looks for another for ever. */
  lemma TwoEvictorsHang(s: Slot, thresholdPct: nat)
    requires s.body.valid && s.Stable() && thresholdPct <= 100
    ensures OverThreshold(UsedCount([s]), thresholdPct, 1) && Target(UsedCount([s])) == 1
    ensures Carried(Ring([s], 0), [SweptBy(1)]) == Some(Ring([ZERO_SLOT], 0))
    ensures !SweepEnds([ZERO_SLOT], 0, 1) && !Returns(Ring([s], 0), [SweptBy(1)], 1)
  {
    OneSlot([s], s);
    OneSlot([ZERO_SLOT], ZERO_SLOT);
    assert [SweptBy(1)][..0] == [];
    assert SpanFrom([s], 0, 1, 0) == 1;
    assert Swept([s], 0, 1) == [ZERO_SLOT];
    SweepEndsIff([ZERO_SLOT], 0, 1);
  }

  /** Stores of clients make no VALID slot invalid; only sweeps do. */
  lemma {:induction false} StoresKeepValid(s: Ring, events: seq<Meanwhile>)
    requires RingOk(s) && AllOk(|s.table|, events) && NoneSwept(events)
    ensures Carried(s, events).Some?
    ensures forall i :: 0 <= i < |s.table| && s.table[i].body.valid ==> Carried(s, events).value.table[i].body.valid
  {
    if events != [] {
      StoresKeepValid(s, events[..|events| - 1]);
    }
  }
}
