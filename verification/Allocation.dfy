/** Dividing the slots a node has room for among PRIME, CACHE and BACKUP: 4 : 1 : 4 by largest remainder,
    around the counts that were configured. Bucket 0 is PRIME, 1 CACHE, 2 BACKUP. */
module Allocation {

  const PRIME_BUCKET: nat := 0
  const CACHE_BUCKET: nat := 1
  const BACKUP_BUCKET: nat := 2

  type Flags = f: seq<bool> | |f| == 3 witness [false, false, false]
  type Counts = s: seq<nat> | |s| == 3 witness [0, 0, 0]

  function Weight(i: nat): nat {
    if i == CACHE_BUCKET then 1 else 4
  }

  function AutoWeight(isExplicit: Flags, i: nat): nat
    requires i < 3
  {
    if isExplicit[i] then 0 else Weight(i)
  }

  function WeightSum(isExplicit: Flags): nat {
    AutoWeight(isExplicit, 0) + AutoWeight(isExplicit, 1) + AutoWeight(isExplicit, 2)
  }

  function Sum(s: Counts): nat {
    s[0] + s[1] + s[2]
  }

  function Floor(isExplicit: Flags, remaining: nat, i: nat): nat
    requires i < 3 && !isExplicit[i]
  {
    (remaining * Weight(i)) / WeightSum(isExplicit)
  }

  function Remainder(isExplicit: Flags, remaining: nat, i: nat): nat
    requires i < 3 && !isExplicit[i]
  {
    (remaining * Weight(i)) % WeightSum(isExplicit)
  }

  function Floors(isExplicit: Flags, remaining: nat): Counts {
    seq<nat>(3, i requires 0 <= i < 3 => if isExplicit[i] then 0 else Floor(isExplicit, remaining, i))
  }

  function Remainders(isExplicit: Flags, remaining: nat): Counts {
    seq<nat>(3, i requires 0 <= i < 3 => if isExplicit[i] then 0 else Remainder(isExplicit, remaining, i))
  }

  /** Which of two automatic buckets is topped up first. */
  predicate Before(rems: Counts, i: nat, j: nat)
    requires i < 3 && j < 3
  {
    rems[i] > rems[j] || (rems[i] == rems[j] && i < j)
  }

  /** Configured counts are kept; every automatic one is its floor, or one more if topped is set for it; the topped
      buckets have a remainder, and come before the automatic ones that are not. */
  predicate Apportioned(isExplicit: Flags, before: Counts, floors: Counts, rems: Counts, after: Counts, topped: Flags) {
    && (forall i :: 0 <= i < 3 ==>
          after[i] == if isExplicit[i] then before[i] else floors[i] + if topped[i] then 1 else 0)
    && (forall i :: 0 <= i < 3 && topped[i] ==> !isExplicit[i] && rems[i] > 0)
    && (forall i, j :: 0 <= i < 3 && 0 <= j < 3 && topped[i] && !topped[j] && !isExplicit[j] ==> Before(rems, i, j))
  }

  function AutoSum(isExplicit: Flags, s: Counts): nat {
    (if isExplicit[0] then 0 else s[0]) + (if isExplicit[1] then 0 else s[1]) + (if isExplicit[2] then 0 else s[2])
  }

  /** Largest-remainder division: all that remained is given out. */
  predicate Divided(isExplicit: Flags, before: Counts, after: Counts, remaining: nat, topped: Flags) {
    && Apportioned(isExplicit, before, Floors(isExplicit, remaining), Remainders(isExplicit, remaining), after, topped)
    && (WeightSum(isExplicit) > 0 ==> AutoSum(isExplicit, after) == remaining)
  }

  // ------------------------------------------------------- what the division promises

  /** Every automatic count is within one of its exact quota, remaining * weight / weights: never below its floor, never
      above its ceiling. */
  lemma SharesAreFair(isExplicit: Flags, before: Counts, after: Counts, remaining: nat, topped: Flags, i: nat)
    requires Divided(isExplicit, before, after, remaining, topped) && i < 3
    ensures isExplicit[i] ==> after[i] == before[i]
    ensures !isExplicit[i] ==>
              var w, q := WeightSum(isExplicit), remaining * Weight(i);
              w * after[i] < q + w && q < w * after[i] + w && (q % w == 0 ==> w * after[i] == q)
  {
    if !isExplicit[i] {
      BucketQuota(isExplicit, remaining, i, topped[i]);
      assert Floors(isExplicit, remaining)[i] == Floor(isExplicit, remaining, i);
      assert Remainders(isExplicit, remaining)[i] == Remainder(isExplicit, remaining, i);
    }
  }

  /** An automatic bucket whose quota is whole gets just that. */
  lemma WholeShare(isExplicit: Flags, before: Counts, after: Counts, remaining: nat, n: nat, topped: Flags, i: nat)
    requires Divided(isExplicit, before, after, remaining, topped) && remaining == WeightSum(isExplicit) * n
    requires i < 3 && !isExplicit[i]
    ensures after[i] == n * Weight(i)
  {
    var w, share := WeightSum(isExplicit), n * Weight(i);
    Associate(w, n, Weight(i));
    BucketQuota(isExplicit, remaining, i, false);
    WholeRemainder(w, share);
    SharesAreFair(isExplicit, before, after, remaining, topped, i);
    MulCancel(w, after[i], share);
    MulCancel(w, share, after[i]);
  }

  lemma Associate(a: nat, b: nat, c: nat)
    ensures a * b * c == a * (b * c)
  {
  }

  lemma WholeRemainder(w: nat, x: nat)
    requires w > 0
    ensures (w * x) % w == 0
  {
    DivMod(w * x, w);
    var d: int := x - w * x / w;
    assert w * d == (w * x) % w;
    assert d >= 1 ==> w * d >= w;
  }

  /** What remains is divided 4 : 1 : 4 among the automatic buckets. */
  lemma SharesAsWeighted(isExplicit: Flags, before: Counts, after: Counts, weights: nat, n: nat, topped: Flags)
    requires weights == (if isExplicit[PRIME_BUCKET] then 0 else 4) + (if isExplicit[CACHE_BUCKET] then 0 else 1)
                        + if isExplicit[BACKUP_BUCKET] then 0 else 4
    requires Divided(isExplicit, before, after, weights * n, topped)
    ensures !isExplicit[PRIME_BUCKET] ==> after[PRIME_BUCKET] == n * 4
    ensures !isExplicit[CACHE_BUCKET] ==> after[CACHE_BUCKET] == n
    ensures !isExplicit[BACKUP_BUCKET] ==> after[BACKUP_BUCKET] == n * 4
  {
    assert weights == WeightSum(isExplicit);
    if !isExplicit[PRIME_BUCKET] {
      WholeShare(isExplicit, before, after, weights * n, n, topped, PRIME_BUCKET);
    }
    if !isExplicit[CACHE_BUCKET] {
      WholeShare(isExplicit, before, after, weights * n, n, topped, CACHE_BUCKET);
    }
    if !isExplicit[BACKUP_BUCKET] {
      WholeShare(isExplicit, before, after, weights * n, n, topped, BACKUP_BUCKET);
    }
  }

  /** How far w times count c is off quota q. */
  function Off(w: int, c: int, q: int): int {
    if w * c >= q then w * c - q else q - w * c
  }

  /** No division is nearer to the exact quotas: moving a slot from one automatic bucket to another does not bring
      the two any nearer to theirs. */
  lemma NoMoveIsNearer(isExplicit: Flags, before: Counts, after: Counts, remaining: nat, topped: Flags, i: nat, j: nat)
    requires Divided(isExplicit, before, after, remaining, topped)
    requires i < 3 && j < 3 && i != j && !isExplicit[i] && !isExplicit[j]
    ensures var w, p, q := WeightSum(isExplicit), remaining * Weight(i), remaining * Weight(j);
            var a: int, b: int := after[i], after[j];
            Off(w, a, p) + Off(w, b, q) <= Off(w, a - 1, p) + Off(w, b + 1, q)
  {
    var w, p, q := WeightSum(isExplicit), remaining * Weight(i), remaining * Weight(j);
    var rems, floors := Remainders(isExplicit, remaining), Floors(isExplicit, remaining);
    BucketQuota(isExplicit, remaining, i, topped[i]);
    BucketQuota(isExplicit, remaining, j, topped[j]);
    assert topped[i] && !topped[j] ==> Before(rems, i, j);
    MoveOff(w, after[i], p, rems[i], topped[i], after[j], q, rems[j], topped[j]);
  }

  lemma MoveOff(w: int, a: int, p: int, r: int, toppedA: bool, b: int, q: int, s: int, toppedB: bool)
    requires 0 <= r < w && 0 <= s < w && (toppedA && !toppedB ==> r >= s)
    requires w * a + r == p + (if toppedA then w else 0) && w * b + s == q + if toppedB then w else 0
    ensures Off(w, a, p) + Off(w, b, q) <= Off(w, a - 1, p) + Off(w, b + 1, q)
  {
    assert w * (a - 1) == w * a - w && w * (b + 1) == w * b + w;
  }

  /** PRIME and BACKUP, having the same weight, differ by one slot at most, in favour of PRIME. */
  lemma PrimeAndBackupClose(isExplicit: Flags, before: Counts, after: Counts, remaining: nat, topped: Flags)
    requires Divided(isExplicit, before, after, remaining, topped)
    requires !isExplicit[PRIME_BUCKET] && !isExplicit[BACKUP_BUCKET]
    ensures after[BACKUP_BUCKET] <= after[PRIME_BUCKET] <= after[BACKUP_BUCKET] + 1
  {
    var rems, floors := Remainders(isExplicit, remaining), Floors(isExplicit, remaining);
    assert rems[PRIME_BUCKET] == rems[BACKUP_BUCKET] && floors[PRIME_BUCKET] == floors[BACKUP_BUCKET];
    assert topped[BACKUP_BUCKET] && !topped[PRIME_BUCKET] ==> Before(rems, BACKUP_BUCKET, PRIME_BUCKET);
  }

  /** The conditions leave no choice: there is one largest-remainder division. */
  lemma DivisionUnique(isExplicit: Flags, before: Counts, a: Counts, b: Counts, remaining: nat, s: Flags, t: Flags)
    requires Divided(isExplicit, before, a, remaining, s) && Divided(isExplicit, before, b, remaining, t)
    ensures a == b
  {
    var floors, rems := Floors(isExplicit, remaining), Remainders(isExplicit, remaining);
    if s != t {
      assert exists i :: 0 <= i < 3 && !isExplicit[i];
      TopsBalance(isExplicit, before, floors, rems, a, b, s, t);
    }
  }

  lemma TopsBalance(isExplicit: Flags, before: Counts, floors: Counts, rems: Counts, a: Counts, b: Counts, s: Flags,
                    t: Flags)
    requires Apportioned(isExplicit, before, floors, rems, a, s) && Apportioned(isExplicit, before, floors, rems, b, t)
    requires AutoSum(isExplicit, a) == AutoSum(isExplicit, b)
    ensures s == t
  {
    forall i, j | 0 <= i < 3 && 0 <= j < 3 ensures !(s[i] && !t[i] && t[j] && !s[j]) {
      assert s[i] && !s[j] && !isExplicit[j] ==> Before(rems, i, j);
      assert t[j] && !t[i] && !isExplicit[i] ==> Before(rems, j, i);
    }
    forall i | 0 <= i < 3 ensures s[i] == t[i] {
    }
  }

  // ------------------------------------------------------------------ topping up

  /** The state of the top-up loop: a topped bucket has its remainder cleared. */
  ghost predicate Topping(isExplicit: Flags, before: Counts, floors: Counts, rems: Counts, slots: seq<nat>,
                          remainder: seq<nat>, topped: Flags) {
    && |slots| == 3 && |remainder| == 3 && Apportioned(isExplicit, before, floors, rems, slots, topped)
    && forall i :: 0 <= i < 3 && !isExplicit[i] ==> remainder[i] == if topped[i] then 0 else rems[i]
  }

  lemma DivMod(x: nat, w: nat)
    requires w > 0
    ensures w * (x / w) + x % w == x && x % w < w
  {
  }

  lemma MulAdd(w: nat, a: nat, b: nat, c: nat)
    ensures w * (a + b + c) == w * a + w * b + w * c
  {
  }

  lemma MulAtLeast(w: nat, d: nat)
    requires d >= 1
    ensures w * d >= w
  {
    assert w * d == w * (d - 1) + w;
  }

  lemma MulMonotone(w: nat, a: nat, b: nat)
    requires w > 0 && a > b
    ensures w * a > w * b
  {
    MulAdd(w, b, a - b, 0);
    MulAtLeast(w, a - b);
  }

  lemma MulCancel(w: nat, a: nat, b: nat)
    requires w > 0 && w * a <= w * b
    ensures a <= b
  {
    if a > b {
      MulMonotone(w, a, b);
    }
  }

  function Auto(isExplicit: Flags, s: Counts, i: nat): nat
    requires i < 3
  {
    if isExplicit[i] then 0 else s[i]
  }

  /** What a bucket's share and remainder say of its quota, times the sum of the weights. */
  lemma BucketQuota(isExplicit: Flags, remaining: nat, i: nat, topped: bool)
    requires i < 3 && !isExplicit[i] && WeightSum(isExplicit) > 0
    ensures var w, f, r := WeightSum(isExplicit), Floor(isExplicit, remaining, i), Remainder(isExplicit, remaining, i);
            && w * f + r == remaining * Weight(i) && r < w
            && w * (f + if topped then 1 else 0) == w * f + if topped then w else 0
  {
    DivMod(remaining * Weight(i), WeightSum(isExplicit));
  }

  lemma WeightsAddUp(isExplicit: Flags, remaining: nat)
    ensures WeightSum(isExplicit) * remaining
         == remaining * AutoWeight(isExplicit, 0) + remaining * AutoWeight(isExplicit, 1)
            + remaining * AutoWeight(isExplicit, 2)
  {
  }

  /** While something is left to give out, some bucket not yet topped has a remainder. */
  lemma ToppingLeft(isExplicit: Flags, before: Counts, slots: Counts, remaining: nat, topped: Flags)
    requires WeightSum(isExplicit) > 0 && AutoSum(isExplicit, slots) < remaining
    requires Apportioned(isExplicit, before, Floors(isExplicit, remaining), Remainders(isExplicit, remaining), slots,
                         topped)
    ensures exists i :: 0 <= i < 3 && !isExplicit[i] && !topped[i] && Remainders(isExplicit, remaining)[i] > 0
  {
    var w := WeightSum(isExplicit);
    if forall i :: 0 <= i < 3 && !isExplicit[i] && !topped[i] ==> Remainders(isExplicit, remaining)[i] == 0 {
      forall i | 0 <= i < 3 ensures remaining * AutoWeight(isExplicit, i) <= w * Auto(isExplicit, slots, i) {
        if !isExplicit[i] {
          BucketQuota(isExplicit, remaining, i, topped[i]);
          assert Floors(isExplicit, remaining)[i] == Floor(isExplicit, remaining, i);
          assert Remainders(isExplicit, remaining)[i] == Remainder(isExplicit, remaining, i);
        }
      }
      WeightsAddUp(isExplicit, remaining);
      MulAdd(w, Auto(isExplicit, slots, 0), Auto(isExplicit, slots, 1), Auto(isExplicit, slots, 2));
      MulCancel(w, remaining, AutoSum(isExplicit, slots));
    }
  }

  ghost predicate First(isExplicit: Flags, remainder: seq<nat>, best: nat)
    requires |remainder| == 3
  {
    && best < 3 && !isExplicit[best]
    && forall i :: 0 <= i < 3 && !isExplicit[i] ==>
         remainder[i] < remainder[best] || (remainder[i] == remainder[best] && best <= i)
  }

  lemma FirstIsNew(isExplicit: Flags, before: Counts, floors: Counts, rems: Counts, slots: Counts, remainder: seq<nat>,
                   topped: Flags, best: nat)
    requires Topping(isExplicit, before, floors, rems, slots, remainder, topped) && First(isExplicit, remainder, best)
    requires exists i :: 0 <= i < 3 && !isExplicit[i] && !topped[i] && rems[i] > 0
    ensures !topped[best] && rems[best] > 0
    ensures forall j :: 0 <= j < 3 && !topped[j] && !isExplicit[j] && j != best ==> Before(rems, best, j)
  {
    var i :| 0 <= i < 3 && !isExplicit[i] && !topped[i] && rems[i] > 0;
    assert remainder[i] > 0;
    assert remainder[best] > 0;
  }

  /** Topping the bucket that comes first keeps the loop's state. */
  lemma ToppingNext(isExplicit: Flags, before: Counts, floors: Counts, rems: Counts, slots: Counts,
                    remainder: seq<nat>, topped: Flags, best: nat)
    requires Topping(isExplicit, before, floors, rems, slots, remainder, topped) && best < 3 && !isExplicit[best]
    requires !topped[best] && rems[best] > 0
    requires forall j :: 0 <= j < 3 && !topped[j] && !isExplicit[j] && j != best ==> Before(rems, best, j)
    ensures Topping(isExplicit, before, floors, rems, slots[best := slots[best] + 1], remainder[best := 0],
                    topped[best := true])
  {
    var topped' := topped[best := true];
    forall i, j | 0 <= i < 3 && 0 <= j < 3 && topped'[i] && !topped'[j] && !isExplicit[j] ensures Before(rems, i, j) {
      if i != best {
        assert topped[i] && !topped[j];
      }
    }
  }

  /** While something is left to give out, topping the first bucket is right. */
  lemma ToppingGoesOn(isExplicit: Flags, before: Counts, slots: Counts, remainder: seq<nat>, remaining: nat,
                      topped: Flags, best: nat)
    requires WeightSum(isExplicit) > 0 && AutoSum(isExplicit, slots) < remaining
    requires Topping(isExplicit, before, Floors(isExplicit, remaining), Remainders(isExplicit, remaining), slots,
                     remainder, topped)
    requires First(isExplicit, remainder, best)
    ensures Topping(isExplicit, before, Floors(isExplicit, remaining), Remainders(isExplicit, remaining),
                    slots[best := slots[best] + 1], remainder[best := 0], topped[best := true])
  {
    var floors, rems := Floors(isExplicit, remaining), Remainders(isExplicit, remaining);
    ToppingLeft(isExplicit, before, slots, remaining, topped);
    FirstIsNew(isExplicit, before, floors, rems, slots, remainder, topped, best);
    ToppingNext(isExplicit, before, floors, rems, slots, remainder, topped, best);
  }

  lemma AutoSumNext(isExplicit: Flags, slots: Counts, best: nat)
    requires best < 3 && !isExplicit[best]
    ensures AutoSum(isExplicit, slots[best := slots[best] + 1]) == AutoSum(isExplicit, slots) + 1
  {
  }

  lemma FloorsFit(isExplicit: Flags, slots: Counts, remaining: nat)
    requires WeightSum(isExplicit) > 0
    requires forall i :: 0 <= i < 3 && !isExplicit[i] ==> slots[i] == Floor(isExplicit, remaining, i)
    ensures AutoSum(isExplicit, slots) <= remaining
  {
    var w := WeightSum(isExplicit);
    forall i | 0 <= i < 3 ensures w * Auto(isExplicit, slots, i) <= remaining * AutoWeight(isExplicit, i) {
      if !isExplicit[i] {
        BucketQuota(isExplicit, remaining, i, false);
      }
    }
    WeightsAddUp(isExplicit, remaining);
    MulAdd(w, Auto(isExplicit, slots, 0), Auto(isExplicit, slots, 1), Auto(isExplicit, slots, 2));
    MulCancel(w, AutoSum(isExplicit, slots), remaining);
  }

  lemma NothingToDivide(isExplicit: Flags, before: Counts, after: Counts, remaining: nat)
    requires WeightSum(isExplicit) == 0 || remaining == 0
    requires forall i :: 0 <= i < 3 ==> after[i] == if isExplicit[i] then before[i] else 0
    ensures Divided(isExplicit, before, after, remaining, [false, false, false])
  {
    forall i | 0 <= i < 3 && !isExplicit[i] ensures Floors(isExplicit, remaining)[i] == 0 {
      assert WeightSum(isExplicit) > 0;
      assert remaining * Weight(i) == 0;
    }
  }

  class SlotConfig {
    const slots: array<nat>
    const isExplicit: Flags

    constructor (isExplicit: Flags, configured: Counts)
      ensures Valid() && fresh(slots) && this.isExplicit == isExplicit && slots[..] == configured
    {
      slots := new nat[3](i requires 0 <= i < 3 => configured[i]);
      this.isExplicit := isExplicit;
    }

    ghost predicate Valid() {
      slots.Length == 3
    }

    /** Clears the automatic counts and adds up their weights. */
    method ClearAutomatic() returns (weightSum: nat)
      requires Valid()
      modifies slots
      ensures weightSum == WeightSum(isExplicit)
      ensures forall i :: 0 <= i < 3 ==> slots[i] == if isExplicit[i] then old(slots[i]) else 0
    {
      weightSum := 0;
      for idx := 0 to 3
        invariant weightSum == (if idx > 0 then AutoWeight(isExplicit, 0) else 0)
                  + (if idx > 1 then AutoWeight(isExplicit, 1) else 0)
                  + (if idx > 2 then AutoWeight(isExplicit, 2) else 0)
        invariant forall i :: 0 <= i < 3 ==> slots[i] == if i < idx && !isExplicit[i] then 0 else old(slots[i])
      {
        if !isExplicit[idx] {
          weightSum := weightSum + Weight(idx);
          slots[idx] := 0;
        }
      }
    }

    /** Gives every automatic bucket the floor of its quota. */
    method GiveFloors(remaining: nat, weightSum: nat, remainder: array<nat>) returns (given: nat)
      requires Valid() && remainder.Length == 3 && remainder != slots && weightSum == WeightSum(isExplicit) > 0
      requires forall i :: 0 <= i < 3 && !isExplicit[i] ==> slots[i] == 0
      modifies slots, remainder
      ensures forall i :: 0 <= i < 3 ==>
                if isExplicit[i] then slots[i] == old(slots[i])
                else slots[i] == Floor(isExplicit, remaining, i) && remainder[i] == Remainder(isExplicit, remaining, i)
      ensures given == AutoSum(isExplicit, slots[..])
    {
      given := 0;
      for idx := 0 to 3
        invariant forall i :: 0 <= i < 3 ==>
                    if isExplicit[i] then slots[i] == old(slots[i])
                    else if i < idx
                    then slots[i] == Floor(isExplicit, remaining, i)
                         && remainder[i] == Remainder(isExplicit, remaining, i)
                    else slots[i] == 0
        invariant given == AutoSum(isExplicit, slots[..])
      {
        if !isExplicit[idx] {
          slots[idx] := slots[idx] + remaining * Weight(idx) / weightSum;
          remainder[idx] := remaining * Weight(idx) % weightSum;
          given := given + slots[idx];
        }
      }
    }

    /** The automatic bucket with the largest remainder, the earliest one among equals; 3 if there is none. */
    method FindBest(remainder: array<nat>) returns (best: nat)
      requires Valid() && remainder.Length == 3
      ensures best == 3 ==> forall i :: 0 <= i < 3 ==> isExplicit[i]
      ensures best != 3 ==> First(isExplicit, remainder[..], best)
    {
      best := 3;
      for idx := 0 to 3
        invariant best == 3 ==> forall i :: 0 <= i < idx ==> isExplicit[i]
        invariant best != 3 ==> best < idx && !isExplicit[best]
        invariant best != 3 ==> forall i :: 0 <= i < idx && !isExplicit[i] ==>
                    remainder[i] < remainder[best] || (remainder[i] == remainder[best] && best <= i)
      {
        if !isExplicit[idx] && (best == 3 || remainder[idx] > remainder[best]
                                || (remainder[idx] == remainder[best] && idx < best)) {
          best := idx;
        }
      }
    }

    method TopUp(best: nat, remainder: array<nat>)
      requires Valid() && remainder.Length == 3 && remainder != slots && best < 3 && !isExplicit[best]
      modifies slots, remainder
      ensures slots[..] == old(slots[..])[best := old(slots[best]) + 1]
      ensures remainder[..] == old(remainder[..])[best := 0]
      ensures AutoSum(isExplicit, slots[..]) == AutoSum(isExplicit, old(slots[..])) + 1
    {
      ghost var s := slots[..];
      slots[best] := slots[best] + 1;
      remainder[best] := 0;
      AutoSumNext(isExplicit, s, best);
    }

    /** Gives out what the floors leave over, one slot at a time. */
    method GiveRest(remaining: nat, floored: nat, remainder: array<nat>, ghost before: Counts)
      returns (ghost topped: Flags)
      requires Valid() && remainder.Length == 3 && remainder != slots && WeightSum(isExplicit) > 0
      requires floored == AutoSum(isExplicit, slots[..]) <= remaining
      requires Topping(isExplicit, before, Floors(isExplicit, remaining), Remainders(isExplicit, remaining),
                       slots[..], remainder[..], [false, false, false])
      modifies slots, remainder
      ensures Divided(isExplicit, before, slots[..], remaining, topped)
    {
      topped := [false, false, false];
      var given := floored;
      while given < remaining
        invariant given <= remaining && given == AutoSum(isExplicit, slots[..])
        invariant Topping(isExplicit, before, Floors(isExplicit, remaining), Remainders(isExplicit, remaining),
                          slots[..], remainder[..], topped)
        decreases remaining - given
      {
        var best := FindBest(remainder);
        if best == 3 {
          break;
        }
        ToppingGoesOn(isExplicit, before, slots[..], remainder[..], remaining, topped, best);
        TopUp(best, remainder);
        topped := topped[best := true];
        given := given + 1;
      }
    }

    method AllocateWeightedSlots(remaining: nat) returns (ghost topped: Flags)
      requires Valid()
      modifies slots
      ensures Divided(isExplicit, old(slots[..]), slots[..], remaining, topped)
    {
      topped := [false, false, false];
      ghost var before: Counts := slots[..];
      var weightSum := ClearAutomatic();
      if weightSum == 0 || remaining == 0 {
        NothingToDivide(isExplicit, before, slots[..], remaining);
        return;
      }
      var remainder := new nat[3](_ => 0);
      var given := GiveFloors(remaining, weightSum, remainder);
      FloorsFit(isExplicit, slots[..], remaining);
      topped := GiveRest(remaining, given, remainder, before);
    }
  }
}
