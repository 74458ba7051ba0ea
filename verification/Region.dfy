/** The memory of one node: three fixed slot arrays that the node itself only reads, writes,
    compares-and-swaps and, in CACHE, evicts from. */
module RegionMemory {
  import opened Slots
  import opened Table
  import opened Cluster
  import opened Eviction

  class Region {
    const prime: array<Slot>
    const cache: array<Slot>
    const backup: array<Slot>
    var cacheUsage: nat
    var evictionCursor: nat

    constructor (primeSlots: nat, cacheSlots: nat, backupSlots: nat)
      ensures fresh(Arrays()) && Separate() && CursorOk()
      ensures prime.Length == primeSlots && cache.Length == cacheSlots && backup.Length == backupSlots
      ensures forall kind, i :: 0 <= i < |Contents().Part(kind)| ==> Contents().Part(kind)[i] == ZERO_SLOT
    {
      prime := new Slot[primeSlots](_ => ZERO_SLOT);
      cache := new Slot[cacheSlots](_ => ZERO_SLOT);
      backup := new Slot[backupSlots](_ => ZERO_SLOT);
      cacheUsage, evictionCursor := 0, 0;
    }

    function Arrays(): set<object> {
      {prime, cache, backup}
    }

    ghost predicate Separate() {
      prime != cache && cache != backup && prime != backup
    }

    function Part(kind: Kind): array<Slot> {
      match kind
      case Prime => prime
      case Cache => cache
      case Backup => backup
    }

    ghost function Contents(): Node
      reads prime, cache, backup
    {
      Node(prime[..], cache[..], backup[..])
    }

    method ReadSlot(kind: Kind, i: nat) returns (slot: Slot)
      requires i < Part(kind).Length
      ensures slot == Contents().Part(kind)[i]
    {
      slot := Part(kind)[i];
    }

    /** Everything of slot i but its guard is replaced. */
    method WriteBody(kind: Kind, i: nat, b: Body)
      requires Separate() && i < Part(kind).Length
      modifies Part(kind)
      ensures Contents() == old(Contents()).With(kind, Table.WriteBody(old(Contents()).Part(kind), i, b))
    {
      var a := Part(kind);
      a[i] := Slot(a[i].guard, b);
    }

    method Cas64(kind: Kind, i: nat, compare: nat, swap: nat) returns (observed: nat)
      requires Separate() && i < Part(kind).Length
      modifies Part(kind)
      ensures observed == old(Contents()).Part(kind)[i].guard
      ensures Contents() == old(Contents()).With(kind, CasGuard(old(Contents()).Part(kind), i, compare, swap))
    {
      var a := Part(kind);
      observed := a[i].guard;
      if observed == compare {
        a[i] := Slot(swap, a[i].body);
      }
    }

    // ------------------------------------------------------------------ eviction

    predicate CursorOk()
      reads this
    {
      evictionCursor < cache.Length || evictionCursor == 0
    }

    method CountCacheUsage() returns (used: nat)
      modifies this
      ensures used == UsedCount(cache[..]) && cacheUsage == used && evictionCursor == old(evictionCursor)
    {
      used := 0;
      for idx := 0 to cache.Length
        invariant used == UsedCount(cache[..idx])
      {
        assert cache[..idx + 1][..idx] == cache[..idx];
        if cache[idx].body.valid && cache[idx].Stable() {
          used := used + 1;
        }
      }
      assert cache[..cache.Length] == cache[..];
      cacheUsage := used;
    }

    /** One round of the sweep. */
    method SweepSlot() returns (freed: bool)
      requires Separate() && evictionCursor < cache.Length
      modifies this, cache
      ensures cacheUsage == old(cacheUsage) && evictionCursor == Next(old(evictionCursor), cache.Length)
      ensures freed == old(cache[evictionCursor].body.valid)
      ensures cache[..] == if freed then old(cache[..])[old(evictionCursor) := ZERO_SLOT] else old(cache[..])
      ensures prime[..] == old(prime[..]) && backup[..] == old(backup[..])
    {
      WrapMod(evictionCursor, cache.Length);
      WrapMod(evictionCursor + 1, cache.Length);
      var idx := evictionCursor % cache.Length;
      freed := cache[idx].body.valid;
      if freed {
        cache[idx] := ZERO_SLOT;
      }
      evictionCursor := (evictionCursor + 1) % cache.Length;
    }

    /** The sweep, under the lock: it goes on until target VALID slots are freed. */
    method Sweep(target: nat)
      requires Separate() && CursorOk() && 1 <= target <= ValidCount(cache[..]) && cache.Length > 0
      modifies this, cache
      ensures CursorOk() && cacheUsage == old(cacheUsage)
      ensures var t, c := old(cache[..]), old(evictionCursor);
              && cache[..] == Swept(t, c, Span(t, c, target))
              && evictionCursor == (c + Span(t, c, target)) % cache.Length
      ensures prime[..] == old(prime[..]) && backup[..] == old(backup[..])
    {
      ghost var t, c, l := cache[..], evictionCursor, 0;
      var left := target;
      assert Swept(t, c, 0) == t;
      while left > 0
        invariant SweepAt(t, c, target, l, evictionCursor, left)
        invariant cache[..] == Swept(t, c, l) && cacheUsage == old(cacheUsage)
        decreases |t| - l
      {
        SweepRound(t, c, target, l, evictionCursor, left);
        SweptNext(t, c, l);
        var freed := SweepSlot();
        if freed {
          left := left - 1;
        }
        l := l + 1;
      }
      SweepDone(t, c, target, l, evictionCursor);
    }

    /** One call of an evictor. Between its count and its sweep, and again before it counts once more, the lock is free,
        and clients and other evictors carry out theirs. It is to be called only if it returns. */
    method EvictIfNeeded(thresholdPct: nat, meanwhile: seq<Meanwhile>, later: seq<Meanwhile>) returns (evicted: bool)
      requires Separate() && CursorOk() && AllOk(cache.Length, meanwhile) && AllOk(cache.Length, later)
      requires cache.Length > 0 && OverThreshold(UsedCount(cache[..]), thresholdPct, cache.Length) ==>
                 var ring, target := Ring(cache[..], evictionCursor), Target(UsedCount(cache[..]));
                 && Returns(ring, meanwhile, target)
                 && Carried(AfterSweep(Carried(ring, meanwhile).value, target), later).Some?
      modifies this, cache
      ensures CursorOk() && prime[..] == old(prime[..]) && backup[..] == old(backup[..])
      ensures var t, c := old(cache[..]), old(evictionCursor);
              var used := UsedCount(t);
              && evicted == (cache.Length > 0 && OverThreshold(used, thresholdPct, |t|))
              && evicted == (|t| > 0 && |UsedSlots(t)| as real / |t| as real >= thresholdPct as real / 100.0)
              && (evicted ==>
                    var now := Carried(Ring(t, c), meanwhile).value;
                    && Target(used) <= ValidCount(now.table)
                    && FreesQuarter(|UsedSlots(t)|, now.table, AfterSweep(now, Target(used)).table)
                    && Some(Ring(cache[..], evictionCursor)) == Carried(AfterSweep(now, Target(used)), later)
                    && cacheUsage == UsedCount(cache[..]))
              && (evicted && meanwhile == [] && later == [] ==> FreesQuarter(|UsedSlots(t)|, t, cache[..]))
              && (!evicted ==> cache[..] == t && evictionCursor == c)
    {
      if cache.Length == 0 {
        return false;
      }
      ghost var t := cache[..];
      var used := CountCacheUsage();
      UsedCountMeans(t);
      OverThresholdMeans(used, thresholdPct, |t|);
      if used * 100 < thresholdPct * cache.Length {
        return false;
      }
      var target := used / 4;
      if target == 0 {
        target := 1;
      }
      SweepLater(meanwhile, target);
      SweepFreesQuarter(t, Carried(Ring(t, old(evictionCursor)), meanwhile).value);
      CarryOut(later);
      var _ := CountCacheUsage();
      evicted := true;
    }

    /** The sweep of a run that has counted, after what happens meanwhile. */
    method SweepLater(meanwhile: seq<Meanwhile>, target: nat)
      requires Separate() && evictionCursor < cache.Length && AllOk(cache.Length, meanwhile) && target >= 1
      requires Returns(Ring(cache[..], evictionCursor), meanwhile, target)
      modifies this, cache
      ensures evictionCursor < cache.Length && prime[..] == old(prime[..]) && backup[..] == old(backup[..])
      ensures var now := Carried(old(Ring(cache[..], evictionCursor)), meanwhile).value;
              target <= ValidCount(now.table) && Ring(cache[..], evictionCursor) == AfterSweep(now, target)
    {
      ghost var now := Carried(Ring(cache[..], evictionCursor), meanwhile).value;
      SweepEndsIff(now.table, now.cursor, target);
      CarryOut(meanwhile);
      Sweep(target);
    }

    method CarryOut(events: seq<Meanwhile>)
      requires Separate() && evictionCursor < cache.Length && AllOk(cache.Length, events)
      requires Carried(Ring(cache[..], evictionCursor), events).Some?
      modifies this, cache
      ensures evictionCursor < cache.Length && prime[..] == old(prime[..]) && backup[..] == old(backup[..])
      ensures Carried(old(Ring(cache[..], evictionCursor)), events) == Some(Ring(cache[..], evictionCursor))
    {
      ghost var ring := Ring(cache[..], evictionCursor);
      for n := 0 to |events|
        invariant evictionCursor < cache.Length && prime[..] == old(prime[..]) && backup[..] == old(backup[..])
        invariant Carried(ring, events[..n]) == Some(Ring(cache[..], evictionCursor))
      {
        CarriedPrefix(ring, events, n + 1);
        assert events[..n + 1][..n] == events[..n];
        CarryOutOne(events[n]);
      }
      assert events[..|events|] == events;
    }

    method CarryOutOne(e: Meanwhile)
      requires Separate() && evictionCursor < cache.Length && MeanwhileOk(cache.Length, e)
      requires Happens(Ring(cache[..], evictionCursor), e).Some?
      modifies this, cache
      ensures evictionCursor < cache.Length && prime[..] == old(prime[..]) && backup[..] == old(backup[..])
      ensures Happens(old(Ring(cache[..], evictionCursor)), e) == Some(Ring(cache[..], evictionCursor))
    {
      match e {
        case Wrote(i, b) =>
          this.WriteBody(Cache, i, b);
        case Swapped(i, compare, swap) =>
          var _ := Cas64(Cache, i, compare, swap);
        case SweptBy(target) =>
          Sweep(target);
      }
    }
  }
}
