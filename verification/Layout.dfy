/** Where the slots of a node lie in its memory, computed in 64-bit words as the node and its clients compute it. */
module Layout {
  import opened Slots
  import opened Codec
  import opened Allocation

  const WORD: nat := 0x1_0000_0000_0000_0000
  const HEADER_BYTES: nat := 88
  const SLOT_BYTES: nat := 344
  /** Where the body of a slot starts: behind its guard word. */
  const BODY_OFFSET: nat := 8

  // ----------------------------------------------------------------- bytes of a slot

  /** A slot as it lies in memory: its guard, and behind it its body. */
  function BodyImage(b: Body): seq<byte> {
    LittleEndian(b.visible, 8) + LittleEndian(b.key, 8) + LittleEndian(b.tie, 8) + LittleEndian(FlagWord(b), 4)
    + LittleEndian(b.valueLen, 4) + b.iv + b.mac + b.ciphertext
  }

  function SlotImage(s: Slot): seq<byte> {
    LittleEndian(s.guard, 8) + BodyImage(s.body)
  }

  lemma BodyImageWords(b: Body)
    requires FitsLayout(b)
    ensures var m := BodyImage(b);
            && |m| == SLOT_BYTES - BODY_OFFSET
            && m[..8] == LittleEndian(b.visible, 8) && m[8..16] == LittleEndian(b.key, 8)
            && m[16..24] == LittleEndian(b.tie, 8) && m[24..28] == LittleEndian(FlagWord(b), 4)
            && m[28..32] == LittleEndian(b.valueLen, 4)
            && m[32..48] == b.iv && m[48..80] == b.mac && m[80..] == b.ciphertext
  {
    var rest := b.iv + b.mac + b.ciphertext;
    FiveWords(LittleEndian(b.visible, 8), LittleEndian(b.key, 8), LittleEndian(b.tie, 8), LittleEndian(FlagWord(b), 4),
              LittleEndian(b.valueLen, 4), rest);
    assert BodyImage(b)
        == LittleEndian(b.visible, 8) + LittleEndian(b.key, 8) + LittleEndian(b.tie, 8) + LittleEndian(FlagWord(b), 4)
           + LittleEndian(b.valueLen, 4) + rest;
    assert BodyImage(b)[32..48] == rest[..16] && BodyImage(b)[48..80] == rest[16..48]
           && BodyImage(b)[80..] == rest[48..];
  }

  lemma BodyImageNumbers(b: Body)
    requires FitsLayout(b)
    ensures var m := BodyImage(b);
            && |m| == SLOT_BYTES - BODY_OFFSET
            && Number(m[..8]) == b.visible && Number(m[8..16]) == b.key && Number(m[16..24]) == b.tie
            && Number(m[24..28]) == FlagWord(b) && Number(m[28..32]) == b.valueLen
            && m[32..48] == b.iv && m[48..80] == b.mac && m[80..] == b.ciphertext
  {
    BodyImageWords(b);
    LittleEndianNumber(b.visible, 8);
    LittleEndianNumber(b.key, 8);
    LittleEndianNumber(b.tie, 8);
    LittleEndianNumber(FlagWord(b), 4);
    LittleEndianNumber(b.valueLen, 4);
  }

  /** A slot takes up SLOT_BYTES bytes: its guard is the first word, and its body is told by the bytes behind that, all
      of which it needs. */
  lemma SlotImageIs(s: Slot, t: Slot)
    requires FitsLayout(s.body) && FitsLayout(t.body) && s.guard < Pow256(8) && t.guard < Pow256(8)
    ensures |SlotImage(s)| == SLOT_BYTES && Number(SlotImage(s)[..BODY_OFFSET]) == s.guard
    ensures SlotImage(s)[BODY_OFFSET..] == SlotImage(t)[BODY_OFFSET..] <==> s.body == t.body
  {
    BodyImageNumbers(s.body);
    BodyImageNumbers(t.body);
    LittleEndianNumber(s.guard, 8);
    assert SlotImage(s)[..BODY_OFFSET] == LittleEndian(s.guard, 8);
    assert SlotImage(s)[BODY_OFFSET..] == BodyImage(s.body) && SlotImage(t)[BODY_OFFSET..] == BodyImage(t.body);
  }

  /** What a region starts with. */
  datatype RegionHeader = RegionHeader(magic: nat, version: nat, nodeId: nat, primeSlots: nat, cacheSlots: nat,
                                       backupSlots: nat, maxValueSize: nat, cacheUsage: nat, evictionCursor: nat,
                                       cacheMode: nat, regionSize: nat) {
    function Words(): seq<nat> {
      [magic, version, nodeId, primeSlots, cacheSlots, backupSlots, maxValueSize, cacheUsage, evictionCursor, cacheMode,
       regionSize]
    }
  }

  function WordsImage(words: seq<nat>): seq<byte> {
    if words == [] then [] else LittleEndian(words[0], 8) + WordsImage(words[1..])
  }

  lemma {:induction false} WordsImageSize(words: seq<nat>)
    ensures |WordsImage(words)| == 8 * |words|
  {
    if words != [] {
      WordsImageSize(words[1..]);
    }
  }

  /** The words of the header take up HEADER_BYTES bytes. */
  lemma HeaderImageIs(h: RegionHeader)
    ensures |WordsImage(h.Words())| == HEADER_BYTES
  {
    WordsImageSize(h.Words());
  }

  // ------------------------------------------------------------------------- offsets

  datatype Header = Header(prime: nat, cache: nat, backup: nat) {
    function Count(kind: Kind): nat {
      match kind
      case Prime => prime
      case Cache => cache
      case Backup => backup
    }

    function Total(): nat {
      prime + cache + backup
    }
  }

  function Add64(a: nat, b: nat): nat {
    (a + b) % WORD
  }

  function Mul64(a: nat, b: nat): nat {
    (a * b) % WORD
  }

  function BaseOffset(h: Header, kind: Kind): nat {
    if kind == Prime then HEADER_BYTES
    else
      var behindPrime := Add64(HEADER_BYTES, Mul64(h.prime, SLOT_BYTES));
      if kind == Cache then behindPrime else Add64(behindPrime, Mul64(h.cache, SLOT_BYTES))
  }

  function SlotOffset(h: Header, kind: Kind, i: nat): nat {
    Add64(BaseOffset(h, kind), Mul64(i, SLOT_BYTES))
  }

  /** Slots before the i-th of this kind, over all three regions. */
  function Ordinal(h: Header, kind: Kind, i: nat): nat {
    match kind
    case Prime => i
    case Cache => h.prime + i
    case Backup => h.prime + h.cache + i
  }

  /** The n-th slot over all three regions. */
  function SlotAt(h: Header, n: nat): (r: (Kind, nat))
    requires n < h.Total()
    ensures r.1 < h.Count(r.0) && Ordinal(h, r.0, r.1) == n
  {
    if n < h.prime then (Prime, n)
    else if n < h.prime + h.cache then (Cache, n - h.prime)
    else (Backup, n - h.prime - h.cache)
  }

  // -------------------------------------------------------------- wrapped arithmetic

  lemma AddMod(a: nat, b: nat)
    ensures (a % WORD + b) % WORD == (a + b) % WORD
    ensures (a + b % WORD) % WORD == (a + b) % WORD
  {
  }

  lemma AddBoth(a: nat, b: nat)
    ensures (a % WORD + b % WORD) % WORD == (a + b) % WORD
  {
    AddMod(a, b % WORD);
    AddMod(a, b);
  }

  lemma BaseOfKind(h: Header, kind: Kind)
    ensures BaseOffset(h, kind) == (HEADER_BYTES + SLOT_BYTES * Ordinal(h, kind, 0)) % WORD
  {
    var p, c := SLOT_BYTES * h.prime, SLOT_BYTES * h.cache;
    AddMod(HEADER_BYTES, p);
    AddBoth(HEADER_BYTES + p, c);
  }

  /** In wrapped arithmetic the regions lie one behind the other. */
  lemma OffsetOfOrdinal(h: Header, kind: Kind, i: nat)
    ensures SlotOffset(h, kind, i) == (HEADER_BYTES + SLOT_BYTES * Ordinal(h, kind, i)) % WORD
  {
    BaseOfKind(h, kind);
    AddBoth(HEADER_BYTES + SLOT_BYTES * Ordinal(h, kind, 0), SLOT_BYTES * i);
    assert Ordinal(h, kind, i) == Ordinal(h, kind, 0) + i;
  }

  // ------------------------------------------------------------------ bounds checks

  /** td_region_read_bytes and td_region_write_bytes accept the range. */
  predicate RangeAccepted(memory: nat, offset: nat, len: nat) {
    !(Add64(offset, len) > memory)
  }

  /** td_region_cas64 accepts the word. */
  predicate CasAccepted(memory: nat, offset: nat) {
    !(Add64(offset, 8) > memory) && offset % 8 == 0
  }

  predicate InMemory(memory: nat, at: nat) {
    at < memory
  }

  /** The byte at which the w-th word begins. */
  function WordAt(w: nat): nat {
    8 * w
  }

  /** Where the end of a range does not wrap, the range is accepted just when all of it lies in the memory; and a CAS
      just when it is to a word that does. */
  lemma RangeAcceptedIff(memory: nat, offset: nat, len: nat)
    requires 0 < len && offset + len < WORD
    ensures RangeAccepted(memory, offset, len)
       <==> forall at: nat :: offset <= at < offset + len ==> InMemory(memory, at)
    ensures len == 8 ==>
              (CasAccepted(memory, offset)
               <==> RangeAccepted(memory, offset, len) && exists w: nat :: offset == WordAt(w))
  {
    Small(offset + len);
    if forall at: nat :: offset <= at < offset + len ==> InMemory(memory, at) {
      assert InMemory(memory, offset + len - 1);
    }
    assert offset % 8 == 0 ==> offset == WordAt(offset / 8);
  }

  /** Slot i of the region is fetched, written and swapped inside the memory, clear of the header. */
  predicate SlotServed(h: Header, memory: nat, kind: Kind, i: nat) {
    var o := SlotOffset(h, kind, i);
    && HEADER_BYTES <= o && o + SLOT_BYTES <= memory
    && RangeAccepted(memory, o, SLOT_BYTES)
    && RangeAccepted(memory, o + BODY_OFFSET, SLOT_BYTES - BODY_OFFSET)
    && CasAccepted(memory, o)
  }

  predicate Apart(h: Header, k1: Kind, i1: nat, k2: Kind, i2: nat) {
    var o1, o2 := SlotOffset(h, k1, i1), SlotOffset(h, k2, i2);
    o1 + SLOT_BYTES <= o2 || o2 + SLOT_BYTES <= o1
  }

  ghost predicate Sound(h: Header, memory: nat) {
    && (forall kind, i :: 0 <= i < h.Count(kind) ==> SlotServed(h, memory, kind, i))
    && (forall k1, i1, k2, i2 ::
          0 <= i1 < h.Count(k1) && 0 <= i2 < h.Count(k2) && (k1, i1) != (k2, i2) ==> Apart(h, k1, i1, k2, i2))
  }

  lemma OrdinalBound(h: Header, kind: Kind, i: nat)
    requires i < h.Count(kind)
    ensures Ordinal(h, kind, i) < h.Total()
  {
  }

  lemma ExactOffset(h: Header, memory: nat, kind: Kind, i: nat)
    requires memory < WORD && HEADER_BYTES + SLOT_BYTES * h.Total() <= memory && i < h.Count(kind)
    ensures SlotOffset(h, kind, i) == HEADER_BYTES + SLOT_BYTES * Ordinal(h, kind, i) <= memory - SLOT_BYTES
  {
    OffsetOfOrdinal(h, kind, i);
    OrdinalBound(h, kind, i);
    Small(HEADER_BYTES + SLOT_BYTES * Ordinal(h, kind, i));
  }

  lemma Small(x: nat)
    requires x < WORD
    ensures x % WORD == x
  {
  }

  lemma Aligned(n: nat)
    ensures (HEADER_BYTES + SLOT_BYTES * n) % 8 == 0
  {
    assert HEADER_BYTES + SLOT_BYTES * n == 8 * (11 + 43 * n);
  }

  lemma FittedSlot(h: Header, memory: nat, kind: Kind, i: nat)
    requires memory < WORD && HEADER_BYTES + SLOT_BYTES * h.Total() <= memory && i < h.Count(kind)
    ensures SlotServed(h, memory, kind, i)
  {
    ExactOffset(h, memory, kind, i);
    var o := SlotOffset(h, kind, i);
    Small(o + SLOT_BYTES);
    Small(o + 8);
    Aligned(Ordinal(h, kind, i));
  }

  lemma FittedApart(h: Header, memory: nat, k1: Kind, i1: nat, k2: Kind, i2: nat)
    requires memory < WORD && HEADER_BYTES + SLOT_BYTES * h.Total() <= memory
    requires i1 < h.Count(k1) && i2 < h.Count(k2) && (k1, i1) != (k2, i2)
    ensures Apart(h, k1, i1, k2, i2)
  {
    ExactOffset(h, memory, k1, i1);
    ExactOffset(h, memory, k2, i2);
    assert Ordinal(h, k1, i1) != Ordinal(h, k2, i2);
  }

  /** As many slots as the memory has room for lie apart, and every call on them is accepted. */
  lemma FittingIsSound(h: Header, memory: nat)
    requires memory < WORD && HEADER_BYTES + SLOT_BYTES * h.Total() <= memory
    ensures Sound(h, memory)
  {
    forall kind, i | 0 <= i < h.Count(kind) ensures SlotServed(h, memory, kind, i) {
      FittedSlot(h, memory, kind, i);
    }
    forall k1, i1, k2, i2 | 0 <= i1 < h.Count(k1) && 0 <= i2 < h.Count(k2) && (k1, i1) != (k2, i2)
      ensures Apart(h, k1, i1, k2, i2)
    {
      FittedApart(h, memory, k1, i1, k2, i2);
    }
  }

  /** More than 2^61 slots cannot lie apart: offsets repeat after that many. */
  lemma TooManyCollide(h: Header, memory: nat)
    requires h.Total() > 0x2000_0000_0000_0000
    ensures !Sound(h, memory)
  {
    var a, b := SlotAt(h, 0), SlotAt(h, 0x2000_0000_0000_0000);
    OffsetOfOrdinal(h, a.0, a.1);
    OffsetOfOrdinal(h, b.0, b.1);
    WrapsAround(HEADER_BYTES + SLOT_BYTES * Ordinal(h, a.0, a.1));
    assert !Apart(h, a.0, a.1, b.0, b.1);
  }

  lemma WrapsAround(x: nat)
    ensures (x + SLOT_BYTES * 0x2000_0000_0000_0000) % WORD == x % WORD
  {
    assert SLOT_BYTES * 0x2000_0000_0000_0000 == 43 * WORD;
  }

  // ------------------------------------------------------------------ resolving counts

  datatype Resolved = Rejected | Accepted(header: Header)

  class NodeConfig {
    const memory: nat
    const replication: nat
    const counts: SlotConfig

    constructor (memory: nat, replication: nat, counts: SlotConfig)
      ensures this.memory == memory && this.replication == replication && this.counts == counts
    {
      this.memory, this.replication, this.counts := memory, replication, counts;
    }

    /** td_resolve_mn_slots. */
    method ResolveSlots() returns (r: Resolved)
      requires counts.Valid() && memory < WORD
      requires forall i :: 0 <= i < 3 ==> counts.slots[i] < WORD
      modifies counts.slots
      ensures r.Accepted? <==> Admissible(counts.isExplicit, old(counts.slots[..]), memory, replication)
      ensures r.Accepted? ==>
                && Configured(counts.isExplicit, old(counts.slots[..]), memory, replication, r.header)
                && counts.slots[..] == [r.header.prime, r.header.cache, r.header.backup]
      ensures r.Rejected? ==>
                || memory <= HEADER_BYTES || Capacity(memory) == 0
                   || Sum(old(counts.slots[..])) % WORD > Capacity(memory)
                || (&& Division(counts.isExplicit, old(counts.slots[..]), counts.slots[..],
                                Capacity(memory) - Sum(old(counts.slots[..])) % WORD)
                    && (counts.slots[PRIME_BUCKET] == 0 || (replication > 1 && counts.slots[BACKUP_BUCKET] == 0)))
    {
      if memory <= HEADER_BYTES {
        return Rejected;
      }
      var capacity := (memory - HEADER_BYTES) / SLOT_BYTES;
      if capacity == 0 {
        return Rejected;
      }
      var manual := ManualSlots();
      if manual > capacity {
        return Rejected;
      }
      ghost var configured := counts.slots[..];
      ghost var topped := counts.AllocateWeightedSlots(capacity - manual);
      assert Division(counts.isExplicit, configured, counts.slots[..], capacity - manual);
      if counts.slots[PRIME_BUCKET] == 0 || (replication > 1 && counts.slots[BACKUP_BUCKET] == 0) {
        TooLittle(counts.isExplicit, configured, counts.slots[..], memory, replication);
        return Rejected;
      }
      r := Accepted(Header(counts.slots[0], counts.slots[1], counts.slots[2]));
      assert counts.slots[..] == [r.header.prime, r.header.cache, r.header.backup];
      assert Configured(counts.isExplicit, configured, memory, replication, r.header);
    }

    method ManualSlots() returns (manual: nat)
      requires counts.Valid()
      ensures manual == Sum(counts.slots[..]) % WORD
    {
      ManualSum(counts.slots[..]);
      manual := Add64(Add64(counts.slots[0], counts.slots[1]), counts.slots[2]);
    }
  }

  lemma ManualSum(s: Counts)
    ensures Add64(Add64(s[0], s[1]), s[2]) == Sum(s) % WORD
  {
    AddMod(s[0] + s[1], s[2]);
  }

  ghost predicate Division(isExplicit: Flags, before: Counts, after: Counts, remaining: nat) {
    exists topped: Flags :: Divided(isExplicit, before, after, remaining, topped)
  }

  function Capacity(memory: nat): nat
    requires memory >= HEADER_BYTES
  {
    (memory - HEADER_BYTES) / SLOT_BYTES
  }

  /** The capacity is the largest number of slots that fits behind the header. */
  lemma CapacityIsMost(memory: nat, slots: nat)
    requires memory >= HEADER_BYTES
    ensures HEADER_BYTES + SLOT_BYTES * slots <= memory <==> slots <= Capacity(memory)
  {
  }

  /** The counts an accepted configuration ends with. */
  ghost predicate Configured(isExplicit: Flags, configured: Counts, memory: nat, replication: nat, h: Header) {
    && memory > HEADER_BYTES && 0 < Capacity(memory) && Sum(configured) % WORD <= Capacity(memory)
    && Division(isExplicit, configured, [h.prime, h.cache, h.backup], Capacity(memory) - Sum(configured) % WORD)
    && h.prime > 0 && (replication > 1 ==> h.backup > 0)
  }

  /** The configurations that are accepted. */
  ghost predicate Admissible(isExplicit: Flags, configured: Counts, memory: nat, replication: nat) {
    exists h: Header :: Configured(isExplicit, configured, memory, replication, h)
  }

  /** As there is one division only, an admissible configuration can end with one header only. */
  lemma OneHeader(isExplicit: Flags, configured: Counts, after: Counts, memory: nat, replication: nat, h: Header)
    requires Configured(isExplicit, configured, memory, replication, h)
    requires Division(isExplicit, configured, after, Capacity(memory) - Sum(configured) % WORD)
    ensures after == [h.prime, h.cache, h.backup]
  {
    var remaining := Capacity(memory) - Sum(configured) % WORD;
    var counts: Counts := [h.prime, h.cache, h.backup];
    var s: Flags :| Divided(isExplicit, configured, after, remaining, s);
    var t: Flags :| Divided(isExplicit, configured, counts, remaining, t);
    DivisionUnique(isExplicit, configured, after, counts, remaining, s, t);
  }

  lemma TooLittle(isExplicit: Flags, configured: Counts, after: Counts, memory: nat, replication: nat)
    requires memory > HEADER_BYTES && Sum(configured) % WORD <= Capacity(memory)
    requires Division(isExplicit, configured, after, Capacity(memory) - Sum(configured) % WORD)
    requires after[PRIME_BUCKET] == 0 || (replication > 1 && after[BACKUP_BUCKET] == 0)
    ensures !Admissible(isExplicit, configured, memory, replication)
  {
    if h :| Configured(isExplicit, configured, memory, replication, h) {
      OneHeader(isExplicit, configured, after, memory, replication, h);
    }
  }

  lemma AcceptedTotal(isExplicit: Flags, configured: Counts, memory: nat, replication: nat, h: Header)
    requires Configured(isExplicit, configured, memory, replication, h)
    requires forall i :: 0 <= i < 3 ==> !isExplicit[i] ==> configured[i] == 0
    ensures h.Total() >= Sum(configured)
    ensures h.Total() <= Sum(configured) + Capacity(memory) - Sum(configured) % WORD
    ensures WeightSum(isExplicit) > 0 ==> h.Total() == Sum(configured) + Capacity(memory) - Sum(configured) % WORD
  {
    var remaining := Capacity(memory) - Sum(configured) % WORD;
    var after: Counts := [h.prime, h.cache, h.backup];
    var topped: Flags :| Divided(isExplicit, configured, after, remaining, topped);
    assert forall i :: 0 <= i < 3 ==> isExplicit[i] ==> after[i] == configured[i];
    assert h.Total() == Sum(configured) + AutoSum(isExplicit, after);
  }

  /** A configuration that is accepted gives a sound layout just when the sum of the configured counts did not wrap;
      then the counts fill the capacity if any of them was automatic. */
  lemma AcceptedIsSoundIff(isExplicit: Flags, configured: Counts, memory: nat, replication: nat, h: Header)
    requires memory < WORD && Configured(isExplicit, configured, memory, replication, h)
    requires forall i :: 0 <= i < 3 ==> configured[i] < WORD && (!isExplicit[i] ==> configured[i] == 0)
    ensures Sound(h, memory) <==> Sum(configured) < WORD
    ensures Sum(configured) < WORD && WeightSum(isExplicit) > 0 ==> h.Total() == Capacity(memory)
  {
    AcceptedTotal(isExplicit, configured, memory, replication, h);
    if Sum(configured) < WORD {
      Small(Sum(configured));
      FittingIsSound(h, memory);
    } else {
      TooManyCollide(h, memory);
    }
  }

  const HALF: nat := 0x8000_0000_0000_0000

  lemma AllExplicit(configured: Counts, remaining: nat)
    ensures Division([true, true, true], configured, configured, remaining)
  {
    assert Divided([true, true, true], configured, configured, remaining, [false, false, false]);
  }

  /** Such a configuration exists, and ResolveSlots accepts it: two counts of 2^63 add up to nothing in 64 bits. */
  lemma WrappedSumIsAccepted(memory: nat)
    requires HEADER_BYTES + SLOT_BYTES <= memory < WORD
    ensures Configured([true, true, true], [HALF, 0, HALF], memory, 1, Header(HALF, 0, HALF))
    ensures Admissible([true, true, true], [HALF, 0, HALF], memory, 1)
    ensures !Sound(Header(HALF, 0, HALF), memory)
  {
    var configured: Counts := [HALF, 0, HALF];
    var h := Header(HALF, 0, HALF);
    assert Sum(configured) == WORD && Capacity(memory) > 0;
    AllExplicit(configured, Capacity(memory));
    assert [h.prime, h.cache, h.backup] == configured;
    assert Configured([true, true, true], configured, memory, 1, h);
    TooManyCollide(h, memory);
  }
}
