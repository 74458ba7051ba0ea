/** Slots over one-sided transport: bodies are stored and fetched field by field, in any order and by any number of
    clients at once, and evicted the same way. What decodes is the work of one single make call all the same. */
module FieldStores {
  import opened Slots
  import opened Codec

  datatype Field =
    | GuardWord | VisibleWord | KeyWord | TieWord | FlagWords | LengthWord | IvBytes | MacField | CipherBytes

  /** The target with one field taken from the source. */
  function Copied(target: Slot, source: Slot, f: Field): Slot {
    var b, s := target.body, source.body;
    match f
    case GuardWord => target.(guard := source.guard)
    case VisibleWord => target.(body := b.(visible := s.visible))
    case KeyWord => target.(body := b.(key := s.key))
    case TieWord => target.(body := b.(tie := s.tie))
    case FlagWords => target.(body := b.(valid := s.valid, tombstone := s.tombstone))
    case LengthWord => target.(body := b.(valueLen := s.valueLen))
    case IvBytes => target.(body := b.(iv := s.iv))
    case MacField => target.(body := b.(mac := s.mac))
    case CipherBytes => target.(body := b.(ciphertext := s.ciphertext))
  }

  /** The slots of the nodes, and the clients' own copies of slots. */
  datatype Memory = Memory(slots: seq<Slot>, copies: seq<Slot>)

  /** A field of a made slot is stored; a field is fetched into a copy; a field of a copy is stored, as a refresh does;
      a field is zeroed; a guard is swapped. */
  datatype FieldEvent =
    | Stores(i: nat, call: Call, f: Field)
    | Fetches(r: nat, i: nat, f: Field)
    | Relays(r: nat, i: nat, f: Field)
    | Zeroes(i: nat, f: Field)
    | Swaps(i: nat, epoch: nat)

  predicate EventOk(m: Memory, e: FieldEvent) {
    match e
    case Stores(i, call, _) => i < |m.slots| && |call.value| <= MAX_VALUE_SIZE && call.epoch < Pow256(8)
    case Fetches(r, i, _) => r < |m.copies| && i < |m.slots|
    case Relays(r, i, _) => r < |m.copies| && i < |m.slots|
    case Zeroes(i, _) => i < |m.slots|
    case Swaps(i, _) => i < |m.slots|
  }

  function Happen(c: Crypto, m: Memory, e: FieldEvent): (r: Memory)
    requires EventOk(m, e)
    ensures |r.slots| == |m.slots| && |r.copies| == |m.copies|
  {
    match e
    case Stores(i, call, f) => m.(slots := m.slots[i := Copied(m.slots[i], Made(c, call), f)])
    case Fetches(r, i, f) => m.(copies := m.copies[r := Copied(m.copies[r], m.slots[i], f)])
    case Relays(r, i, f) => m.(slots := m.slots[i := Copied(m.slots[i], m.copies[r], f)])
    case Zeroes(i, f) => m.(slots := m.slots[i := Copied(m.slots[i], ZERO_SLOT, f)])
    case Swaps(i, epoch) => m.(slots := m.slots[i := m.slots[i].(guard := epoch)])
  }

  ghost predicate EventsOk(m: Memory, events: seq<FieldEvent>) {
    forall j :: 0 <= j < |events| ==> EventOk(m, events[j])
  }

  ghost function After(c: Crypto, m: Memory, events: seq<FieldEvent>): (r: Memory)
    requires EventsOk(m, events)
    ensures |r.slots| == |m.slots| && |r.copies| == |m.copies|
  {
    if events == [] then m
    else
      var before := After(c, m, events[..|events| - 1]);
      assert EventOk(m, events[|events| - 1]);
      Happen(c, before, events[|events| - 1])
  }

  function CallsOf(events: seq<FieldEvent>): set<Call> {
    set j | 0 <= j < |events| && events[j].Stores? :: events[j].call
  }

  ghost predicate Blank(m: Memory) {
    && (forall i :: 0 <= i < |m.slots| ==> m.slots[i] == ZERO_SLOT)
    && (forall r :: 0 <= r < |m.copies| ==> m.copies[r] == ZERO_SLOT)
  }

  // ------------------------------------------------------------------ where fields come from

  /** The fields have their sizes, and the MAC field came whole from one of the calls, or is blank. */
  ghost predicate Traced(c: Crypto, s: Slot, calls: set<Call>) {
    FitsLayout(s.body) && MacFieldFrom(c, s.body, calls)
  }

  ghost predicate AllTraced(c: Crypto, m: Memory, calls: set<Call>) {
    && (forall i :: 0 <= i < |m.slots| ==> Traced(c, m.slots[i], calls))
    && (forall r :: 0 <= r < |m.copies| ==> Traced(c, m.copies[r], calls))
  }

  lemma CopiedTraced(c: Crypto, target: Slot, source: Slot, f: Field, calls: set<Call>)
    requires Traced(c, target, calls) && Traced(c, source, calls)
    ensures Traced(c, Copied(target, source, f), calls)
  {
  }

  lemma MoreTraced(c: Crypto, s: Slot, calls: set<Call>, more: set<Call>)
    requires Traced(c, s, calls) && calls <= more
    ensures Traced(c, s, more)
  {
    if call :| call in calls && CallFits(call) && Made(c, call).body.mac == s.body.mac {
      assert call in more;
    }
  }

  lemma ZeroTraced(c: Crypto, calls: set<Call>)
    ensures Traced(c, ZERO_SLOT, calls)
  {
  }

  lemma MadeTraced(c: Crypto, call: Call, calls: set<Call>)
    requires WellSized(c) && CallFits(call) && call in calls
    ensures Traced(c, Made(c, call), calls)
  {
    MadeFits(c, call);
  }

  lemma HappenTraced(c: Crypto, m: Memory, e: FieldEvent, calls: set<Call>)
    requires WellSized(c) && EventOk(m, e) && AllTraced(c, m, calls) && (e.Stores? ==> e.call in calls)
    ensures AllTraced(c, Happen(c, m, e), calls)
  {
    match e
    case Stores(i, call, f) =>
      MadeTraced(c, call, calls);
      CopiedTraced(c, m.slots[i], Made(c, call), f, calls);
    case Fetches(r, i, f) => CopiedTraced(c, m.copies[r], m.slots[i], f, calls);
    case Relays(r, i, f) => CopiedTraced(c, m.slots[i], m.copies[r], f, calls);
    case Zeroes(i, f) =>
      ZeroTraced(c, calls);
      CopiedTraced(c, m.slots[i], ZERO_SLOT, f, calls);
    case Swaps(i, epoch) => assert Traced(c, m.slots[i], calls);
  }

  /** In every run of field stores, whatever a node or a client has assembled has its MAC field from one of the
      calls. */
  lemma {:induction false} AfterTraced(c: Crypto, m: Memory, events: seq<FieldEvent>)
    requires WellSized(c) && Blank(m) && EventsOk(m, events)
    ensures AllTraced(c, After(c, m, events), CallsOf(events))
  {
    if events == [] {
      ZeroTraced(c, {});
    } else {
      var n := |events| - 1;
      var before, calls := After(c, m, events[..n]), CallsOf(events);
      AfterTraced(c, m, events[..n]);
      assert CallsOf(events[..n]) <= calls;
      forall i | 0 <= i < |before.slots| ensures Traced(c, before.slots[i], calls) {
        MoreTraced(c, before.slots[i], CallsOf(events[..n]), calls);
      }
      forall r | 0 <= r < |before.copies| ensures Traced(c, before.copies[r], calls) {
        MoreTraced(c, before.copies[r], CallsOf(events[..n]), calls);
      }
      assert EventOk(m, events[n]);
      HappenTraced(c, before, events[n], calls);
    }
  }

  /** A copy put together from fetches at different times, amid any stores, relays, zeroing and swaps, either does
      not decode, or agrees with one single call in every field the MAC covers, and decodes to that call's value at
      its epoch. */
  lemma TornReadIsOneCall(c: Crypto, m: Memory, events: seq<FieldEvent>, r: nat) returns (call: Call)
    requires WellSized(c) && Blank(m) && EventsOk(m, events) && r < |m.copies|
    requires var s := After(c, m, events).copies[r];
             MacSeparates(c, s.body, CallsOf(events)) && DecodeSlot(c, s).Some?
    ensures call in CallsOf(events) && CallFits(call)
    ensures var s := After(c, m, events).copies[r];
            && SameSealed(Made(c, call).body, s.body)
            && DecodeSlot(c, s) == Some(call.value) && s.guard == call.epoch
  {
    AfterTraced(c, m, events);
    call := DecodedIsOneCall(c, After(c, m, events).copies[r], CallsOf(events));
  }

  // ----------------------------------------------------------------------- untorn runs

  /** The target with these fields taken from the source, one after the other. */
  function CopiedAll(target: Slot, source: Slot, fields: seq<Field>): Slot {
    if fields == [] then target
    else Copied(CopiedAll(target, source, fields[..|fields| - 1]), source, fields[|fields| - 1])
  }

  const ALL_FIELDS: seq<Field> :=
    [VisibleWord, KeyWord, TieWord, FlagWords, LengthWord, IvBytes, MacField, CipherBytes, GuardWord]

  lemma AllCopied(target: Slot, source: Slot)
    ensures CopiedAll(target, source, ALL_FIELDS) == source
  {
    var f := ALL_FIELDS;
    assert forall n :: 0 <= n < 9 ==> f[..n + 1][..n] == f[..n];
    assert f[..9] == f && f[..0] == [];
    CopiedNext(target, source, f, 0);
    CopiedNext(target, source, f, 1);
    CopiedNext(target, source, f, 2);
    CopiedNext(target, source, f, 3);
    CopiedNext(target, source, f, 4);
    CopiedNext(target, source, f, 5);
    CopiedNext(target, source, f, 6);
    CopiedNext(target, source, f, 7);
    CopiedNext(target, source, f, 8);
  }

  lemma CopiedNext(target: Slot, source: Slot, fields: seq<Field>, n: nat)
    requires n < |fields|
    ensures CopiedAll(target, source, fields[..n + 1])
         == Copied(CopiedAll(target, source, fields[..n]), source, fields[n])
  {
    assert fields[..n + 1][..n] == fields[..n];
  }

  function StoreAll(i: nat, call: Call, fields: seq<Field>): (e: seq<FieldEvent>)
    ensures |e| == |fields|
  {
    seq(|fields|, j requires 0 <= j < |fields| => Stores(i, call, fields[j]))
  }

  function FetchAll(r: nat, i: nat, fields: seq<Field>): (e: seq<FieldEvent>)
    ensures |e| == |fields|
  {
    seq(|fields|, j requires 0 <= j < |fields| => Fetches(r, i, fields[j]))
  }

  lemma {:induction false} StoredAll(c: Crypto, m: Memory, i: nat, call: Call, fields: seq<Field>)
    requires i < |m.slots| && CallFits(call)
    ensures EventsOk(m, StoreAll(i, call, fields))
    ensures After(c, m, StoreAll(i, call, fields))
         == m.(slots := m.slots[i := CopiedAll(m.slots[i], Made(c, call), fields)])
  {
    if fields == [] {
      assert m.slots[i := m.slots[i]] == m.slots;
    } else {
      var n := |fields| - 1;
      StoredAll(c, m, i, call, fields[..n]);
      assert StoreAll(i, call, fields)[..n] == StoreAll(i, call, fields[..n]);
    }
  }

  lemma {:induction false} FetchedAll(c: Crypto, m: Memory, r: nat, i: nat, fields: seq<Field>)
    requires i < |m.slots| && r < |m.copies|
    ensures EventsOk(m, FetchAll(r, i, fields))
    ensures After(c, m, FetchAll(r, i, fields))
         == m.(copies := m.copies[r := CopiedAll(m.copies[r], m.slots[i], fields)])
  {
    if fields == [] {
      assert m.copies[r := m.copies[r]] == m.copies;
    } else {
      var n := |fields| - 1;
      FetchedAll(c, m, r, i, fields[..n]);
      assert FetchAll(r, i, fields)[..n] == FetchAll(r, i, fields[..n]);
    }
  }

  lemma {:induction false} AfterThen(c: Crypto, m: Memory, first: seq<FieldEvent>, later: seq<FieldEvent>)
    requires EventsOk(m, first) && EventsOk(m, later)
    ensures EventsOk(m, first + later) && EventsOk(After(c, m, first), later)
    ensures After(c, m, first + later) == After(c, After(c, m, first), later)
  {
    if later == [] {
      assert first + later == first;
    } else {
      var n := |later| - 1;
      AfterThen(c, m, first, later[..n]);
      assert (first + later)[..|first + later| - 1] == first + later[..n];
    }
  }

  /** Stored and fetched whole, a slot comes back as it was made. */
  lemma UntornReadsBack(c: Crypto, m: Memory, i: nat, r: nat, call: Call)
    requires i < |m.slots| && r < |m.copies| && CallFits(call)
    ensures var events := StoreAll(i, call, ALL_FIELDS) + FetchAll(r, i, ALL_FIELDS);
            && EventsOk(m, events)
            && After(c, m, events).copies[r] == Made(c, call)
  {
    var stores, fetches := StoreAll(i, call, ALL_FIELDS), FetchAll(r, i, ALL_FIELDS);
    StoredAll(c, m, i, call, ALL_FIELDS);
    FetchedAll(c, m, r, i, ALL_FIELDS);
    FetchedAll(c, After(c, m, stores), r, i, ALL_FIELDS);
    AfterThen(c, m, stores, fetches);
    AllCopied(m.slots[i], Made(c, call));
    AllCopied(m.copies[r], Made(c, call));
  }

  // --------------------------------------------------------------------------- a witness

  /** A MAC that tells epochs apart, and nothing else. */
  function ToyMac(x: seq<byte>): (r: seq<byte>)
    ensures |r| == MAC_BYTES
  {
    seq<byte>(MAC_BYTES, i => if i == 0 then 1 else if |x| > 8 then x[8] else 0)
  }

  function Toy(): Crypto {
    Crypto(k => 0, (k, v, e) => 0, (k, e) => Zeros(IV_BYTES), (iv, i) => 0, ToyMac)
  }

  lemma EpochByte(b: Body)
    requires b.valueLen <= |b.ciphertext|
    ensures |MacInput(b)| > 8 && MacInput(b)[8] == b.visible % 256
  {
    var key, epoch := LittleEndian(b.key, 8), LittleEndian(b.visible, 8);
    var rest := LittleEndian(b.tie, 8) + LittleEndian(FlagWord(b), 4) + LittleEndian(b.valueLen, 4) + b.iv
                + b.ciphertext[..b.valueLen];
    assert MacInput(b) == key + (epoch + rest);
    assert epoch[0] == b.visible % 256;
  }

  function ToyCall(epoch: nat): Call {
    Call("k", [], false, epoch)
  }

  /** A writer stores half of its slot; another stores all of its own over it; a reader fetches that. */
  function ToyRun(): seq<FieldEvent> {
    StoreAll(0, ToyCall(2), ALL_FIELDS[..5]) + (StoreAll(0, ToyCall(1), ALL_FIELDS) + FetchAll(0, 0, ALL_FIELDS))
  }

  const TOY_MEMORY: Memory := Memory([ZERO_SLOT], [ZERO_SLOT])

  lemma ToySized()
    ensures WellSized(Toy()) && CallFits(ToyCall(1)) && CallFits(ToyCall(2))
  {
    assert Pow256(8) > 2 by { assert Pow256(1) == 256 && Pow256(8) == 256 * Pow256(7); }
  }

  lemma ToySeparates(calls: set<Call>)
    requires forall call :: call in calls ==> call == ToyCall(1) || call == ToyCall(2)
    ensures MacSeparates(Toy(), Made(Toy(), ToyCall(1)).body, calls)
  {
    var b := Made(Toy(), ToyCall(1)).body;
    EpochByte(b);
    assert ToyMac(MacInput(b))[0] == 1;
    forall call | call in calls && CallFits(call)
                  && Toy().mac(MacInput(Made(Toy(), call).body)) == Toy().mac(MacInput(b))
      ensures MacInput(Made(Toy(), call).body) == MacInput(b)
    {
      EpochByte(Made(Toy(), call).body);
      assert ToyMac(MacInput(Made(Toy(), call).body))[1] == ToyMac(MacInput(b))[1];
      assert call == ToyCall(1);
    }
  }

  lemma ToyCalls()
    ensures ToyCall(1) in CallsOf(ToyRun()) && ToyCall(2) in CallsOf(ToyRun())
    ensures forall call :: call in CallsOf(ToyRun()) ==> call == ToyCall(1) || call == ToyCall(2)
  {
    var events := ToyRun();
    assert events[0] == Stores(0, ToyCall(2), ALL_FIELDS[0]) && events[5] == Stores(0, ToyCall(1), ALL_FIELDS[0]);
    assert forall j :: 0 <= j < |events| && events[j].Stores? ==>
                         events[j].call == ToyCall(1) || events[j].call == ToyCall(2);
  }

  lemma ToyCopy()
    ensures EventsOk(TOY_MEMORY, ToyRun())
    ensures After(Toy(), TOY_MEMORY, ToyRun()).copies[0] == Made(Toy(), ToyCall(1))
  {
    var c, m := Toy(), TOY_MEMORY;
    var first := StoreAll(0, ToyCall(2), ALL_FIELDS[..5]);
    ToySized();
    StoredAll(c, m, 0, ToyCall(2), ALL_FIELDS[..5]);
    UntornReadsBack(c, m, 0, 0, ToyCall(1));
    UntornReadsBack(c, After(c, m, first), 0, 0, ToyCall(1));
    AfterThen(c, m, first, StoreAll(0, ToyCall(1), ALL_FIELDS) + FetchAll(0, 0, ALL_FIELDS));
  }

  /** There are runs and copies that TornReadIsOneCall speaks of: here two writers store into one slot, and the copy
      decodes as the work of the second. */
  lemma TornReadHasInstance()
    ensures var c, events := Toy(), ToyRun();
            && WellSized(c) && Blank(TOY_MEMORY) && EventsOk(TOY_MEMORY, events)
            && ToyCall(1) in CallsOf(events) && ToyCall(2) in CallsOf(events)
            && var s := After(c, TOY_MEMORY, events).copies[0];
               MacSeparates(c, s.body, CallsOf(events)) && DecodeSlot(c, s) == Some([])
  {
    ToySized();
    ToyCalls();
    ToyCopy();
    ToySeparates(CallsOf(ToyRun()));
    DecodeMade(Toy(), "k", [], false, 1);
  }
}
