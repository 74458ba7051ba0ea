/** Turning a key and a value into a sealed slot and back: AES in CTR mode is XOR with a
    keystream (section 6.5 of NIST SP 800-38A), the MAC is a function of the bytes fed to it. */
module Codec {
  import opened Slots

  /** The primitives the client is keyed with, none of which is looked into. */
  datatype Crypto = Crypto(
    hash: string -> nat,
    tieBreaker: (string, seq<byte>, nat) -> nat,
    ivSeed: (string, nat) -> seq<byte>,
    keystream: (seq<byte>, nat) -> byte,
    mac: seq<byte> -> seq<byte>)

  // ------------------------------------------------------------------- CTR mode

  /** Bitwise exclusive or of the n low bits. */
  function XorBits(a: nat, b: nat, n: nat): (r: nat) {
    if n == 0 then 0 else (if a % 2 == b % 2 then 0 else 1) + 2 * XorBits(a / 2, b / 2, n - 1)
  }

  function Pow2(n: nat): (p: nat)
    ensures p >= 1
  {
    if n == 0 then 1 else 2 * Pow2(n - 1)
  }

  lemma {:induction false} XorBitsTwice(a: nat, b: nat, n: nat)
    requires a < Pow2(n)
    ensures XorBits(XorBits(a, b, n), b, n) == a
  {
    if n > 0 {
      XorBitsTwice(a / 2, b / 2, n - 1);
      var x := XorBits(a, b, n);
      assert x / 2 == XorBits(a / 2, b / 2, n - 1);
      assert x % 2 == if a % 2 == b % 2 then 0 else 1;
    }
  }

  lemma {:induction false} XorBitsBound(a: nat, b: nat, n: nat)
    ensures XorBits(a, b, n) < Pow2(n)
  {
    if n > 0 {
      XorBitsBound(a / 2, b / 2, n - 1);
    }
  }

  function Xor(a: byte, b: byte): byte {
    XorBitsBound(a, b, 8);
    XorBits(a, b, 8)
  }

  lemma XorTwice(a: byte, b: byte)
    ensures Xor(Xor(a, b), b) == a
  {
    XorBitsTwice(a, b, 8);
  }

  /** Bit j of a number is set. */
  predicate Bit(a: nat, j: nat) {
    if j == 0 then a % 2 == 1 else Bit(a / 2, j - 1)
  }

  /** A bit of the result is set just when the two numbers differ in it. */
  lemma {:induction false} XorBitsAt(a: nat, b: nat, n: nat, j: nat)
    ensures Bit(XorBits(a, b, n), j) <==> j < n && (Bit(a, j) != Bit(b, j))
    decreases n + j
  {
    var x := XorBits(a, b, n);
    if n == 0 {
      NoBits(j);
    } else {
      assert x % 2 == (if a % 2 == b % 2 then 0 else 1) && x / 2 == XorBits(a / 2, b / 2, n - 1);
      if j > 0 {
        XorBitsAt(a / 2, b / 2, n - 1, j - 1);
      }
    }
  }

  lemma {:induction false} NoBits(j: nat)
    ensures !Bit(0, j)
  {
    if j > 0 {
      NoBits(j - 1);
    }
  }

  lemma {:induction false} XorBitsZero(a: nat, b: nat, n: nat)
    requires a < Pow2(n) && b < Pow2(n)
    ensures XorBits(0, b, n) == b && (XorBits(a, b, n) == 0 <==> a == b)
  {
    if n > 0 {
      XorBitsZero(a / 2, b / 2, n - 1);
    }
  }

  lemma XorZero(a: byte, b: byte)
    ensures Xor(0, b) == b && (Xor(a, b) == 0 <==> a == b)
  {
    assert Pow2(8) == 256;
    XorBitsZero(a, b, 8);
  }

  function Ctr(c: Crypto, iv: seq<byte>, text: seq<byte>): (r: seq<byte>)
    ensures |r| == |text|
  {
    seq<byte>(|text|, i requires 0 <= i < |text| => Xor(text[i], c.keystream(iv, i)))
  }

  lemma CtrTwice(c: Crypto, iv: seq<byte>, text: seq<byte>)
    ensures Ctr(c, iv, Ctr(c, iv, text)) == text
  {
    forall i | 0 <= i < |text| ensures Ctr(c, iv, Ctr(c, iv, text))[i] == text[i] {
      XorTwice(text[i], c.keystream(iv, i));
    }
  }

  /** What CTR mode makes of a text: a bit is turned just where the keystream has one; of zeros it makes the
      keystream itself; and texts under one IV differ just where their images do. */
  lemma CtrTurnsBits(c: Crypto, iv: seq<byte>, text: seq<byte>, other: seq<byte>, i: nat)
    requires i < |text| == |other|
    ensures forall j: nat :: j < 8 ==>
              (Bit(Ctr(c, iv, text)[i], j) <==> Bit(text[i], j) != Bit(c.keystream(iv, i), j))
    ensures Ctr(c, iv, Zeros(|text|))[i] == c.keystream(iv, i)
    ensures Ctr(c, iv, text)[i] == Ctr(c, iv, other)[i] <==> text[i] == other[i]
  {
    var key := c.keystream(iv, i);
    forall j: nat | j < 8 ensures Bit(Xor(text[i], key), j) <==> Bit(text[i], j) != Bit(key, j) {
      XorBitsAt(text[i], key, 8, j);
    }
    XorZero(0, key);
    XorTwice(text[i], key);
    XorTwice(other[i], key);
  }

  // ------------------------------------------------------------ what the MAC covers

  /** The n low bytes of v, least significant first: how a word lies in memory. */
  function LittleEndian(v: nat, n: nat): (r: seq<byte>)
    ensures |r| == n
  {
    if n == 0 then [] else [v % 256] + LittleEndian(v / 256, n - 1)
  }

  function Pow256(n: nat): (p: nat)
    ensures p >= 1
  {
    if n == 0 then 1 else 256 * Pow256(n - 1)
  }

  /** The number bytes stand for, least significant first. */
  function Number(s: seq<byte>): nat {
    if s == [] then 0 else s[0] + 256 * Number(s[1..])
  }

  lemma {:induction false} LittleEndianNumber(v: nat, n: nat)
    requires v < Pow256(n)
    ensures Number(LittleEndian(v, n)) == v
  {
    if n > 0 {
      LittleEndianNumber(v / 256, n - 1);
      assert LittleEndian(v, n)[1..] == LittleEndian(v / 256, n - 1);
    }
  }

  function FlagWord(b: Body): nat {
    (if b.valid then 1 else 0) + (if b.tombstone then 2 else 0)
  }

  /** The bytes fed to the MAC, in order. */
  function MacInput(b: Body): seq<byte>
    requires b.valueLen <= |b.ciphertext|
  {
    LittleEndian(b.key, 8) + LittleEndian(b.visible, 8) + LittleEndian(b.tie, 8)
    + LittleEndian(FlagWord(b), 4) + LittleEndian(b.valueLen, 4) + b.iv + b.ciphertext[..b.valueLen]
  }

  /** The fields fit the words the slot gives them. */
  predicate FitsLayout(b: Body) {
    && b.key < Pow256(8) && b.visible < Pow256(8) && b.tie < Pow256(8) && b.valueLen < Pow256(4)
    && |b.iv| == IV_BYTES && |b.mac| == MAC_BYTES && |b.ciphertext| == MAX_VALUE_SIZE
  }

  /** Equal in every field the MAC covers. */
  predicate SameSealed(a: Body, b: Body) {
    && a.key == b.key && a.visible == b.visible && a.tie == b.tie
    && a.valid == b.valid && a.tombstone == b.tombstone
    && a.valueLen == b.valueLen <= MAX_VALUE_SIZE && a.iv == b.iv
    && a.valueLen <= |a.ciphertext| && a.valueLen <= |b.ciphertext|
    && a.ciphertext[..a.valueLen] == b.ciphertext[..b.valueLen]
  }

  lemma FiveWords(a: seq<byte>, b: seq<byte>, c: seq<byte>, d: seq<byte>, e: seq<byte>, rest: seq<byte>)
    requires |a| == |b| == |c| == 8 && |d| == |e| == 4
    ensures var m := a + b + c + d + e + rest;
            && m[..8] == a && m[8..16] == b && m[16..24] == c && m[24..28] == d && m[28..32] == e && m[32..] == rest
  {
  }

  /** The words of the MAC input, field by field. */
  lemma MacInputWords(b: Body)
    requires FitsLayout(b) && b.valueLen <= MAX_VALUE_SIZE
    ensures var m := MacInput(b);
            && |m| == 48 + b.valueLen
            && m[..8] == LittleEndian(b.key, 8) && m[8..16] == LittleEndian(b.visible, 8)
            && m[16..24] == LittleEndian(b.tie, 8) && m[24..28] == LittleEndian(FlagWord(b), 4)
            && m[28..32] == LittleEndian(b.valueLen, 4) && m[32..48] == b.iv && m[48..] == b.ciphertext[..b.valueLen]
  {
    var rest := b.iv + b.ciphertext[..b.valueLen];
    FiveWords(LittleEndian(b.key, 8), LittleEndian(b.visible, 8), LittleEndian(b.tie, 8), LittleEndian(FlagWord(b), 4),
              LittleEndian(b.valueLen, 4), rest);
    assert MacInput(b)
        == LittleEndian(b.key, 8) + LittleEndian(b.visible, 8) + LittleEndian(b.tie, 8) + LittleEndian(FlagWord(b), 4)
           + LittleEndian(b.valueLen, 4) + rest;
    assert MacInput(b)[32..48] == rest[..16] && MacInput(b)[48..] == rest[16..];
  }

  /** The MAC covers key hash, visible epoch and tie-breaker in eight bytes each, the flags word, with VALID in its
      lowest bit and TOMBSTONE in the next, and the length in four each, the IV and the used bytes. */
  lemma MacInputLayout(b: Body)
    requires FitsLayout(b) && b.valueLen <= MAX_VALUE_SIZE
    ensures var m := MacInput(b);
            && |m| == 48 + b.valueLen
            && Number(m[..8]) == b.key && Number(m[8..16]) == b.visible && Number(m[16..24]) == b.tie
            && (Bit(Number(m[24..28]), 0) <==> b.valid) && (Bit(Number(m[24..28]), 1) <==> b.tombstone)
            && Number(m[28..32]) == b.valueLen
            && m[32..48] == b.iv && m[48..] == b.ciphertext[..b.valueLen]
  {
    LittleEndianNumber(b.key, 8);
    LittleEndianNumber(b.visible, 8);
    LittleEndianNumber(b.tie, 8);
    LittleEndianNumber(FlagWord(b), 4);
    LittleEndianNumber(b.valueLen, 4);
    MacInputWords(b);
    assert Bit(FlagWord(b), 1) == Bit(FlagWord(b) / 2, 0);
  }

  /** The MAC input determines every field it was built from. */
  lemma MacInputInjective(a: Body, b: Body)
    requires FitsLayout(a) && FitsLayout(b) && a.valueLen <= MAX_VALUE_SIZE && b.valueLen <= MAX_VALUE_SIZE
    requires MacInput(a) == MacInput(b)
    ensures SameSealed(a, b)
  {
    MacInputLayout(a);
    MacInputLayout(b);
  }

  // ------------------------------------------------------------------ make and decode

  /** A sealed slot, or None when the value is too long. */
  function MakeSlot(c: Crypto, key: string, value: seq<byte>, tombstone: bool, epoch: nat): (r: Option<Slot>)
    ensures r.Some? <==> |value| <= MAX_VALUE_SIZE
    ensures r.Some? ==> r.value.guard == r.value.body.visible == epoch && r.value.body.key == c.hash(key)
    ensures r.Some? ==> r.value.body.valid && r.value.body.tombstone == tombstone
  {
    if |value| > MAX_VALUE_SIZE then None
    else
      var iv := c.ivSeed(key, epoch);
      var unsealed := Body(epoch, c.hash(key), c.tieBreaker(key, value, epoch), true, tombstone,
                           |value|, iv, Zeros(MAC_BYTES), Ctr(c, iv, value) + Zeros(MAX_VALUE_SIZE - |value|));
      Some(Slot(epoch, unsealed.(mac := c.mac(MacInput(unsealed)))))
  }

  /** The value in a slot, or None when the slot is half-committed, was tampered with or is not valid. */
  function DecodeSlot(c: Crypto, s: Slot): (r: Option<seq<byte>>)
    ensures r.Some? ==> s.Stable() && s.body.valid && |r.value| == s.body.valueLen <= MAX_VALUE_SIZE
  {
    var b := s.body;
    if b.valueLen > MAX_VALUE_SIZE || |b.ciphertext| != MAX_VALUE_SIZE then None
    else if !s.Stable() then None
    else if c.mac(MacInput(b)) != b.mac then None
    else if !b.valid then None
    else Some(Ctr(c, b.iv, b.ciphertext[..b.valueLen]))
  }

  /** What a made slot carries: the value in it is enciphered, from zeros on, with the keystream of the IV of key and
      epoch, what is behind it is blank, and values of one key and epoch differ just where their ciphertexts do. */
  lemma MadeIsSealed(c: Crypto, key: string, value: seq<byte>, other: seq<byte>, tombstone: bool, epoch: nat)
    requires |value| == |other| <= MAX_VALUE_SIZE
    ensures var b := MakeSlot(c, key, value, tombstone, epoch).value.body;
            var b' := MakeSlot(c, key, other, tombstone, epoch).value.body;
            var zeros := MakeSlot(c, key, Zeros(|value|), tombstone, epoch).value.body;
            && |b.ciphertext| == MAX_VALUE_SIZE && b.valueLen == |value|
            && b.iv == c.ivSeed(key, epoch) && b.tie == c.tieBreaker(key, value, epoch)
            && (forall i :: 0 <= i < |value| ==> zeros.ciphertext[i] == c.keystream(c.ivSeed(key, epoch), i))
            && (forall i :: 0 <= i < |value| ==> (b.ciphertext[i] == b'.ciphertext[i] <==> value[i] == other[i]))
            && (forall i :: |value| <= i < MAX_VALUE_SIZE ==> b.ciphertext[i] == 0)
            && b.mac == c.mac(MacInput(b))
  {
    var b := MakeSlot(c, key, value, tombstone, epoch).value.body;
    assert MacInput(b.(mac := Zeros(MAC_BYTES))) == MacInput(b);
    forall i | 0 <= i < |value|
      ensures Ctr(c, b.iv, Zeros(|value|))[i] == c.keystream(b.iv, i)
      ensures Ctr(c, b.iv, value)[i] == Ctr(c, b.iv, other)[i] <==> value[i] == other[i]
    {
      CtrTurnsBits(c, b.iv, value, other, i);
    }
  }

  /** Decoding what was made gives the value back, for every key, epoch, value and flag. */
  lemma DecodeMade(c: Crypto, key: string, value: seq<byte>, tombstone: bool, epoch: nat)
    requires |value| <= MAX_VALUE_SIZE
    ensures DecodeSlot(c, MakeSlot(c, key, value, tombstone, epoch).value) == Some(value)
  {
    var s := MakeSlot(c, key, value, tombstone, epoch).value;
    var iv := c.ivSeed(key, epoch);
    assert s.body.ciphertext[..|value|] == Ctr(c, iv, value);
    var unsealed := s.body.(mac := Zeros(MAC_BYTES));
    assert MacInput(unsealed) == MacInput(s.body);
    CtrTwice(c, iv, value);
  }

  // ---------------------------------------------------------------- mixed bodies

  /** The primitives give words and blocks of the sizes their slot fields have. */
  ghost predicate WellSized(c: Crypto) {
    && (forall k :: c.hash(k) < Pow256(8))
    && (forall k, v, e :: c.tieBreaker(k, v, e) < Pow256(8))
    && (forall k, e :: |c.ivSeed(k, e)| == IV_BYTES)
    && (forall x :: |c.mac(x)| == MAC_BYTES)
  }

  /** One call of make_slot. */
  datatype Call = Call(key: string, value: seq<byte>, tombstone: bool, epoch: nat)

  ghost predicate CallFits(call: Call) {
    |call.value| <= MAX_VALUE_SIZE && call.epoch < Pow256(8)
  }

  function Made(c: Crypto, call: Call): Slot
    requires |call.value| <= MAX_VALUE_SIZE
  {
    MakeSlot(c, call.key, call.value, call.tombstone, call.epoch).value
  }

  lemma MadeFits(c: Crypto, call: Call)
    requires WellSized(c) && CallFits(call)
    ensures FitsLayout(Made(c, call).body)
    ensures Made(c, call).body.mac == c.mac(MacInput(Made(c, call).body))
  {
    var b := Made(c, call).body;
    assert MacInput(b.(mac := Zeros(MAC_BYTES))) == MacInput(b);
    assert Pow256(4) > MAX_VALUE_SIZE by { assert Pow256(2) == 65536; }
  }

  /** What storing field by field leaves: the MAC field is the initial one or that of some call;
      of the other fields nothing at all is known. */
  ghost predicate MacFieldFrom(c: Crypto, b: Body, calls: set<Call>) {
    b.mac == Zeros(MAC_BYTES) || exists call :: call in calls && CallFits(call) && Made(c, call).body.mac == b.mac
  }

  /** The assumption on the MAC, made of the bytes in play only: that of body b is not blank, and none of the calls has
      another MAC input with the same MAC. */
  ghost predicate MacSeparates(c: Crypto, b: Body, calls: set<Call>) {
    b.valueLen <= |b.ciphertext| ==>
      && c.mac(MacInput(b)) != Zeros(MAC_BYTES)
      && forall call :: call in calls && CallFits(call) && c.mac(MacInput(Made(c, call).body)) == c.mac(MacInput(b)) ==>
           MacInput(Made(c, call).body) == MacInput(b)
  }

  /** A slot that decodes agrees with one single call in every field the MAC covers,
      and decodes to the value of that call. */
  lemma DecodedIsOneCall(c: Crypto, s: Slot, calls: set<Call>) returns (call: Call)
    requires WellSized(c) && FitsLayout(s.body) && MacFieldFrom(c, s.body, calls) && MacSeparates(c, s.body, calls)
    requires DecodeSlot(c, s).Some?
    ensures call in calls && CallFits(call) && SameSealed(Made(c, call).body, s.body)
    ensures DecodeSlot(c, s) == Some(call.value) && s.guard == call.epoch
  {
    assert c.mac(MacInput(s.body)) == s.body.mac;
    call :| call in calls && CallFits(call) && Made(c, call).body.mac == s.body.mac;
    MadeFits(c, call);
    MacInputInjective(Made(c, call).body, s.body);
    DecodeMade(c, call.key, call.value, call.tombstone, call.epoch);
  }

  // ------------------------------------------------------------ the codec as it runs

  /** A slot in the client's own memory, filled field by field. */
  class SlotRecord {
    var guard: nat
    var visible: nat
    var key: nat
    var tie: nat
    var valid: bool
    var tombstone: bool
    var valueLen: nat
    var iv: seq<byte>
    var mac: seq<byte>
    const ciphertext: array<byte>

    constructor ()
      ensures fresh(ciphertext) && Valid() && Value() == ZERO_SLOT
    {
      guard, visible, key, tie, valid, tombstone, valueLen := 0, 0, 0, 0, false, false, 0;
      iv, mac := Zeros(IV_BYTES), Zeros(MAC_BYTES);
      ciphertext := new byte[MAX_VALUE_SIZE](_ => 0);
      new;
      assert ciphertext[..] == Zeros(MAX_VALUE_SIZE);
    }

    ghost predicate Valid() {
      ciphertext.Length == MAX_VALUE_SIZE
    }

    function Value(): Slot
      reads this, ciphertext
    {
      Slot(guard, Body(visible, key, tie, valid, tombstone, valueLen, iv, mac, ciphertext[..]))
    }

    method Clear()
      requires Valid()
      modifies this, ciphertext
      ensures Value() == ZERO_SLOT
    {
      guard, visible, key, tie, valid, tombstone, valueLen := 0, 0, 0, 0, false, false, 0;
      iv, mac := Zeros(IV_BYTES), Zeros(MAC_BYTES);
      forall i | 0 <= i < ciphertext.Length {
        ciphertext[i] := 0;
      }
      assert ciphertext[..] == Zeros(MAX_VALUE_SIZE);
    }

    /** td_crypto_make_slot_profiled; a value that is too long leaves the record alone. */
    method Make(c: Crypto, logicalKey: string, value: seq<byte>, isTombstone: bool, epoch: nat) returns (ok: bool)
      requires Valid()
      modifies this, ciphertext
      ensures MakeSlot(c, logicalKey, value, isTombstone, epoch) == if ok then Some(Value()) else None
      ensures !ok ==> Value() == old(Value())
    {
      if |value| > MAX_VALUE_SIZE {
        return false;
      }
      Clear();
      guard, visible := epoch, epoch;
      key := c.hash(logicalKey);
      tie := c.tieBreaker(logicalKey, value, epoch);
      valid, tombstone := true, isTombstone;
      valueLen := |value|;
      iv := c.ivSeed(logicalKey, epoch);
      CtrInto(c, iv, value, ciphertext);
      assert ciphertext[..] == Ctr(c, iv, value) + Zeros(MAX_VALUE_SIZE - |value|);
      mac := c.mac(MacInput(Value().body));
      ok := true;
    }

    /** td_crypto_decode_slot_profiled: nothing is written unless the slot decodes, and then only the value's bytes. */
    method Decode(c: Crypto, plaintext: array<byte>) returns (ok: bool, length: nat)
      requires Valid() && plaintext != ciphertext && plaintext.Length >= MAX_VALUE_SIZE
      modifies plaintext
      ensures length <= plaintext.Length
      ensures DecodeSlot(c, Value()) == if ok then Some(plaintext[..length]) else None
      ensures plaintext[length..] == old(plaintext[length..])
    {
      length := 0;
      if valueLen > MAX_VALUE_SIZE {
        return false, 0;
      }
      if guard != visible {
        return false, 0;
      }
      if c.mac(MacInput(Value().body)) != mac {
        return false, 0;
      }
      if !valid {
        return false, 0;
      }
      length := valueLen;
      CtrInto(c, iv, ciphertext[..length], plaintext);
      ok := true;
    }
  }

  /** One cipher update: text is encrypted, or decrypted, into the front of the target. */
  method CtrInto(c: Crypto, iv: seq<byte>, text: seq<byte>, target: array<byte>)
    requires |text| <= target.Length
    modifies target
    ensures target[..] == Ctr(c, iv, text) + old(target[|text|..])
    ensures target[..|text|] == Ctr(c, iv, text) && target[|text|..] == old(target[|text|..])
  {
    forall i | 0 <= i < |text| {
      target[i] := Xor(text[i], c.keystream(iv, i));
    }
  }

  /** A proposal, made in a record of its own. */
  method Seal(c: Crypto, key: string, value: seq<byte>, tombstone: bool, epoch: nat) returns (made: Option<Slot>)
    ensures made == MakeSlot(c, key, value, tombstone, epoch)
  {
    var record := new SlotRecord();
    var ok := record.Make(c, key, value, tombstone, epoch);
    made := if ok then Some(record.Value()) else None;
  }
}
