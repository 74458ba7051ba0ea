/** The slot stored in a memory node, and the words the client and the nodes share. */
module Slots {

  type byte = x: int | 0 <= x < 256

  const MAX_VALUE_SIZE: nat := 256
  const IV_BYTES: nat := 16
  const MAC_BYTES: nat := 32

  datatype Option<+T> = None | Some(value: T)

  function Zeros(n: nat): (s: seq<byte>)
    ensures |s| == n
    ensures forall i :: 0 <= i < n ==> s[i] == 0
  {
    seq(n, i => 0 as byte)
  }

  /** Everything of a slot behind its guard word: the part one body write covers. */
  datatype Body = Body(visible: nat, key: nat, tie: nat, valid: bool, tombstone: bool,
                       valueLen: nat, iv: seq<byte>, mac: seq<byte>, ciphertext: seq<byte>)

  datatype Slot = Slot(guard: nat, body: Body) {

    /** A slot whose guard and visible epochs differ is half-committed. */
    predicate Stable() {
      guard == body.visible
    }

    predicate IsEmpty() {
      guard == 0 && body.visible == 0 && body.key == 0 && !body.valid && !body.tombstone
    }

    /** The test a probe makes before it reports a key as found, tombstones included. */
    predicate Holds(k: nat) {
      Stable() && body.valid && body.key == k
    }

    predicate Present(k: nat) {
      Stable() && body.key == k && body.valid && !body.tombstone
    }

    /** A slot another key may take over. */
    predicate Reusable() {
      Stable() && body.valid && body.tombstone
    }
  }

  const ZERO_BODY: Body :=
    Body(0, 0, 0, false, false, 0, Zeros(IV_BYTES), Zeros(MAC_BYTES), Zeros(MAX_VALUE_SIZE))

  const ZERO_SLOT: Slot := Slot(0, ZERO_BODY)

  /** What a committed proposal looks like: its own epoch in both words, never zero. */
  predicate IsProposal(p: Slot) {
    p.Stable() && p.body.valid && p.body.visible >= 1
  }

  datatype Kind = Prime | Cache | Backup

  /** The fate of one transport call: carried out and answered, lost on the way out,
      or carried out with its answer lost. */
  datatype Fault = Delivered | Dropped | ReplyLost

  /** The fate of the n-th transport call of a run. */
  type Script = nat -> Fault

  ghost predicate ReliableFrom(script: Script, n: nat) {
    forall i :: n <= i ==> script(i) == Delivered
  }
}
