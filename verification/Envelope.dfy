/** A message as both contracts read it: the bytes of emitter, sequence number and payload, and
    when it counts as new. Offsets, names and the governor are written out. */
module Envelope {
  import opened Teal
  import opened Transactions
  import opened VaaVerify
  import opened VerifyVaa
  import opened Template
  import opened LocalBlob
  import opened Replay
  import opened Signatures

  /** The header behind the signatures is there, and the payload behind it. */
  predicate Framed(vaa: bytes) {
    |vaa| > 5 && 66 * SigCount(vaa) + 57 <= |vaa|
  }

  /** Chain and address of the emitter. */
  function EmitterOf(vaa: bytes): bytes
    requires Framed(vaa)
  {
    vaa[66 * SigCount(vaa) + 14..66 * SigCount(vaa) + 48]
  }

  function SequenceOf(vaa: bytes): (n: uint64)
    requires Framed(vaa)
  {
    FromBEBound(vaa[66 * SigCount(vaa) + 48..66 * SigCount(vaa) + 56]);
    FromBE(vaa[66 * SigCount(vaa) + 48..66 * SigCount(vaa) + 56])
  }

  function PayloadOf(vaa: bytes): bytes
    requires Framed(vaa)
  {
    vaa[66 * SigCount(vaa) + 57..]
  }

  /** Chain 1, address 4. */
  const GOVERNOR: bytes := [0, 1, 0, 0, 0, 0, 0, 0, 0, 0, 0, 0, 0, 0, 0, 0, 0, 0, 0, 0, 0, 0, 0, 0, 0, 0, 0, 0, 0, 0, 0, 0, 0, 4]

  /** Version 1, not seen before, and the account of its block open and passed first. */
  predicate Fresh(at: Locator, cells: Cells, tx: Txn) {
    && |tx.args| > 1 && Framed(tx.args[1]) && tx.args[1][0] == 1
    && var vaa := tx.args[1];
       var a := at(SequenceOf(vaa) / 15240, EmitterOf(vaa));
       && |tx.accounts| > 0 && tx.accounts[0] == a && a in cells
       && !Seen(at, cells, Message(EmitterOf(vaa), SequenceOf(vaa)))
  }

  lemma FramedMessage(vaa: bytes)
    requires Framed(vaa)
    ensures MessageOf(vaa) == if vaa[0] == 1 then Some(Message(EmitterOf(vaa), SequenceOf(vaa))) else None
  {
    hide FromBE;
  }

  /** A framed message can be marked exactly when it is fresh. */
  lemma MarkExactly(at: Locator, cells: Cells, tx: Txn)
    requires |tx.args| > 1 && Framed(tx.args[1])
    ensures tx.Account(1).Some? && Mark(at, cells, tx.args[1], tx.Account(1).value).Some? <==> Fresh(at, cells, tx)
    ensures Fresh(at, cells, tx) ==>
      var marked, a := Mark(at, cells, tx.args[1], tx.Account(1).value).value, tx.accounts[0];
      a in cells && marked.Keys == cells.Keys && forall b | b in cells && b != a :: marked[b] == cells[b]
  {
    hide FromBE, MarkBit, Bit, MessageOf, EmitterOf, SequenceOf;
    FramedMessage(tx.args[1]);
  }

  /** The names of methods and roles. */
  lemma Names()
    ensures INIT == Ascii("init") && GOVERNANCE == Ascii("governance") && PUBLISH_MESSAGE == Ascii("publishMessage")
    ensures VERIFY_SIGS == Ascii("verifySigs") && VERIFY_VAA == Ascii("verifyVAA") && NOP == Ascii("nop")
    ensures GUARDIAN == Ascii("guardian") && DUPLICATE == Ascii("duplicate") && META == Ascii("meta")
  {
  }
}
