/** Replay protection: one bit per message, in blocks of 15240 sequence numbers per emitter,
    each block in the storage account its number and the emitter name. */
module Replay {
  import opened Teal
  import opened Template
  import opened LocalBlob

  const MAX_BITS: nat := 15240

  type Cells = map<bytes, Cell>

  /** Emitter chain and address (34 bytes together), and the emitter's sequence number. */
  datatype Message = Message(emitter: bytes, sequence: uint64)

  // ---------- where a message's bit is ----------

  datatype Slot = Slot(block: nat, byteAt: nat, bit: nat)

  function SlotOf(sequence: nat): Slot {
    Slot(sequence / MAX_BITS, sequence / 8 % MAX_BYTES, sequence % 8)
  }

  /** Numbers and slots correspond one to one. */
  lemma SlotBijection(sequence: nat, s: Slot)
    requires s.byteAt < MAX_BYTES && s.bit < 8
    ensures SlotOf(sequence) == s <==> sequence == MAX_BITS * s.block + 8 * s.byteAt + s.bit
  {
    var q := sequence / 8;
    assert sequence == 8 * q + sequence % 8;
    assert q == MAX_BYTES * (q / MAX_BYTES) + q % MAX_BYTES;
    assert q / MAX_BYTES == sequence / MAX_BITS;
    if sequence == MAX_BITS * s.block + 8 * s.byteAt + s.bit {
      assert q == MAX_BYTES * s.block + s.byteAt;
    }
  }

  predicate Seen(at: Locator, cells: Cells, m: Message) {
    var s := SlotOf(m.sequence);
    var a := at(s.block, m.emitter);
    a in cells && Bit(cells[a].flat[s.byteAt], s.bit)
  }

  // ---------- checkForDuplicate ----------

  /** The message a VAA carries; version 1 only. */
  function MessageOf(vaa: bytes): Option<Message> {
    var version :- ReadInt(vaa, 0, 1);
    :- Require(version == 1);
    var num :- ReadInt(vaa, 5, 1);
    var off := num * 66 + 14;
    var emitter :- Extract(vaa, off, 34);
    var sequence :- ReadInt(vaa, off + 34, 8);
    Some(Message(emitter, sequence))
  }

  function MarkBit(c: Cell, s: Slot): Cell
    requires s.byteAt < MAX_BYTES && s.bit < 8
  {
    SetBitByte(c.flat[s.byteAt], s.bit);
    c.(flat := ReplaceAt(c.flat, s.byteAt, SetBit(c.flat[s.byteAt], s.bit)))
  }

  function MarkAt(cells: Cells, acct: bytes, s: Slot): Option<Cells>
    requires s.byteAt < MAX_BYTES && s.bit < 8
  {
    if acct in cells && !Bit(cells[acct].flat[s.byteAt], s.bit) then Some(cells[acct := MarkBit(cells[acct], s)]) else None
  }

  /** Refuses a message whose bit is set, and sets it. */
  function Mark(at: Locator, cells: Cells, vaa: bytes, acct: bytes): Option<Cells> {
    var m :- MessageOf(vaa);
    var s := SlotOf(m.sequence);
    :- Require(acct == at(s.block, m.emitter));
    MarkAt(cells, acct, s)
  }

  lemma MarkBitEffect(c: Cell, s: Slot, s': Slot)
    requires s.byteAt < MAX_BYTES && s.bit < 8 && s'.byteAt < MAX_BYTES && s'.bit < 8
    ensures Bit(MarkBit(c, s).flat[s'.byteAt], s'.bit) <==>
      (s'.byteAt == s.byteAt && s'.bit == s.bit) || Bit(c.flat[s'.byteAt], s'.bit)
  {
    SetBitEffect(c.flat[s.byteAt], s.bit, s'.bit);
  }

  /** Marking a message is possible exactly when it is unseen and its account is supplied,
      and afterwards precisely that message has been seen in addition. */
  lemma MarkEffect(at: Locator, cells: Cells, vaa: bytes, acct: bytes, m: Message)
    requires Injective(at) && MessageOf(vaa) == Some(m)
    requires acct == at(SlotOf(m.sequence).block, m.emitter) && acct in cells
    ensures Mark(at, cells, vaa, acct).Some? <==> !Seen(at, cells, m)
    ensures Mark(at, cells, vaa, acct).Some? ==>
      forall m' :: Seen(at, Mark(at, cells, vaa, acct).value, m') <==> m' == m || Seen(at, cells, m')
  {
    var s := SlotOf(m.sequence);
    if Mark(at, cells, vaa, acct).Some? {
      var cells' := Mark(at, cells, vaa, acct).value;
      forall m' ensures Seen(at, cells', m') <==> m' == m || Seen(at, cells, m') {
        var s' := SlotOf(m'.sequence);
        MarkBitEffect(cells[acct], s, s');
        SlotBijection(m.sequence, s);
        SlotBijection(m'.sequence, s');
        if at(s'.block, m'.emitter) == acct {
          assert s'.block == s.block && m'.emitter == m.emitter;
        }
      }
    }
  }
}
