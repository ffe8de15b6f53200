/** Storage accounts as both contracts use them: foreign accounts that must have opted in,
    read, written, tagged, and marked with the messages received. The functions see accounts
    flat; the methods do the same on pages. */
module Accounts {
  import opened Teal
  import opened Transactions
  import opened Template
  import opened LocalBlob
  import opened Replay

  function ReadAt(cells: Cells, acct: bytes, start: nat, end: nat): Option<bytes> {
    if acct in cells then CellRead(cells[acct], start, end) else None
  }

  function WriteAt(cells: Cells, acct: bytes, start: nat, buff: bytes): Option<Cells> {
    var c :- if acct in cells then CellWrite(cells[acct], start, buff) else None;
    Some(cells[acct := c])
  }

  function TagAs(cells: Cells, acct: bytes, tag: bytes): Option<Cells> {
    if acct in cells then Some(cells[acct := cells[acct].(tag := Some(tag))]) else None
  }

  /** An operation traps exactly when the specification does, and otherwise leaves the
      specified accounts. */
  ghost predicate Put(blob: LocalBlob, r: Option<()>, spec: Option<Cells>)
    reads blob
  {
    match spec
    case None => r == None
    case Some(cells) => blob.Valid() && blob.Cells() == cells && r.Some?
  }

  method ReadFrom(blob: LocalBlob, acct: bytes, start: uint64, end: uint64) returns (r: Option<bytes>)
    requires blob.Valid() && start <= end
    ensures r == ReadAt(blob.Cells(), acct, start, end)
    ensures r.Some? ==> |r.value| == end - start
  {
    r := blob.Read(acct, start, end);
  }

  method WriteTo(blob: LocalBlob, acct: bytes, start: nat, buff: bytes) returns (r: Option<()>)
    requires blob.Valid() && start + |buff| < WINDOW
    modifies blob
    ensures Put(blob, r, WriteAt(old(blob.Cells()), acct, start, buff))
  {
    hide CellWrite;
    var _ :- blob.Write(acct, start, buff);
    return Some(());
  }

  method TagWith(blob: LocalBlob, acct: bytes, tag: bytes) returns (r: Option<()>)
    requires blob.Valid()
    modifies blob
    ensures Put(blob, r, TagAs(old(blob.Cells()), acct, tag))
  {
    r := blob.Meta(acct, tag);
  }

  /** Setting a bit through `get_byte` and `set_byte`. */
  lemma PutIsMark(c: Cell, s: Slot)
    requires s.byteAt < MAX_BYTES && s.bit < 8
    ensures CellGet(c, s.byteAt) == Some(c.flat[s.byteAt])
    ensures SetBit(c.flat[s.byteAt], s.bit) < 256
    ensures CellPut(c, s.byteAt, SetBit(c.flat[s.byteAt], s.bit)) == Some(MarkBit(c, s))
  {
    SetBitByte(c.flat[s.byteAt], s.bit);
  }

  /** `get_byte`, a bit test and `set_byte`. */
  method MarkSeen(blob: LocalBlob, acct: bytes, sequence: uint64) returns (r: Option<()>)
    requires blob.Valid()
    modifies blob
    ensures Put(blob, r, MarkAt(old(blob.Cells()), acct, SlotOf(sequence)))
  {
    hide CellGet, CellPut, MarkBit, Bit, SetBit;
    var byteOffset := sequence / 8 % MAX_BYTES;
    var b :- blob.GetByte(acct, byteOffset);
    PutIsMark(blob.Cells()[acct], SlotOf(sequence));
    if Bit(b, sequence % 8) { return None; }
    var _ := blob.SetByte(acct, byteOffset, SetBit(b, sequence % 8));
    return Some(());
  }

  /** `checkForDuplicate` as both contracts have it, up to the core contract's tag: the message
      of a VAA is marked in the account its block and emitter determine. */
  method MarkMessage(blob: LocalBlob, at: Locator, tx: Txn) returns (r: Option<Message>)
    requires blob.Valid()
    modifies blob
    ensures
      var cells := old(blob.Cells());
      if |tx.args| > 1 && tx.Account(1).Some? && Mark(at, cells, tx.args[1], tx.Account(1).value).Some?
      then r == MessageOf(tx.args[1]) && blob.Valid() && blob.Cells() == Mark(at, cells, tx.args[1], tx.Account(1).value).value
      else r == None
  {
    hide MarkAt, CellsOf;
    var vaa :- tx.Arg(1);
    var version :- ReadInt(vaa, 0, 1);
    if version != 1 { return None; }
    var num :- ReadInt(vaa, 5, 1);
    var off := num * 66 + 14;
    var emitter :- Extract(vaa, off, 34);
    var sequence :- ReadInt(vaa, off + 34, 8);
    var a1 :- tx.Account(1);
    var block := sequence / MAX_BITS;
    if a1 != at(block, emitter) { return None; }
    var _ :- MarkSeen(blob, a1, sequence);
    return Some(Message(emitter, sequence));
  }
}
