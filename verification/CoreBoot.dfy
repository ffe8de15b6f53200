/** What installing a set can spoil when the caller of `init` passes other accounts than the
    administration script does, or more keys than fit below the expiry: replay marks, and how
    the set reads back. Each with its exact condition. */
module CoreBoot {
  import opened Teal
  import opened Transactions
  import opened VerifyVaa
  import opened Template
  import opened LocalBlob
  import opened Replay
  import opened Protocol
  import opened Core
  import opened CoreRefinement
  import opened CoreEffects

  // ---------- bytes and bits ----------

  lemma {:induction false} BitsDetermine(b: nat, c: nat, width: nat)
    requires b < Pow(2, width) && c < Pow(2, width)
    requires forall i | 0 <= i < width :: Bit(b, i) <==> Bit(c, i)
    ensures b == c
  {
    if width > 0 {
      assert Bit(b, 0) <==> Bit(c, 0);
      forall i | 0 <= i < width - 1 ensures Bit(b / 2, i) <==> Bit(c / 2, i) {
        assert Bit(b, i + 1) <==> Bit(c, i + 1);
      }
      BitsDetermine(b / 2, c / 2, width - 1);
    }
  }

  lemma BytesDiffer(b: byte, c: byte) returns (i: nat)
    requires b != c
    ensures i < 8 && Bit(b, i) != Bit(c, i)
  {
    assert Pow(2, 8) == 256 by { assert Pow(2, 4) == 16; }
    if forall i | 0 <= i < 8 :: Bit(b, i) <==> Bit(c, i) {
      BitsDetermine(b, c, 8);
    }
    i :| i < 8 && Bit(b, i) != Bit(c, i);
  }

  // ---------- replay marks ----------

  /** A block whose messages reach the bytes where an expiry is written. */
  predicate WholeBlock(block: nat) {
    MAX_BITS * (block + 1) <= U64
  }

  /** Overwriting eight bytes of a replay account keeps every mark exactly when they were the
      same bytes. */
  lemma DatedMarks(at: Locator, cells: Cells, block: nat, emitter: bytes, expiry: uint64)
    requires Injective(at) && |emitter| == 34 && WholeBlock(block) && at(block, emitter) in cells
    ensures
      var a := at(block, emitter);
      var cells' := cells[a := cells[a].(flat := Splice(cells[a].flat, 1000, Itob(expiry)))];
      (forall m: Message | |m.emitter| == 34 :: Seen(at, cells', m) <==> Seen(at, cells, m))
      <==> cells[a].flat[1000..1008] == Itob(expiry)
  {
    var a := at(block, emitter);
    var f := cells[a].flat;
    var f' := Splice(f, 1000, Itob(expiry));
    var cells' := cells[a := cells[a].(flat := f')];
    if f[1000..1008] == Itob(expiry) {
      assert f' == f;
      assert cells' == cells;
    } else {
      var k := DifferentByte(f[1000..1008], Itob(expiry));
      assert f'[1000 + k] == Itob(expiry)[k] && f[1000 + k] == f[1000..1008][k];
      var m := MarkOf(at, cells, cells', block, emitter, 1000 + k);
      assert |m.emitter| == 34 && !(Seen(at, cells', m) <==> Seen(at, cells, m));
    }
  }

  lemma {:induction false} DifferentByte(s: bytes, t: bytes) returns (k: nat)
    requires |s| == |t| && s != t
    ensures k < |s| && s[k] != t[k]
  {
    if s[0] != t[0] {
      k := 0;
    } else {
      assert [s[0]] + s[1..] == s && [t[0]] + t[1..] == t;
      k := DifferentByte(s[1..], t[1..]);
      k := k + 1;
    }
  }

  /** A byte that changed in a replay account has changed some message's mark. */
  lemma MarkOf(at: Locator, cells: Cells, cells': Cells, block: nat, emitter: bytes, i: nat) returns (m: Message)
    requires at(block, emitter) in cells && at(block, emitter) in cells' && WholeBlock(block) && i < MAX_BYTES
    requires cells[at(block, emitter)].flat[i] != cells'[at(block, emitter)].flat[i]
    ensures m.emitter == emitter && SlotOf(m.sequence).block == block && SlotOf(m.sequence).byteAt == i
    ensures Seen(at, cells', m) != Seen(at, cells, m)
  {
    var a := at(block, emitter);
    var bit := BytesDiffer(cells[a].flat[i], cells'[a].flat[i]);
    var seq_ := MAX_BITS * block + 8 * i + bit;
    m := Message(emitter, seq_);
    SlotBijection(seq_, Slot(block, i, bit));
  }

  /** An account outside the replay accounts can be dated without touching a mark. */
  lemma DatedElsewhere(at: Locator, cells: Cells, acct: bytes, expiry: uint64, cells': Cells)
    requires Injective(at) && !IsReplayAccount(at, acct) && ApplyEffect(at, cells, Dated(acct, expiry)) == Some(cells')
    ensures forall m: Message | |m.emitter| == 34 :: Seen(at, cells', m) <==> Seen(at, cells, m)
  {
    forall m: Message | |m.emitter| == 34 ensures Seen(at, cells', m) <==> Seen(at, cells, m) {
      SeenAfter(at, cells, Dated(acct, expiry), cells', m);
    }
  }

  /** The bytes at the expiry's place already are the expiry. */
  predicate AlreadyDated(cells: Cells, acct: bytes, expiry: nat) {
    acct in cells && expiry < U64 && cells[acct].flat[1000..1008] == Itob(expiry)
  }

  /** Installing a set at boot leaves every mark as it was if and only if the account passed
      for the old set is the new one, is no replay account, or already holds those bytes.
      Otherwise some message's mark is set or cleared, possibly the one just made. */
  lemma BootKeepsMarks(env: Env, st: CoreState, vaa: bytes, off: nat, tx: Txn, now: uint64, g: (CoreState, seq<Event>))
    requires Injective(env.at) && InstallSet(env, st, vaa, off, tx, true, now) == Some(g)
    ensures tx.Account(2).Some?
    ensures
      (forall m: Message | |m.emitter| == 34 :: Seen(env.at, g.0.cells, m) <==> Seen(env.at, st.cells, m))
      <==> (|| tx.Account(2) == tx.Account(3)
            || !IsReplayAccount(env.at, tx.Account(2).value)
            || AlreadyDated(st.cells, tx.Account(2).value, now + GRACE))
  {
    hide InstallSet, SetRecord, Itob, FromBE, Seen, Splice, Injective;
    var idx, record, a2 := InstallParts(env, st, vaa, off, tx, true, now, g);
    var at, a3 := env.at, env.at(idx, GUARDIAN);
    var stored := st.cells[a3 := Cell(Splice(st.cells[a3].flat, 0, record), Some(GUARDIAN))];
    StoredMarks(at, st.cells, idx, record);
    if a2 != a3 {
      if IsReplayAccount(at, a2) {
        var block: nat, emitter: bytes :| |emitter| == 34 && MAX_BITS * (block + 1) <= U64 && a2 == at(block, emitter);
        DatedMarks(at, stored, block, emitter, now + GRACE);
      } else {
        DatedElsewhere(at, stored, a2, now + GRACE, g.0.cells);
      }
      SameMarks(at, st.cells, stored, g.0.cells);
    }
  }

  lemma StoredMarks(at: Locator, cells: Cells, idx: nat, record: bytes)
    requires Injective(at) && at(idx, GUARDIAN) in cells && |record| <= MAX_BYTES
    ensures
      var a3 := at(idx, GUARDIAN);
      forall m: Message | |m.emitter| == 34 ::
        Seen(at, cells[a3 := Cell(Splice(cells[a3].flat, 0, record), Some(GUARDIAN))], m) <==> Seen(at, cells, m)
  {
    var a3 := at(idx, GUARDIAN);
    var cells' := cells[a3 := Cell(Splice(cells[a3].flat, 0, record), Some(GUARDIAN))];
    forall m: Message | |m.emitter| == 34 ensures Seen(at, cells', m) <==> Seen(at, cells, m) {
      SeenAfter(at, cells, Stored(idx, record), cells', m);
    }
  }

  lemma SameMarks(at: Locator, a: Cells, b: Cells, c: Cells)
    requires forall m: Message | |m.emitter| == 34 :: Seen(at, b, m) <==> Seen(at, a, m)
    ensures (forall m: Message | |m.emitter| == 34 :: Seen(at, c, m) <==> Seen(at, b, m))
      <==> (forall m: Message | |m.emitter| == 34 :: Seen(at, c, m) <==> Seen(at, a, m))
  {
    hide Seen;
  }

  /** Both ways it can go wrong: on a blank replay account a message nobody sent becomes
      marked; and a message marked at byte 1000 is forgotten, because the first byte of any
      realistic time is zero. */
  lemma BootSpoilsMarks(env: Env, st: CoreState, vaa: bytes, off: nat, tx: Txn, now: uint64, g: (CoreState, seq<Event>), m: Message)
    requires Injective(env.at) && InstallSet(env, st, vaa, off, tx, true, now) == Some(g)
    requires |m.emitter| == 34 && WholeBlock(SlotOf(m.sequence).block)
    requires tx.Account(2) == Some(env.at(SlotOf(m.sequence).block, m.emitter))
    ensures
      var a2, s := tx.Account(2).value, SlotOf(m.sequence);
      1000 <= s.byteAt < 1008 ==>
        now + GRACE < U64 && (Seen(env.at, g.0.cells, m) <==> Bit(Itob(now + GRACE)[s.byteAt - 1000], s.bit))
    ensures SlotOf(m.sequence).byteAt == 1000 && now + GRACE < 0x100_0000_0000_0000 ==> !Seen(env.at, g.0.cells, m)
  {
    hide InstallSet, SetRecord, FromBE;
    var idx, record, a2 := InstallParts(env, st, vaa, off, tx, true, now, g);
    var s := SlotOf(m.sequence);
    assert env.at(idx, GUARDIAN) != a2;
    if 1000 <= s.byteAt < 1008 {
      assert g.0.cells[a2].flat[s.byteAt] == Itob(now + GRACE)[s.byteAt - 1000];
      if s.byteAt == 1000 && now + GRACE < 0x100_0000_0000_0000 {
        TopByteZero(now + GRACE);
        ZeroHasNoBits(s.bit);
      }
    }
  }

  lemma TopByteZero(n: uint64)
    requires n < 0x100_0000_0000_0000
    ensures Itob(n)[0] == 0
  {
    assert Pow(256, 7) == 0x100_0000_0000_0000 by { assert Pow(256, 4) == 0x1_0000_0000; }
    LeadingZero(n, 8);
  }

  lemma {:induction false} LeadingZero(n: nat, width: nat)
    requires width > 0 && n < Pow(256, width - 1)
    ensures ToBE(n, width)[0] == 0
  {
    if width > 1 {
      LeadingZero(n / 256, width - 1);
    }
  }

  // ---------- expiry ----------

  /** No nonzero byte of the record falls on the expiry field. */
  predicate ClearOfExpiry(record: bytes) {
    forall i | 1000 <= i < 1008 && i < |record| :: record[i] == 0
  }

  lemma ExpiryIntact(record: bytes)
    requires |record| < MAX_BYTES
    ensures Splice(EMPTY_CELL.flat, 0, record)[1000..1008] == Zeros(8) <==> ClearOfExpiry(record)
  {
    var f := Splice(EMPTY_CELL.flat, 0, record);
    if ClearOfExpiry(record) {
      assert forall i | 1000 <= i < 1008 :: f[i] == 0;
      assert f[1000..1008] == Zeros(8);
    }
    if f[1000..1008] == Zeros(8) {
      forall i | 1000 <= i < 1008 && i < |record| ensures record[i] == 0 {
        assert f[i] == f[1000..1008][i - 1000];
      }
    }
  }

  lemma ZeroBytes(s: bytes)
    requires |s| == 8
    ensures FromBE(s) == 0 <==> s == Zeros(8)
  {
    FromBEZeros(8);
    if FromBE(s) == 0 { FromBEInjective(s, Zeros(8)); }
  }

  /** A set installed in a blank account is read back by `verifyVAA` with its keys, and without
      an expiry if and only if no nonzero byte of its record falls on the expiry field; up to
      49 keys none can. */
  lemma InstalledSetReads(env: Env, st: CoreState, vaa: bytes, off: nat, tx: Txn, isBoot: bool, now: uint64, g: (CoreState, seq<Event>))
    returns (record: bytes)
    requires InstallSet(env, st, vaa, off, tx, isBoot, now) == Some(g)
    requires tx.Account(3).Some? && tx.Account(3).value in st.cells && st.cells[tx.Account(3).value] == EMPTY_CELL
    ensures SetRecord(vaa) == Some(record) && tx.Account(3).value in g.0.cells
    ensures
      var set_ := LoadSet(g.0.cells[tx.Account(3).value]);
      && set_.Some? && |record| == 1 + 20 * set_.value.n && set_.value.keys == record[1..]
      && (set_.value.expiry == 0 <==> ClearOfExpiry(record))
    ensures |record| <= 1 + 20 * 49 ==> ClearOfExpiry(record)
  {
    hide InstallSet, Itob, FromBE;
    var idx, a2;
    idx, record, a2 := InstallParts(env, st, vaa, off, tx, isBoot, now, g);
    RecordShape(vaa);
    var c := Cell(Splice(EMPTY_CELL.flat, 0, record), Some(GUARDIAN));
    assert g.0.cells[env.at(idx, GUARDIAN)] == c;
    ExpiryIntact(record);
    ZeroBytes(c.flat[1000..1008]);
    RecordStored(record);
  }

  lemma RecordStored(record: bytes)
    requires 0 < |record| < MAX_BYTES
    ensures Splice(EMPTY_CELL.flat, 0, record)[0] == record[0]
    ensures Splice(EMPTY_CELL.flat, 0, record)[1..|record|] == record[1..]
  {
  }

  lemma RecordShape(vaa: bytes)
    requires SetRecord(vaa).Some?
    ensures
      var record := SetRecord(vaa).value;
      |record| > 1 && |record| == 1 + 20 * record[0] as nat
  {
    hide FromBE;
  }

  /** Fifty keys, the last ending in a nonzero byte: the set is read back as expiring. */
  lemma FiftyKeysExpire(env: Env, st: CoreState, vaa: bytes, off: nat, tx: Txn, isBoot: bool, now: uint64, g: (CoreState, seq<Event>))
    requires InstallSet(env, st, vaa, off, tx, isBoot, now) == Some(g)
    requires tx.Account(3).Some? && tx.Account(3).value in st.cells && st.cells[tx.Account(3).value] == EMPTY_CELL
    requires SetRecord(vaa).Some? && |SetRecord(vaa).value| == 1 + 20 * 50 && SetRecord(vaa).value[1000] != 0
    ensures tx.Account(3).value in g.0.cells && LoadSet(g.0.cells[tx.Account(3).value]).Some?
    ensures LoadSet(g.0.cells[tx.Account(3).value]).value.expiry > 0
  {
    hide InstallSet, LoadSet, SetRecord;
    var record := InstalledSetReads(env, st, vaa, off, tx, isBoot, now, g);
    assert !ClearOfExpiry(record);
  }
}
