/** Boots with generated guardian sets that go through: the cases in which `CoreBoot` and
    `CoreStuck` say that something is lost do occur. */
module CoreBootRuns {
  import opened Teal
  import opened Transactions
  import opened VerifyVaa
  import opened Template
  import opened LocalBlob
  import opened Replay
  import opened Accounts
  import opened Protocol
  import opened Core
  import opened CoreSetless
  import CoreBoot
  import CoreEffects
  import CoreRefinement
  import CoreStuck
  import CoreTheorems
  import ContractReads
  import VaaPrint
  import VaaRoundTrip

  const GOVERNOR: bytes := [0, 1] + GOVERNANCE_EMITTER

  /** A guardian-set message of the governance emitter, unsigned, as the generator writes it. */
  predicate IsSetMessage(vaa: bytes, keys: VaaPrint.Keys, h: VaaPrint.Header, index: nat, guardians: seq<bytes>) {
    && h.chain == 1 && h.emitter == GOVERNANCE_EMITTER && h.sequence < U64
    && 1 <= |guardians| <= 95 && (forall i | 0 <= i < |guardians| :: |guardians[i]| == 20)
    && var p := VaaPrint.UpgradePayload(index, guardians);
       p.Some? && VaaPrint.SignedVaa(keys, 1, 0, [], h, p.value) == Some(vaa)
  }

  function HeaderAt(sequence: uint64): VaaPrint.Header {
    VaaPrint.Header(0, 0, 1, GOVERNANCE_EMITTER, sequence, 0)
  }

  predicate Guardians(guardians: seq<bytes>) {
    1 <= |guardians| <= 95 && forall i | 0 <= i < |guardians| :: |guardians[i]| == 20
  }

  /** There is one for every sequence number, index and set that fits an account. */
  function SetVaa(keys: VaaPrint.Keys, sequence: uint64, index: nat, guardians: seq<bytes>): (vaa: bytes)
    requires index < 0x1_0000_0000 && Guardians(guardians)
    ensures IsSetMessage(vaa, keys, HeaderAt(sequence), index, guardians)
  {
    Pow256();
    var p := VaaPrint.UpgradePayload(index, guardians).value;
    VaaPrint.SignedVaa(keys, 1, 0, [], HeaderAt(sequence), p).value
  }

  lemma EnvelopeRead(vaa: bytes, keys: VaaPrint.Keys, h: VaaPrint.Header, index: nat, guardians: seq<bytes>)
    requires IsSetMessage(vaa, keys, h, index, guardians)
    ensures MessageOf(vaa) == Some(Message(GOVERNOR, h.sequence)) && ReadInt(vaa, 1, 4) == Some(0)
    ensures |vaa| > 5 && ReadInt(vaa, 5, 1) == Some(vaa[5])
    ensures
      var off := vaa[5] as nat * 66 + 14;
      off + 34 <= |vaa| && vaa[off..off + 2] == [0, 1] && vaa[off + 2..off + 34] == GOVERNANCE_EMITTER
  {
    hide FromBE, VaaPrint.SignedVaa, VaaPrint.UpgradePayload;
    var p := VaaPrint.UpgradePayload(index, guardians).value;
    ContractReads.MessageRead(keys, 0, [], h, p, vaa);
    FromBEByte(vaa[5]);
    assert ToBE(1, 2) == [0, 1] by { assert ToBE(0, 1) == ToBE(0, 0) + [0]; assert ToBE(1, 2) == ToBE(0, 1) + [1]; }
    var off := vaa[5] as nat * 66 + 14;
    SliceOfSlice(vaa, off, off + 34, 0, 2);
    SliceOfSlice(vaa, off, off + 34, 2, 34);
    assert vaa[5..6] == [vaa[5]];
  }

  lemma SetRead(vaa: bytes, keys: VaaPrint.Keys, h: VaaPrint.Header, index: nat, guardians: seq<bytes>)
    requires IsSetMessage(vaa, keys, h, index, guardians)
    ensures |vaa| > 5
    ensures
      var off := ActionOffset(vaa[5]);
      && off + 7 < |vaa| && vaa[off] == 2 && vaa[off + 1..off + 3] == ANY_CHAIN && vaa[off - 32..off] == CORE_MODULE
      && ReadInt(vaa, off + 3, 4) == Some(index)
      && SetRecord(vaa) == Some([|guardians|] + VaaPrint.AllKeys(guardians))
    ensures |VaaPrint.AllKeys(guardians)| == 20 * |guardians|
  {
    hide FromBE, VaaPrint.SignedVaa, VaaPrint.UpgradePayload, VaaPrint.AllKeys, SetRecord;
    var p := VaaPrint.UpgradePayload(index, guardians).value;
    ContractReads.MessageRead(keys, 0, [], h, p, vaa);
    ContractReads.UpgradeRead(vaa, index, guardians, p);
    VaaRoundTrip.KeysLength(guardians);
  }

  lemma SetGoverns(env: Env, st: CoreState, tx: Txn, now: uint64, keys: VaaPrint.Keys, h: VaaPrint.Header, index: nat, guardians: seq<bytes>)
    requires |tx.args| > 1 && IsSetMessage(tx.args[1], keys, h, index, guardians) && st.setIndex == 0
    ensures |tx.args[1]| > 5 && InstallsSet(tx)
    ensures HandleGovernance(env, st, tx, true, now) == InstallSet(env, st, tx.args[1], ActionOffset(tx.args[1][5]), tx, true, now)
  {
    hide FromBE, ReadInt, InstallSet, IsSetMessage, SetRecord, MessageOf;
    var vaa := tx.args[1];
    EnvelopeRead(vaa, keys, h, index, guardians);
    SetRead(vaa, keys, h, index, guardians);
    assert ActionOffset(vaa[5]) == vaa[5] as nat * 66 + 14 + 75;
  }

  /** Installing goes through on open accounts. */
  lemma Installs(env: Env, st: CoreState, tx: Txn, now: uint64, keys: VaaPrint.Keys, h: VaaPrint.Header, index: nat, guardians: seq<bytes>)
    requires |tx.args| > 1 && IsSetMessage(tx.args[1], keys, h, index, guardians) && now + GRACE < U64
    requires tx.Account(3) == Some(env.at(index, GUARDIAN)) && env.at(index, GUARDIAN) in st.cells
    requires tx.Account(2).Some? && tx.Account(2).value in st.cells
    ensures |tx.args[1]| > 5 && InstallSet(env, st, tx.args[1], ActionOffset(tx.args[1][5]), tx, true, now).Some?
  {
    hide FromBE, Itob, ReadInt, IsSetMessage, SetRecord;
    SetRead(tx.args[1], keys, h, index, guardians);
    MessageBounds(tx.args[1], keys, h, index, guardians);
  }

  lemma MessageBounds(vaa: bytes, keys: VaaPrint.Keys, h: VaaPrint.Header, index: nat, guardians: seq<bytes>)
    requires IsSetMessage(vaa, keys, h, index, guardians)
    ensures 1 <= |guardians| <= 95 && h.sequence < U64
  {
  }

  // ---------- the run ----------

  function BootCall(env: Env, vaa: bytes, store: bytes, a2: bytes, a3: bytes): Txn {
    Calling(env, env.creator, [store, a2, a3], [INIT, vaa, env.verifier])
  }

  /** Opening the account of the message's mark and the one of the set, and `init`. */
  function SetBoot(env: Env, vaa: bytes, store: bytes, a2: bytes, a3: bytes, now: uint64): seq<Block> {
    [Block(Opening(env, env.creator, store), now), Block(Opening(env, env.creator, a3), now), Block([BootCall(env, vaa, store, a2, a3)], now)]
  }

  function Store(env: Env, h: VaaPrint.Header): bytes {
    env.at(SlotOf(h.sequence).block, GOVERNOR)
  }

  /** The accounts once both are open, and once the message is marked. */
  function Open(env: Env, store: bytes, a3: bytes): CoreState {
    CREATED.(cells := map[store := EMPTY_CELL][a3 := EMPTY_CELL])
  }

  function MarkedState(env: Env, h: VaaPrint.Header, a3: bytes): CoreState {
    var store := Store(env, h);
    var st := Open(env, store, a3);
    st.(vphash := env.verifier, booted := true,
        cells := st.cells[store := MarkBit(EMPTY_CELL, SlotOf(h.sequence)).(tag := Some(DUPLICATE))])
  }

  lemma MarksFirst(env: Env, tx: Txn, keys: VaaPrint.Keys, h: VaaPrint.Header, index: nat, guardians: seq<bytes>)
    requires |tx.args| > 1 && IsSetMessage(tx.args[1], keys, h, index, guardians)
    requires tx.Account(1) == Some(Store(env, h)) && Store(env, h) != env.at(index, GUARDIAN)
    ensures CheckForDuplicate(env, Open(env, Store(env, h), env.at(index, GUARDIAN)).cells, tx)
         == Some((MarkedState(env, h, env.at(index, GUARDIAN)).cells, [Accepted(Message(GOVERNOR, h.sequence))]))
  {
    hide IsSetMessage, MessageOf, Bit, MarkBit;
    EnvelopeRead(tx.args[1], keys, h, index, guardians);
    ZeroHasNoBits(SlotOf(h.sequence).bit);
    var cells, store, c := Open(env, Store(env, h), env.at(index, GUARDIAN)).cells, Store(env, h), MarkBit(EMPTY_CELL, SlotOf(h.sequence));
    assert cells[store := c][store := c.(tag := Some(DUPLICATE))] == cells[store := c.(tag := Some(DUPLICATE))];
  }

  /** The whole `init` is marking the message and installing the set. */
  lemma BootInit(env: Env, tx: Txn, now: uint64, keys: VaaPrint.Keys, h: VaaPrint.Header, index: nat, guardians: seq<bytes>, a2: bytes, vaa: bytes)
    returns (g: (CoreState, seq<Event>))
    requires IsSetMessage(vaa, keys, h, index, guardians) && now + GRACE < U64
    requires Store(env, h) != env.at(index, GUARDIAN) && (a2 == Store(env, h) || a2 == env.at(index, GUARDIAN))
    requires tx == BootCall(env, vaa, Store(env, h), a2, env.at(index, GUARDIAN))
    ensures |vaa| > 5
    ensures InstallSet(env, MarkedState(env, h, env.at(index, GUARDIAN)), vaa, ActionOffset(vaa[5]), tx, true, now) == Some(g)
    ensures Init(env, Open(env, Store(env, h), env.at(index, GUARDIAN)), tx, now) == Some((g.0, [Accepted(Message(GOVERNOR, h.sequence))] + g.1))
  {
    hide IsSetMessage, CheckForDuplicate, HandleGovernance, InstallSet, MarkBit;
    var a3 := env.at(index, GUARDIAN);
    var st1 := MarkedState(env, h, a3);
    MarksFirst(env, tx, keys, h, index, guardians);
    SetGoverns(env, st1, tx, now, keys, h, index, guardians);
    Installs(env, st1, tx, now, keys, h, index, guardians);
    g := InstallSet(env, st1, vaa, ActionOffset(vaa[5]), tx, true, now).value;
  }

  lemma OnlyCall(env: Env, st: CoreState, tx: Txn, now: uint64, r: (CoreState, seq<Event>))
    requires IsCall(env, tx, INIT) && Init(env, st, tx, now) == Some(r)
    ensures After(env, st, [tx], now, 1) == Some(r)
  {
    hide Init;
    assert After(env, st, [tx], now, 0) == Some((st, []));
    assert [] + r.1 == r.1;
  }

  lemma ThreeBlocks(env: Env, b0: Block, b1: Block, b2: Block, s0: CoreState, s1: CoreState, r: (CoreState, seq<Event>))
    requires forall b | b in [b0, b1, b2] :: Authorised(env.crypto, env.verifier, b.group)
    requires After(env, CREATED, b0.group, b0.now, |b0.group|) == Some((s0, []))
    requires After(env, s0, b1.group, b1.now, |b1.group|) == Some((s1, []))
    requires After(env, s1, b2.group, b2.now, |b2.group|) == Some(r)
    ensures
      var blocks := [b0, b1, b2];
      Committed(env, blocks, 0) && Committed(env, blocks, 1) && Committed(env, blocks, 2) && Run(env, blocks) == r
  {
    hide After, Authorised;
    var blocks := [b0, b1, b2];
    assert blocks[..0] == [] && blocks[..1] == [b0] && blocks[..2] == [b0, b1];
    assert [b0][..0] == [] && [b0, b1][..1] == [b0];
    assert b0 in blocks && b1 in blocks && b2 in blocks;
    assert Run(env, [b0]) == (s0, [] + []);
    assert Run(env, [b0, b1]) == (s1, [] + [] + []);
    assert [] + [] + [] + r.1 == r.1;
  }

  /** Nothing in the run is sent from the stateless program's address. */
  lemma NoneFromVerifier(env: Env, vaa: bytes, store: bytes, a2: bytes, a3: bytes, now: uint64)
    requires env.creator != env.verifier && store != env.verifier && a3 != env.verifier
    ensures forall b | b in SetBoot(env, vaa, store, a2, a3, now) :: Authorised(env.crypto, env.verifier, b.group)
  {
  }

  lemma Addresses(env: Env, block: nat, index: nat)
    requires CoreTheorems.IsDeployed(env) && |env.verifier| == 32
    ensures Injective(env.at) && env.at(block, GOVERNOR) != env.at(index, GUARDIAN)
    ensures env.at(block, GOVERNOR) != env.verifier && env.at(index, GUARDIAN) != env.verifier
    ensures CoreRefinement.IsAddress(env.at(block, GOVERNOR)) && CoreRefinement.IsAddress(env.at(index, GUARDIAN))
  {
    hide Injective;
    LocatorInjective(env.app);
    Apart(env, block, index);
    CoreRefinement.ProgramIsAddress(env.app, block, GOVERNOR);
    CoreRefinement.ProgramIsAddress(env.app, index, GUARDIAN);
    LongProgram(env.app, block, GOVERNOR);
    LongProgram(env.app, index, GUARDIAN);
  }

  lemma LongProgram(app: App, idx: nat, owner: bytes)
    ensures |SigProgram(app, idx, owner)| > 34
  {
    assert |GetBytecodeChunk(SRC, LABELS, 4)| == 21 && |GetBytecodeChunk(SRC, LABELS, 2)| == 15;
  }

  /** A boot with such a message and either account in second place commits. */
  lemma SetBoots(env: Env, vaa: bytes, keys: VaaPrint.Keys, h: VaaPrint.Header, index: nat, guardians: seq<bytes>, a2: bytes, now: uint64)
    returns (g: (CoreState, seq<Event>))
    requires CoreTheorems.IsDeployed(env) && |env.creator| == |env.verifier| == 32 && env.creator != env.verifier
    requires IsSetMessage(vaa, keys, h, index, guardians) && now + GRACE < U64
    requires a2 == Store(env, h) || a2 == env.at(index, GUARDIAN)
    ensures Injective(env.at) && |vaa| > 5
    ensures
      var a3 := env.at(index, GUARDIAN);
      var blocks := SetBoot(env, vaa, Store(env, h), a2, a3, now);
      && Committed(env, blocks, 0) && Committed(env, blocks, 1) && Committed(env, blocks, 2)
      && InstallSet(env, MarkedState(env, h, a3), vaa, ActionOffset(vaa[5]), BootCall(env, vaa, Store(env, h), a2, a3), true, now) == Some(g)
      && Run(env, blocks) == (g.0, [Accepted(Message(GOVERNOR, h.sequence))] + g.1)
  {
    hide IsSetMessage, Init, InstallSet, MarkedState, Injective, Run, Committed, Authorised, After, CoreTheorems.IsDeployed, Opening;
    MessageBounds(vaa, keys, h, index, guardians);
    Addresses(env, SlotOf(h.sequence).block, index);
    var store, a3 := Store(env, h), env.at(index, GUARDIAN);
    var tx := BootCall(env, vaa, store, a2, a3);
    g := BootInit(env, tx, now, keys, h, index, guardians, a2, vaa);
    var s0, r := CREATED.(cells := map[store := EMPTY_CELL]), (g.0, [Accepted(Message(GOVERNOR, h.sequence))] + g.1);
    OpeningJoins(env, CREATED, env.creator, store, now);
    OpeningJoins(env, s0, env.creator, a3, now);
    OpeningSize(env, store);
    OpeningSize(env, a3);
    OnlyCall(env, Open(env, store, a3), tx, now, r);
    NoneFromVerifier(env, vaa, store, a2, a3, now);
    ThreeBlocks(env, Block(Opening(env, env.creator, store), now), Block(Opening(env, env.creator, a3), now), Block([tx], now), s0, Open(env, store, a3), r);
  }

  lemma OpeningSize(env: Env, store: bytes)
    ensures |Opening(env, env.creator, store)| == 2
  {
  }

  lemma Apart(env: Env, block: nat, index: nat)
    requires Injective(env.at)
    ensures env.at(block, GOVERNOR) != env.at(index, GUARDIAN)
  {
    assert |GOVERNOR| == 34;
  }

  // ---------- a replay account in second place ----------

  /** Right after the mark, the governance message is the only one marked. */
  lemma OneMark(env: Env, h: VaaPrint.Header, a3: bytes, m: Message)
    requires Injective(env.at) && h.sequence < U64 && |m.emitter| == 34
    requires Store(env, h) != a3 && forall i: nat :: a3 != env.at(i, m.emitter)
    ensures Seen(env.at, MarkedState(env, h, a3).cells, m) <==> m == Message(GOVERNOR, h.sequence)
  {
    var s, s' := SlotOf(m.sequence), SlotOf(h.sequence);
    ZeroHasNoBits(s.bit);
    MarkBitEffect(EMPTY_CELL, s', s);
    SlotBijection(m.sequence, s);
    SlotBijection(h.sequence, s');
    hide Bit, MarkBit;
    if env.at(s.block, m.emitter) == Store(env, h) { assert s.block == s'.block && m.emitter == GOVERNOR; }
  }

  /** The bytes where an expiry is written are still blank. */
  lemma BlankExpiry(env: Env, h: VaaPrint.Header, a3: bytes)
    requires h.sequence < U64 && SlotOf(h.sequence).byteAt < 1000 && Store(env, h) != a3
    ensures MarkedState(env, h, a3).cells[Store(env, h)].flat[1000..1008] == Zeros(8)
  {
    hide SetBit;
  }

  lemma NotDated(expiry: uint64)
    requires expiry > 0
    ensures Itob(expiry) != Zeros(8)
  {
    hide Itob, FromBE;
    ItobBtoi(expiry);
    FromBEZeros(8);
  }

  /** Such a boot goes through and leaves some message marked that nobody accepted, or not
      marked though it was. Here the account is that of the boot message itself. */
  lemma SpoilingBoot(env: Env, keys: VaaPrint.Keys, sequence: uint64, index: nat, guardians: seq<bytes>, now: uint64)
    requires CoreTheorems.IsDeployed(env) && |env.creator| == |env.verifier| == 32 && env.creator != env.verifier
    requires index < 0x1_0000_0000 && Guardians(guardians) && now + GRACE < U64
    requires SlotOf(sequence).byteAt < 1000 && CoreBoot.WholeBlock(SlotOf(sequence).block)
    ensures
      var vaa, h := SetVaa(keys, sequence, index, guardians), HeaderAt(sequence);
      var blocks := SetBoot(env, vaa, Store(env, h), Store(env, h), env.at(index, GUARDIAN), now);
      && Committed(env, blocks, 2)
      && !(forall m: Message | |m.emitter| == 34 :: Seen(env.at, Run(env, blocks).0.cells, m) <==> Accepted(m) in Run(env, blocks).1)
  {
    hide IsSetMessage, SetVaa, InstallSet, MarkedState, Injective, Run, Committed, Seen;
    var vaa, h := SetVaa(keys, sequence, index, guardians), HeaderAt(sequence);
    var store, a3 := Store(env, h), env.at(index, GUARDIAN);
    var g := SetBoots(env, vaa, keys, h, index, guardians, store, now);
    Apart(env, SlotOf(sequence).block, index);
    var st1, tx := MarkedState(env, h, a3), BootCall(env, vaa, store, store, a3);
    var blocks := SetBoot(env, vaa, store, store, a3, now);
    assert CoreEffects.IsReplayAccount(env.at, store) by { assert |GOVERNOR| == 34; }
    NotYetDated(env, h, a3, now);
    CoreBoot.BootKeepsMarks(env, st1, vaa, ActionOffset(vaa[5]), tx, now, g);
    forall m: Message | |m.emitter| == 34 ensures Seen(env.at, st1.cells, m) <==> Accepted(m) in Run(env, blocks).1 {
      NotGuardian(env, index, m.emitter);
      OneMark(env, h, a3, m);
      OneAccepted(env, st1, vaa, ActionOffset(vaa[5]), tx, now, g, m, sequence);
    }
  }

  lemma NotGuardian(env: Env, index: nat, emitter: bytes)
    requires Injective(env.at) && |emitter| == 34
    ensures forall i: nat :: env.at(index, GUARDIAN) != env.at(i, emitter)
  {
  }

  lemma NotYetDated(env: Env, h: VaaPrint.Header, a3: bytes, now: uint64)
    requires h.sequence < U64 && SlotOf(h.sequence).byteAt < 1000 && Store(env, h) != a3 && now + GRACE < U64
    ensures !CoreBoot.AlreadyDated(MarkedState(env, h, a3).cells, Store(env, h), now + GRACE)
  {
    hide MarkedState, Itob;
    BlankExpiry(env, h, a3);
    NotDated(now + GRACE);
  }

  lemma OneAccepted(env: Env, st: CoreState, vaa: bytes, off: nat, tx: Txn, now: uint64, g: (CoreState, seq<Event>), m: Message, sequence: uint64)
    requires InstallSet(env, st, vaa, off, tx, true, now) == Some(g)
    ensures Accepted(m) in [Accepted(Message(GOVERNOR, sequence))] + g.1 <==> m == Message(GOVERNOR, sequence)
  {
    hide InstallSet, SetRecord, ReadInt;
    var idx, record, a2 := CoreEffects.InstallParts(env, st, vaa, off, tx, true, now, g);
  }

  // ---------- large sets ----------

  /** A boot with fifty keys the last of which ends in a nonzero byte goes through, and the set
      is loaded as expiring. */
  lemma ExpiringBoot(env: Env, keys: VaaPrint.Keys, sequence: uint64, index: nat, guardians: seq<bytes>, now: uint64)
    requires CoreTheorems.IsDeployed(env) && |env.creator| == |env.verifier| == 32 && env.creator != env.verifier
    requires index < 0x1_0000_0000 && Guardians(guardians) && now + GRACE < U64
    requires |guardians| == 50 && |guardians[49]| == 20 && guardians[49][19] != 0
    ensures
      var vaa, h := SetVaa(keys, sequence, index, guardians), HeaderAt(sequence);
      var a3 := env.at(index, GUARDIAN);
      var blocks := SetBoot(env, vaa, Store(env, h), a3, a3, now);
      && Committed(env, blocks, 2)
      && a3 in Run(env, blocks).0.cells && LoadSet(Run(env, blocks).0.cells[a3]).Some?
      && LoadSet(Run(env, blocks).0.cells[a3]).value.expiry > 0
  {
    hide IsSetMessage, SetVaa, InstallSet, Injective, Run, Committed, SetRecord, VaaPrint.AllKeys, MarkBit, LoadSet;
    var vaa, h := SetVaa(keys, sequence, index, guardians), HeaderAt(sequence);
    var store, a3 := Store(env, h), env.at(index, GUARDIAN);
    var g := SetBoots(env, vaa, keys, h, index, guardians, a3, now);
    Apart(env, SlotOf(sequence).block, index);
    SetRead(vaa, keys, h, index, guardians);
    LastByte(guardians);
    CoreBoot.FiftyKeysExpire(env, MarkedState(env, h, a3), vaa, ActionOffset(vaa[5]), BootCall(env, vaa, store, a3, a3), true, now, g);
  }

  lemma LastByte(guardians: seq<bytes>)
    requires |guardians| > 0 && |guardians[|guardians| - 1]| == 20 && |VaaPrint.AllKeys(guardians)| == 20 * |guardians|
    ensures
      var record := [|guardians|] + VaaPrint.AllKeys(guardians);
      |record| == 1 + 20 * |guardians| && record[20 * |guardians|] == guardians[|guardians| - 1][19]
  {
  }

  /** A boot with 48 or 49 keys goes through, and no `governance` call ever will. */
  lemma StuckBoot(env: Env, keys: VaaPrint.Keys, sequence: uint64, index: nat, guardians: seq<bytes>, now: uint64)
    requires CoreTheorems.IsDeployed(env) && |env.creator| == |env.verifier| == 32 && env.creator != env.verifier
    requires index < 0x1_0000_0000 && Guardians(guardians) && now + GRACE < U64 && 48 <= |guardians| <= 49
    ensures
      var vaa, h := SetVaa(keys, sequence, index, guardians), HeaderAt(sequence);
      var a3 := env.at(index, GUARDIAN);
      var blocks := SetBoot(env, vaa, Store(env, h), a3, a3, now);
      && Committed(env, blocks, 2) && CoreRefinement.GoodRun(env, blocks)
      && CoreStuck.TooLarge(Line(Run(env, blocks).1))
  {
    hide IsSetMessage, SetVaa, InstallSet, Injective, Run, Committed, SetRecord, VaaPrint.AllKeys, MarkedState, ReadInt;
    var vaa, h := SetVaa(keys, sequence, index, guardians), HeaderAt(sequence);
    var store, a3 := Store(env, h), env.at(index, GUARDIAN);
    var g := SetBoots(env, vaa, keys, h, index, guardians, a3, now);
    SetRead(vaa, keys, h, index, guardians);
    var idx, record, _ := CoreEffects.InstallParts(env, MarkedState(env, h, a3), vaa, ActionOffset(vaa[5]), BootCall(env, vaa, store, a3, a3), true, now, g);
    assert record[1..] == VaaPrint.AllKeys(guardians);
    LineOfBoot(Accepted(Message(GOVERNOR, sequence)), idx, record[1..]);
    CoreRefinement.ProgramIsAddress(env.app, SlotOf(sequence).block, GOVERNOR);
    CoreRefinement.ProgramIsAddress(env.app, index, GUARDIAN);
    OrdinaryBoot(env, vaa, store, a3, now);
  }

  lemma LineOfBoot(first: Event, idx: nat, keys: bytes)
    ensures Line([first] + [Booted(idx, keys)]) == [GuardianSet(keys, 0)]
  {
    assert ([first] + [Booted(idx, keys)])[..1] == [first];
  }

  lemma OrdinaryBoot(env: Env, vaa: bytes, store: bytes, a3: bytes, now: uint64)
    requires CoreRefinement.IsAddress(store) && CoreRefinement.IsAddress(a3) && |env.creator| == 32
    requires SetRecord(vaa).Some? && |SetRecord(vaa).value| <= 1 + 20 * 49
    ensures CoreRefinement.GoodRun(env, SetBoot(env, vaa, store, a3, a3, now))
  {
    hide Committed, SetRecord;
    var blocks := SetBoot(env, vaa, store, a3, a3, now);
    forall i: nat | Committed(env, blocks, i) ensures i < 3 && CoreRefinement.GoodGroup(env, blocks[i].group) {
      CoreRefinement.CommittedInside(env, blocks, i);
    }
  }
}
