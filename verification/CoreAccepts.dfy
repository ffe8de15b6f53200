/** Exactly which calls the core contract accepts, and what they do, in terms of the fields of
    the transactions and the bytes of the messages, with every constant written out. */
module CoreAccepts {
  import opened Teal
  import opened Transactions
  import opened VaaVerify
  import opened VerifyVaa
  import opened Template
  import opened LocalBlob
  import opened Replay
  import opened Accounts
  import opened Protocol
  import opened Core
  import opened Signatures
  import opened Envelope
  import CoreEffects
  import CoreRefinement

  // ---------- replay ----------

  /** A framed message passes the duplicate check exactly when it is fresh; then its mark is
      added and its account tagged. */
  lemma DuplicateExactly(env: Env, cells: Cells, tx: Txn)
    requires |tx.args| > 1 && Framed(tx.args[1])
    ensures CheckForDuplicate(env, cells, tx).Some? <==> Fresh(env.at, cells, tx)
    ensures Fresh(env.at, cells, tx) ==>
      var d := CheckForDuplicate(env, cells, tx).value;
      && d.1 == [Accepted(Message(EmitterOf(tx.args[1]), SequenceOf(tx.args[1])))]
      && d.0.Keys == cells.Keys && d.0[tx.accounts[0]].tag == Some(Ascii("duplicate"))
      && forall a | a in cells && a != tx.accounts[0] :: d.0[a] == cells[a]
  {
    hide FromBE, MarkBit, Bit, MessageOf, EmitterOf, SequenceOf;
    FramedMessage(tx.args[1]);
    Names();
  }

  // ---------- governance messages ----------

  /** Addressed to this module, with an action and a target chain. */
  predicate ForCore(p: bytes) {
    |p| >= 35 && p[..32] == Zeros(28) + Ascii("Core")
  }

  predicate TargetsThis(p: bytes)
    requires |p| >= 35
  {
    p[33..35] == [0, 8]
  }

  /** A guardian set this contract can install for this caller. */
  predicate InstallsNow(env: Env, st: CoreState, p: bytes, tx: Txn, isBoot: bool, now: uint64) {
    && |p| >= 40 && 0 < p[39] <= 95 && 40 + 20 * p[39] as nat <= |p|
    && |tx.accounts| >= 3
    && var index, old_, new_ := FromBE(p[35..39]), tx.accounts[1], tx.accounts[2];
       && new_ == env.at(index, Ascii("guardian")) && new_ in st.cells
       && (isBoot || (new_ != old_ && index == st.setIndex + 1))
       && (new_ != old_ ==> old_ in st.cells && now + 86400 < 0x1_0000_0000_0000_0000)
  }

  /** Everything a governance message needs but being fresh: its emitter, the set it names,
      and one of four orders. */
  predicate Governs(env: Env, st: CoreState, tx: Txn, isBoot: bool, now: uint64) {
    && |tx.args| > 1 && Framed(tx.args[1])
    && var vaa, p := tx.args[1], PayloadOf(tx.args[1]);
       && EmitterOf(vaa) == GOVERNOR && ForCore(p)
       && (st.setIndex == 0 || FromBE(vaa[1..5]) == st.setIndex)
       && (|| (p[32] == 1 && TargetsThis(p) && |p| >= 67)
           || (p[32] == 2 && (TargetsThis(p) || p[33..35] == [0, 0]) && InstallsNow(env, st, p, tx, isBoot, now))
           || (p[32] == 3 && TargetsThis(p) && |p| >= 67)
           || (p[32] == 4 && TargetsThis(p) && |p| >= 99))
  }

  /** The fields a governance message is read at. */
  lemma Cuts(vaa: bytes)
    requires Framed(vaa) && |PayloadOf(vaa)| >= 35
    ensures
      var off, p := 66 * SigCount(vaa) + 14, PayloadOf(vaa);
      && vaa[off..off + 2] + vaa[off + 2..off + 34] == EmitterOf(vaa)
      && vaa[off + 43..off + 75] == p[..32] && vaa[off + 75] == p[32] && vaa[off + 76..off + 78] == p[33..35]
  {
  }

  lemma GovernorParts(chain: bytes, address: bytes)
    requires |chain| == 2 && |address| == 32
    ensures chain + address == GOVERNOR <==> chain == [0, 1] && address == GOVERNANCE_EMITTER
  {
    assert GOVERNOR[..2] == [0, 1] && GOVERNOR[2..] == GOVERNANCE_EMITTER;
    assert (chain + address)[..2] == chain && (chain + address)[2..] == address;
  }

  lemma Modules()
    ensures CORE_MODULE == Zeros(28) + Ascii("Core") && THIS_CHAIN == [0, 8] && ANY_CHAIN == [0, 0] && GRACE == 86400
  {
    assert Ascii("Core") == [67, 111, 114, 101];
  }

  lemma InstallExactly(env: Env, st: CoreState, vaa: bytes, tx: Txn, isBoot: bool, now: uint64)
    requires Framed(vaa) && |PayloadOf(vaa)| >= 35
    ensures InstallSet(env, st, vaa, ActionOffset(vaa[5]), tx, isBoot, now).Some? <==> InstallsNow(env, st, PayloadOf(vaa), tx, isBoot, now)
    ensures InstallsNow(env, st, PayloadOf(vaa), tx, isBoot, now) ==>
      SetRecord(vaa) == Some(PayloadOf(vaa)[39..40 + 20 * PayloadOf(vaa)[39] as nat])
  {
    hide FromBE, Itob;
    Names();
    Modules();
    var p, off := PayloadOf(vaa), ActionOffset(vaa[5]);
    assert off == 66 * SigCount(vaa) + 57 + 32;
    if |p| >= 39 {
      assert vaa[off + 3..off + 7] == p[35..39];
    }
    if |p| >= 40 {
      var n: nat := p[39];
      assert vaa[off + 7] == n;
      if 40 + 20 * n <= |p| {
        assert vaa[off + 7..off + 7 + (1 + 20 * n)] == p[39..40 + 20 * n];
      }
    }
  }

  /** A governance message is carried out exactly under these conditions. */
  lemma GovernsExactly(env: Env, st: CoreState, tx: Txn, isBoot: bool, now: uint64)
    ensures HandleGovernance(env, st, tx, isBoot, now).Some? <==> Governs(env, st, tx, isBoot, now)
  {
    hide FromBE, InstallSet, InstallsNow;
    if HandleGovernance(env, st, tx, isBoot, now).Some? {
      GovernanceFramed(env, st, tx, isBoot, now);
    }
    if |tx.args| > 1 && Framed(tx.args[1]) && |PayloadOf(tx.args[1])| >= 35 {
      var vaa := tx.args[1];
      var off, p := 66 * SigCount(vaa) + 14, PayloadOf(vaa);
      Cuts(vaa);
      Modules();
      GovernorParts(vaa[off..off + 2], vaa[off + 2..off + 34]);
      InstallExactly(env, st, vaa, tx, isBoot, now);
      assert ActionOffset(vaa[5]) == off + 75;
    }
  }

  lemma GovernanceFramed(env: Env, st: CoreState, tx: Txn, isBoot: bool, now: uint64)
    requires HandleGovernance(env, st, tx, isBoot, now).Some?
    ensures |tx.args| > 1 && Framed(tx.args[1]) && |PayloadOf(tx.args[1])| >= 35
  {
    hide FromBE, InstallSet;
  }

  lemma OrderLength(env: Env, st: CoreState, tx: Txn, isBoot: bool, now: uint64)
    requires HandleGovernance(env, st, tx, isBoot, now).Some?
    ensures |tx.args| > 1 && Framed(tx.args[1]) && |PayloadOf(tx.args[1])| >= 35
    ensures
      var p := PayloadOf(tx.args[1]);
      (p[32] == 1 || p[32] == 3 ==> |p| >= 67) && 1 <= p[32] <= 4
  {
    hide HandleGovernance, InstallsNow, FromBE;
    GovernsExactly(env, st, tx, isBoot, now);
  }

  /** The keys of a guardian-set message. */
  function KeysOf(p: bytes): bytes
    requires |p| >= 40 && 40 + 20 * p[39] as nat <= |p|
  {
    p[40..40 + 20 * p[39] as nat]
  }

  /** What a new set does to the state and the log; the accounts are described by
      `CoreEffects.InstallParts`. */
  predicate SetInstalled(st: CoreState, vaa: bytes, p: bytes, isBoot: bool, now: uint64, g: (CoreState, seq<Event>)) {
    && |p| >= 40 && 40 + 20 * p[39] as nat <= |p|
    && g.0.setIndex == FromBE(p[35..39]) && g.0 == st.(setIndex := g.0.setIndex, cells := g.0.cells)
    && g.1 == [if isBoot then Booted(FromBE(p[35..39]), KeysOf(p)) else Upgraded(vaa, KeysOf(p), now)]
  }

  /** What the four orders do. */
  lemma GovernsEffect(env: Env, st: CoreState, tx: Txn, isBoot: bool, now: uint64, g: (CoreState, seq<Event>))
    requires HandleGovernance(env, st, tx, isBoot, now) == Some(g)
    ensures |tx.args| > 1 && Framed(tx.args[1]) && |PayloadOf(tx.args[1])| >= 35
    ensures
      var p := PayloadOf(tx.args[1]);
      && 1 <= p[32] <= 4
      && (p[32] == 1 ==> |p| >= 67 && g == (st.(updateHash := p[35..67]), []))
      && (p[32] == 2 ==> SetInstalled(st, tx.args[1], p, isBoot, now, g))
      && (p[32] == 3 ==> |p| >= 67 && FromBE(p[59..67]) < U64 && g == (st.(messageFee := FromBE(p[59..67])), []))
      && (p[32] == 4 ==> g == (st, []))
  {
    hide FromBE, InstallSet, SetInstalled;
    OrderLength(env, st, tx, isBoot, now);
    var vaa := tx.args[1];
    var off, p := 66 * SigCount(vaa) + 14, PayloadOf(vaa);
    Cuts(vaa);
    assert ActionOffset(vaa[5]) == off + 75;
    if p[32] == 1 {
      assert vaa[off + 78..off + 110] == p[35..67];
    } else if p[32] == 2 {
      InstallEffect(env, st, vaa, tx, isBoot, now, g);
    } else if p[32] == 3 {
      assert vaa[off + 102..off + 110] == p[59..67];
    }
  }

  lemma InstallEffect(env: Env, st: CoreState, vaa: bytes, tx: Txn, isBoot: bool, now: uint64, g: (CoreState, seq<Event>))
    requires Framed(vaa) && |PayloadOf(vaa)| >= 35 && InstallSet(env, st, vaa, ActionOffset(vaa[5]), tx, isBoot, now) == Some(g)
    ensures SetInstalled(st, vaa, PayloadOf(vaa), isBoot, now, g)
  {
    InstallExactly(env, st, vaa, tx, isBoot, now);
    hide InstallSet, FromBE, SetRecord;
    var idx, record, a2 := CoreEffects.InstallParts(env, st, vaa, ActionOffset(vaa[5]), tx, isBoot, now, g);
    var p, off := PayloadOf(vaa), ActionOffset(vaa[5]);
    assert vaa[off + 3..off + 7] == p[35..39];
    assert record[1..] == KeysOf(p);
  }

  // ---------- the calls ----------

  /** `init` is for the creator, once, and needs the stateless program's address and a fresh
      governance message. */
  predicate Boots(env: Env, st: CoreState, tx: Txn, now: uint64) {
    && tx.sender == env.creator && !st.booted && |tx.args| > 2
    && Fresh(env.at, st.cells, tx) && Governs(env, Marked(env, st, tx).(vphash := tx.args[2], booted := true), tx, true, now)
  }

  /** The state once the message is marked. */
  function Marked(env: Env, st: CoreState, tx: Txn): CoreState {
    match CheckForDuplicate(env, st.cells, tx)
    case None => st
    case Some(d) => st.(cells := d.0)
  }

  /** Booting succeeds exactly then, and the stateless program's address is kept. */
  lemma InitExactly(env: Env, st: CoreState, tx: Txn, now: uint64)
    ensures Init(env, st, tx, now).Some? <==> Boots(env, st, tx, now)
    ensures Boots(env, st, tx, now) ==> Init(env, st, tx, now).value.0.vphash == tx.args[2]
  {
    hide CheckForDuplicate, HandleGovernance, Governs, Fresh;
    FreshNeeds(env, st.cells, tx);
    if |tx.args| > 2 {
      var st1 := Marked(env, st, tx).(vphash := tx.args[2], booted := true);
      GovernsExactly(env, st1, tx, true, now);
      if HandleGovernance(env, st1, tx, true, now).Some? {
        GovernanceFramed(env, st1, tx, true, now);
        KeepsVerifier(env, st1, tx, true, now);
      }
      if Framed(tx.args[1]) { DuplicateExactly(env, st.cells, tx); }
    }
  }

  lemma FreshNeeds(env: Env, cells: Cells, tx: Txn)
    ensures Fresh(env.at, cells, tx) ==> |tx.args| > 1 && Framed(tx.args[1])
    ensures CheckForDuplicate(env, cells, tx).Some? ==> |tx.args| > 1
  {
    hide Mark, MessageOf;
  }

  lemma KeepsVerifier(env: Env, st: CoreState, tx: Txn, isBoot: bool, now: uint64)
    requires HandleGovernance(env, st, tx, isBoot, now).Some?
    ensures HandleGovernance(env, st, tx, isBoot, now).value.0.vphash == st.vphash
  {
    hide FromBE, SetRecord, StoreSet;
  }

  /** `g` is a call of `verifyVAA` on the message of `tx`, by the same sender and with the same
      first two accounts, and neither rekeys. */
  predicate VerifiedInFront(g: Txn, tx: Txn) {
    && g.kind == ApplicationCall && g.appId == tx.appId && g.onCompletion == NoOp && g.sender == tx.sender
    && |g.args| > 1 && g.args[0] == Ascii("verifyVAA") && |tx.args| > 1 && g.args[1] == tx.args[1]
    && g.rekeyTo == Zeros(32) && tx.rekeyTo == Zeros(32)
    && |g.accounts| >= 2 && |tx.accounts| >= 2 && g.accounts[..2] == tx.accounts[..2]
  }

  lemma InFront(g: Txn, tx: Txn)
    requires |tx.args| > 1 && |tx.accounts| > 0
    ensures VerifiedInFront(g, tx) <==>
      && g.Calls(tx.appId) && g.Arg(0) == Some(VERIFY_VAA) && g.sender == tx.sender
      && g.rekeyTo == ZERO_ADDRESS && g.onCompletion == NoOp
      && g.Arg(1) == tx.Arg(1) && tx.rekeyTo == ZERO_ADDRESS
      && g.Account(1) == tx.Account(1)
      && g.Account(2) == tx.Account(2) && tx.Account(2).Some?
  {
    Names();
  }

  predicate Governed(env: Env, st: CoreState, group: Group, t: nat, now: uint64)
    requires t < |group|
  {
    && t > 0 && VerifiedInFront(group[t - 1], group[t])
    && Fresh(env.at, st.cells, group[t]) && Governs(env, Marked(env, st, group[t]), group[t], false, now)
  }

  /** A governance call succeeds exactly with a fresh governance message that the call in front
      verifies. */
  lemma GovernanceExactly(env: Env, st: CoreState, group: Group, t: nat, now: uint64)
    requires t < |group|
    ensures Governance(env, st, group, t, now).Some? <==> Governed(env, st, group, t, now)
  {
    hide CheckForDuplicate, HandleGovernance, Governs, Fresh, VerifiedInFront;
    var tx := group[t];
    FreshNeeds(env, st.cells, tx);
    FreshAccount(env, st.cells, tx);
    if |tx.args| > 1 && t > 0 {
      GovernsExactly(env, Marked(env, st, tx), tx, false, now);
      if |tx.accounts| > 0 { InFront(group[t - 1], tx); }
      if HandleGovernance(env, Marked(env, st, tx), tx, false, now).Some? {
        GovernanceFramed(env, Marked(env, st, tx), tx, false, now);
      }
      if Framed(tx.args[1]) { DuplicateExactly(env, st.cells, tx); }
    }
  }

  lemma FreshAccount(env: Env, cells: Cells, tx: Txn)
    ensures Fresh(env.at, cells, tx) || CheckForDuplicate(env, cells, tx).Some? ==> |tx.accounts| > 0
  {
    hide Mark, MessageOf, Framed;
  }

  // ---------- publishing, opting in ----------

  /** The sender's counter account is open and passed first, the counter is not used up, and
      the transaction in front pays the fee, if there is one, to the contract. */
  predicate Publishes(env: Env, st: CoreState, group: Group, t: nat)
    requires t < |group|
  {
    var tx, a := group[t], env.at(0, group[t].sender);
    && |tx.accounts| > 0 && tx.accounts[0] == a && a in st.cells
    && FromBE(st.cells[a].flat[0..8]) + 1 < 0x1_0000_0000_0000_0000
    && (st.messageFee > 0 ==> t > 0 && Pays(group[t - 1], st.messageFee, env.app.address))
  }

  predicate Pays(pmt: Txn, fee: uint64, to: bytes) {
    pmt.kind == Payment && pmt.amount >= fee && pmt.receiver == to && pmt.rekeyTo == Zeros(32)
  }

  /** The sender's counter is one more, the message carries the new number, and nothing else
      but the tag has changed. */
  predicate Numbered(env: Env, st: CoreState, sender: bytes, r: (CoreState, seq<Event>)) {
    var a := env.at(0, sender);
    && a in st.cells && a in r.0.cells
    && r.0 == st.(cells := st.cells[a := r.0.cells[a]])
    && var was, is_ := st.cells[a].flat, r.0.cells[a].flat;
       && FromBE(is_[0..8]) == FromBE(was[0..8]) + 1 && is_[8..] == was[8..]
       && r.0.cells[a].tag == Some(Ascii("publishMessage"))
       && FromBE(is_[0..8]) < U64 && r.1 == [Published(sender, FromBE(is_[0..8]))]
  }

  /** Publishing succeeds exactly then, and takes the next number. */
  lemma PublishExactly(env: Env, st: CoreState, group: Group, t: nat)
    requires t < |group|
    ensures PublishMessage(env, st, group, t).Some? <==> Publishes(env, st, group, t)
    ensures Publishes(env, st, group, t) ==> Numbered(env, st, group[t].sender, PublishMessage(env, st, group, t).value)
  {
    hide FromBE, Itob;
    Names();
    var a := env.at(0, group[t].sender);
    if Publishes(env, st, group, t) {
      FromBEBound(st.cells[a].flat[0..8]);
      var n := FromBE(st.cells[a].flat[0..8]) + 1;
      ItobBtoi(n);
      assert Splice(st.cells[a].flat, 0, Itob(n))[0..8] == Itob(n);
    }
  }

  /** Paid for by the transaction in front, an account hands itself to the contract, once. */
  predicate Joins(env: Env, st: CoreState, group: Group, t: nat)
    requires t < |group|
  {
    && t > 0 && group[t - 1].kind == Payment && group[t - 1].amount == env.seed && group[t - 1].receiver == group[t].sender
    && group[t].rekeyTo == env.app.address && |group[t].args| == 0 && group[t].sender !in st.cells
  }

  // ---------- every call ----------

  /** What the contract lets through. */
  predicate Accepts(env: Env, st: CoreState, group: Group, t: nat, now: uint64)
    requires t < |group|
  {
    var tx := group[t];
    if tx.kind != ApplicationCall || tx.appId != env.app.id then true
    else if tx.onCompletion == OptIn then Joins(env, st, group, t)
    else
      && tx.onCompletion == NoOp && |tx.args| > 0
      && (|| tx.args[0] == Ascii("nop")
          || (tx.args[0] == Ascii("publishMessage") && Publishes(env, st, group, t))
          || (tx.args[0] == Ascii("init") && Boots(env, st, tx, now))
          || (tx.args[0] == Ascii("verifySigs") && tx.sender == st.vphash)
          || (tx.args[0] == Ascii("verifyVAA") && VerifyVAA(env.crypto, env.at, st.cells, st.vphash, group, t, now).Some?)
          || (tx.args[0] == Ascii("governance") && Governed(env, st, group, t, now)))
  }

  /** The calls that change something. */
  predicate Changes(env: Env, tx: Txn) {
    && tx.kind == ApplicationCall && tx.appId == env.app.id
    && (tx.onCompletion == OptIn || (|tx.args| > 0 && tx.args[0] in {Ascii("publishMessage"), Ascii("init"), Ascii("governance")}))
  }

  /** Exactly which transactions the core contract accepts. All but four kinds of call change
      nothing, and opting in opens a blank account. */
  lemma CallExactly(env: Env, st: CoreState, group: Group, t: nat, now: uint64)
    requires t < |group|
    ensures Call(env, st, group, t, now).Some? <==> Accepts(env, st, group, t, now)
    ensures Accepts(env, st, group, t, now) && !Changes(env, group[t]) ==> Call(env, st, group, t, now).value.0 == st
    ensures Accepts(env, st, group, t, now) && Changes(env, group[t]) && group[t].onCompletion == OptIn ==>
      Call(env, st, group, t, now) == Some((st.(cells := st.cells[group[t].sender := Cell(Zeros(1905), None)]), []))
  {
    hide PublishMessage, Publishes, Init, Boots, VerifyVAA, Governance, Governed;
    Names();
    PublishExactly(env, st, group, t);
    InitExactly(env, st, group[t], now);
    GovernanceExactly(env, st, group, t, now);
    if VerifyVAA(env.crypto, env.at, st.cells, st.vphash, group, t, now).Some? {
      NamedSet(env.crypto, env.at, st.cells, st.vphash, group, t, now);
    }
  }

  // ---------- every run ----------

  lemma {:induction false} StepsOf(env: Env, st: CoreState, group: Group, now: uint64, t: nat, k: nat)
    requires t < k <= |group| && After(env, st, group, now, k).Some?
    ensures After(env, st, group, now, t).Some?
    ensures Call(env, After(env, st, group, now, t).value.0, group, t, now).Some?
  {
    hide Call;
    if t + 1 < k { StepsOf(env, st, group, now, t, k - 1); }
  }

  predicate CallsWith(env: Env, tx: Txn, name: bytes) {
    tx.kind == ApplicationCall && tx.appId == env.app.id && tx.onCompletion == NoOp && |tx.args| > 0 && tx.args[0] == name
  }

  /** Over every run, whatever `init` or `governance` call was committed carries a message of
      the governor, chain 1 and address 4 written out, and an `init` was sent by the creator. */
  lemma OnlyTheGovernor(env: Env, blocks: seq<Block>, i: nat, t: nat)
    requires Committed(env, blocks, i) && t < |blocks[i].group|
    requires CallsWith(env, blocks[i].group[t], Ascii("init")) || CallsWith(env, blocks[i].group[t], Ascii("governance"))
    ensures
      var tx := blocks[i].group[t];
      && |tx.args| > 1 && Framed(tx.args[1]) && EmitterOf(tx.args[1]) == GOVERNOR && ForCore(PayloadOf(tx.args[1]))
      && (CallsWith(env, tx, Ascii("init")) ==> tx.sender == env.creator)
      && (CallsWith(env, tx, Ascii("governance")) ==> t > 0 && VerifiedInFront(blocks[i].group[t - 1], tx))
  {
    hide Call, Run, InstallsNow, FromBE, VerifiedInFront, Fresh, Marked, After;
    var st, b := Run(env, blocks[..i]).0, blocks[i];
    StepsOf(env, st, b.group, b.now, t, |b.group|);
    CallExactly(env, After(env, st, b.group, b.now, t).value.0, b.group, t, b.now);
    Names();
  }
}
