/** Exactly which calls the token bridge accepts, and what they release, create or announce, in
    terms of the fields of the transactions and the bytes of the messages, with every constant
    written out. */
module BridgeAccepts {
  import opened Teal
  import opened Transactions
  import opened VaaVerify
  import opened VerifyVaa
  import opened Template
  import opened LocalBlob
  import opened Replay
  import opened TokenBridge
  import opened BridgeTransfers
  import opened Signatures
  import opened Envelope
  import opened BridgeRuns
  import BridgeCustody
  import BridgeLedger
  import Core

  // ---------- transactions in front ----------

  /** Rekeys nothing, closes nothing, and if it is a call it is an ordinary one. */
  predicate Plain(t: Txn) {
    t.rekeyTo == Zeros(32) && t.closeTo == Zeros(32) && t.assetCloseTo == Zeros(32) && t.onCompletion == NoOp
  }

  /** `v` has the core contract verify the message of `tx`, for the same sender and with the
      same first two accounts. */
  predicate VerifiesSame(env: Env, v: Txn, tx: Txn) {
    && v.kind == ApplicationCall && v.appId == env.coreId && v.sender == tx.sender && Plain(v)
    && |v.args| > 1 && v.args[0] == Ascii("verifyVAA") && |tx.args| > 1 && v.args[1] == tx.args[1]
    && |v.accounts| >= 2 && |tx.accounts| >= 2 && v.accounts[..2] == tx.accounts[..2]
  }

  lemma VerifiesExactly(env: Env, v: Txn, tx: Txn)
    requires |tx.args| > 1 && |tx.accounts| > 0
    ensures VerifiesFor(env, v, tx) <==> VerifiesSame(env, v, tx)
  {
    Names();
  }

  lemma BridgeNames()
    ensures NATIVE == Ascii("native") && ASSET == Ascii("asset") && OPTIN == Ascii("optin")
    ensures RECEIVE_ATTEST == Ascii("receiveAttest") && ATTEST_TOKEN == Ascii("attestToken")
    ensures COMPLETE_TRANSFER == Ascii("completeTransfer") && SEND_TRANSFER == Ascii("sendTransfer")
    ensures Core.THIS_CHAIN == [0, 8] && Core.ANY_CHAIN == [0, 0]
  {
  }

  // ---------- sendTransfer ----------

  /** A positive message fee stands two places in front, paid by the sender to the bridge. */
  predicate FeeInFront(env: Env, group: seq<Txn>, t: nat, fee: uint64)
    requires t < |group|
  {
    fee > 0 ==> t >= 2 && BridgePaid(env, group[t - 2], group[t].sender, fee)
  }

  predicate BridgePaid(env: Env, pmt: Txn, sender: bytes, fee: uint64) {
    pmt.kind == Payment && pmt.sender == sender && pmt.receiver == env.app.address && pmt.amount >= fee && Plain(pmt)
  }

  /** The deposit stands just in front: from the sender to the second account passed. */
  predicate DepositInFront(group: seq<Txn>, t: nat, asset: nat)
    requires t < |group|
  {
    t > 0 && |group[t].accounts| >= 2 && Deposits(group[t - 1], group[t].sender, group[t].accounts[1], asset)
  }

  predicate Deposits(d: Txn, sender: bytes, to: bytes, asset: nat) {
    && d.sender == sender && d.receiver == to && Plain(d)
    && if asset == 0 then d.kind == Payment else d.kind == AssetTransfer && d.asset == asset
  }

  /** How many of an asset's own units are one of the eighth decimal. */
  function Unit(env: Env, asset: uint64): (n: nat)
    ensures n >= 1
  {
    if asset == 0 || env.decimals(asset) <= 8 then 1 else
      PowTenGrows(0, env.decimals(asset) - 8);
      Pow(10, env.decimals(asset) - 8)
  }

  predicate Counted(env: Env, asset: uint64) {
    asset == 0 || env.decimals(asset) <= 19
  }

  /** The account the deposit goes to: the record of the token an asset of the bridge's own
      stands for, or the custody account of any other asset. */
  predicate AssetAccount(env: Env, cells: Cells, wrapped: bool, asset: nat, arg1: bytes, acct: bytes) {
    if asset != 0 && wrapped then
      && acct in cells && cells[acct].flat[0..8] == arg1
      && acct == env.at(FromBE(cells[acct].flat[92..94]), cells[acct].flat[60..92])
    else acct == env.at(asset, Ascii("native"))
  }

  /** Asset, receiver, chain, fee and, perhaps, a payload. */
  predicate ArgumentsFit(tx: Txn) {
    && 6 <= |tx.args| <= 7 && |tx.args[1]| <= 8 && |tx.args[3]| <= 32 && |tx.args[4]| >= 8 && |tx.args[5]| <= 8
    && (|tx.args| == 7 ==> |tx.sender| == 32)
  }

  function AssetArg(tx: Txn): (n: uint64)
    requires ArgumentsFit(tx)
  {
    FromBEBound(tx.args[1]);
    FromBE(tx.args[1])
  }

  function FeeArg(tx: Txn): (n: uint64)
    requires ArgumentsFit(tx)
  {
    FromBEBound(tx.args[5]);
    FromBE(tx.args[5])
  }

  predicate Sends(env: Env, st: BridgeState, group: seq<Txn>, t: nat, out: Outside)
    requires t < |group|
  {
    var tx := group[t];
    && ArgumentsFit(tx) && out.messageFee.Some? && out.published
    && FeeInFront(env, group, t, out.messageFee.value)
    && DepositInFront(group, t, AssetArg(tx))
    && FeeArg(tx) <= group[t - 1].amount && Counted(env, AssetArg(tx)) && group[t - 1].amount / Unit(env, AssetArg(tx)) > 0
    && AssetAccount(env, st.cells, out.wrapped, AssetArg(tx), tx.args[1], tx.accounts[1])
  }

  lemma FeeExactly(env: Env, group: seq<Txn>, t: nat, fee: uint64)
    requires t < |group|
    ensures FeePaid(env, group, t, 2, fee) <==> FeeInFront(env, group, t, fee)
  {
  }

  lemma DepositExactly(group: seq<Txn>, t: nat, asset: uint64)
    requires t < |group| && group[t].Account(2).Some?
    ensures Deposit(group, t, asset, group[t].accounts[1]).Some? <==> DepositInFront(group, t, asset)
    ensures DepositInFront(group, t, asset) ==> Deposit(group, t, asset, group[t].accounts[1]) == Some(group[t - 1].amount)
  {
  }

  lemma FactorExactly(env: Env, asset: uint64)
    ensures FactorOf(env, asset).Some? <==> Counted(env, asset)
    ensures Counted(env, asset) ==> FactorOf(env, asset).value == Unit(env, asset)
  {
  }

  lemma TokenExactly(env: Env, cells: Cells, wrapped: bool, asset: uint64, arg1: bytes, acct: bytes)
    ensures Token(env, cells, wrapped, asset, arg1, acct).Some? <==> AssetAccount(env, cells, wrapped, asset, arg1, acct)
    ensures AssetAccount(env, cells, wrapped, asset, arg1, acct) ==>
      Token(env, cells, wrapped, asset, arg1, acct) == Some(
        if asset != 0 && wrapped then (cells[acct].flat[60..92], cells[acct].flat[92..94]) else (arg1, [0, 8]))
    ensures AssetAccount(env, cells, wrapped, asset, arg1, acct) && asset != 0 && wrapped ==> acct in cells
  {
    hide FromBE;
    BridgeNames();
  }

  /** What is announced: the type, amount, token, receiver and chains, then the fee or the
      sender and the payload. */
  predicate Announces(tx: Txn, token: bytes, chain: bytes, amount: nat, cut: nat, p: bytes)
    requires ArgumentsFit(tx)
  {
    && |token| <= 32 && |chain| == 2 && |p| == (if |tx.args| == 7 then 133 + |tx.args[6]| else 133)
    && p[0] == (if |tx.args| == 7 then 3 else 1) && p[1..25] == Zeros(24) && FromBE(p[25..33]) == amount
    && p[33..65] == Zeros(32 - |token|) + token && p[65..67] == chain
    && p[67..99] == Zeros(32 - |tx.args[3]|) + tx.args[3] && p[99..101] == tx.args[4][6..8]
    && (|tx.args| == 7 ==> p[101..133] == tx.sender && p[133..] == tx.args[6])
    && (|tx.args| == 6 ==> p[101..125] == Zeros(24) && FromBE(p[125..133]) == cut)
  }

  /** The fields of a message, at their offsets. */
  lemma PayloadCut(withPayload: bool, amount: uint64, token: bytes, chain: bytes, to: bytes, toChain: bytes, tail: bytes, p: bytes)
    requires |token| <= 32 && |to| <= 32 && |chain| == 2 && |toChain| == 2
    requires p == Payload(withPayload, amount, token, chain, to, toChain, tail)
    ensures |p| == 101 + |tail| && p[0] == (if withPayload then 3 else 1)
    ensures p[1..25] == Zeros(24) && p[25..33] == Itob(amount) && p[33..65] == LeftPad(token) && p[65..67] == chain
    ensures p[67..99] == LeftPad(to) && p[99..101] == toChain && p[101..] == tail
  {
    hide LeftPad, Itob;
    var kind: bytes := [if withPayload then 3 else 1];
    var r6 := toChain + tail;
    var r5 := LeftPad(to) + r6;
    var r4 := chain + r5;
    var r3 := LeftPad(token) + r4;
    var r2 := Itob(amount) + r3;
    assert p[0..] == p;
    Take(p, 0, kind, ZEROS_24 + r2);
    Take(p, 1, ZEROS_24, r2);
    Take(p, 25, Itob(amount), r3);
    Take(p, 33, LeftPad(token), r4);
    Take(p, 65, chain, r5);
    Take(p, 67, LeftPad(to), r6);
    Take(p, 99, toChain, tail);
  }

  lemma PayloadBytes(tx: Txn, amount: uint64, cut: uint64, token: bytes, chain: bytes, tail: bytes, p: bytes)
    requires ArgumentsFit(tx) && |token| <= 32 && |chain| == 2
    requires tail == if |tx.args| == 7 then tx.sender + tx.args[6] else ZEROS_24 + Itob(cut)
    requires p == Payload(|tx.args| == 7, amount, token, chain, tx.args[3], tx.args[4][6..8], tail)
    ensures Announces(tx, token, chain, amount, cut, p)
  {
    hide FromBE, Itob, Payload;
    PayloadCut(|tx.args| == 7, amount, token, chain, tx.args[3], tx.args[4][6..8], tail, p);
    ItobBtoi(amount);
    ItobBtoi(cut);
    if |tx.args| == 7 {
      Take(p, 101, tx.sender, tx.args[6]);
    } else {
      Take(p, 101, ZEROS_24, Itob(cut));
      assert p[125..] == p[125..133];
    }
  }

  lemma AnnouncementExactly(tx: Txn, amount: uint64, cut: uint64, token: bytes, chain: bytes)
    requires |tx.args| > 5 && |tx.args[1]| <= 8 && |tx.args[5]| <= 8 && |token| <= 32 && |chain| == 2
    ensures Announcement(tx, amount, cut, token, chain).Some? <==> ArgumentsFit(tx)
    ensures ArgumentsFit(tx) ==> Announces(tx, token, chain, amount, cut, Announcement(tx, amount, cut, token, chain).value)
  {
    hide Announces, FromBE, Itob, Payload, LeftPad;
    if |tx.args[3]| <= 32 && |tx.args| <= 7 && |tx.args[4]| >= 8 {
      var tail := if |tx.args| == 7 then tx.sender + tx.args[6] else ZEROS_24 + Itob(cut);
      var p := Payload(|tx.args| == 7, amount, token, chain, tx.args[3], tx.args[4][6..8], tail);
      PayloadCut(|tx.args| == 7, amount, token, chain, tx.args[3], tx.args[4][6..8], tail, p);
      if ArgumentsFit(tx) { PayloadBytes(tx, amount, cut, token, chain, tail, p); }
    }
  }

  /** What a call sends: the deposit, what it is in units, and the message that says so. */
  predicate SendsThis(env: Env, cells: Cells, tx: Txn, deposit: uint64, wrapped: bool, e: Entry)
    requires ArgumentsFit(tx) && |tx.accounts| >= 2
  {
    var asset, acct := AssetArg(tx), tx.accounts[1];
    var own := asset != 0 && wrapped;
    && e.Sent? && e.asset == asset && e.native == !own && e.deposit == deposit
    && e.amount == deposit / Unit(env, asset) && e.fee == FeeArg(tx) / Unit(env, asset)
    && (own ==> acct in cells)
    && if own then Announces(tx, cells[acct].flat[60..92], cells[acct].flat[92..94], e.amount, e.fee, e.payload)
       else Announces(tx, tx.args[1], [0, 8], e.amount, e.fee, e.payload)
  }

  /** `sendTransfer` succeeds exactly when the message fee is paid in front, the deposit goes
      from the sender to the asset's own account, the relayer's fee is within it, a unit of it
      is left, and the arguments fit. It then announces the deposit in units. */
  lemma SendExactly(env: Env, st: BridgeState, group: seq<Txn>, t: nat, out: Outside)
    requires t < |group|
    ensures SendTransfer(env, st, group, t, out).Some? <==> Sends(env, st, group, t, out)
    ensures Sends(env, st, group, t, out) ==>
      var r := SendTransfer(env, st, group, t, out).value;
      r.0 == st && |r.1| == 1 && SendsThis(env, st.cells, group[t], group[t - 1].amount, out.wrapped, r.1[0])
  {
    hide FeePaid, FeeInFront, Deposit, DepositInFront, FactorOf, Counted, Unit, Token, AssetAccount, Announcement, Announces, FromBE;
    var tx := group[t];
    SendNeeds(group, t);
    if |tx.args| > 5 && |tx.args[1]| <= 8 && |tx.args[5]| <= 8 && out.messageFee.Some? && |tx.accounts| >= 2 {
      var asset, fee := Btoi(tx.args[1]).value, Btoi(tx.args[5]).value;
      FeeExactly(env, group, t, out.messageFee.value);
      DepositExactly(group, t, asset);
      FactorExactly(env, asset);
      TokenExactly(env, st.cells, out.wrapped, asset, tx.args[1], tx.accounts[1]);
      if DepositInFront(group, t, asset) && Counted(env, asset) && AssetAccount(env, st.cells, out.wrapped, asset, tx.args[1], tx.accounts[1]) {
        var deposit := group[t - 1].amount;
        var token := Token(env, st.cells, out.wrapped, asset, tx.args[1], tx.accounts[1]).value;
        assert |token.0| <= 32 && |token.1| == 2;
        AnnouncementExactly(tx, Locked(deposit, FactorOf(env, asset).value), Locked(fee, FactorOf(env, asset).value), token.0, token.1);
      }
    }
  }

  lemma SendNeeds(group: seq<Txn>, t: nat)
    requires t < |group|
    ensures forall asset :: DepositInFront(group, t, asset) ==> t > 0 && |group[t].accounts| >= 2
  {
  }

  // ---------- completeTransfer ----------

  /** "This is 90% of the security": the message was published by this bridge itself, or by the
      address registered for its chain. */
  predicate KnownTo(env: Env, chains: map<bytes, bytes>, emitter: bytes)
    requires |emitter| == 34
  {
    if emitter[..2] == [0, 8] then emitter[2..] == env.app.address
    else emitter[..2] in chains && chains[emitter[..2]] == emitter[2..]
  }

  /** A transfer to this chain, its fee within its amount. */
  predicate TransferBytes(p: bytes) {
    && |p| >= 101 && (p[0] == 1 || p[0] == 3) && p[1..25] == Zeros(24) && p[99..101] == [0, 8]
    && (p[0] == 1 ==> |p| >= 133 && p[101..125] == Zeros(24) && FromBE(p[125..133]) <= FromBE(p[25..33]))
  }

  function Amount(p: bytes): (n: uint64)
    requires |p| >= 33
  {
    FromBEBound(p[25..33]);
    FromBE(p[25..33])
  }

  /** A transfer with payload carries no fee. */
  function Fee(p: bytes): (n: uint64)
    requires TransferBytes(p)
  {
    if p[0] == 3 then 0 else
      FromBEBound(p[125..133]);
      FromBE(p[125..133])
  }

  /** The token on its own chain. */
  function Origin(p: bytes): (b: bytes)
    requires |p| >= 65
    ensures |b| == 32
  {
    p[33..65]
  }

  function OriginChain(p: bytes): bytes
    requires |p| >= 67
  {
    p[65..67]
  }

  /** The asset, when the token is of this chain. */
  function NativeAsset(p: bytes): (n: uint64)
    requires |p| >= 65
  {
    FromBEBound(p[57..65]);
    FromBE(p[57..65])
  }

  /** The application, when there is a payload. */
  function TargetApp(p: bytes): (n: uint64)
    requires |p| >= 99
  {
    FromBEBound(p[91..99]);
    FromBE(p[91..99])
  }

  /** A transfer with payload is handed to its application by the next transaction. */
  predicate HandedOver(env: Env, group: seq<Txn>, t: nat, vaa: bytes, p: bytes)
    requires t < |group| && |p| >= 99
  {
    p[0] == 3 ==> env.appAddress(TargetApp(p)).Some? && t + 1 < |group| && Hands(env, group[t + 1], TargetApp(p), vaa)
  }

  predicate Hands(env: Env, g: Txn, app: nat, vaa: bytes) {
    && g.kind == ApplicationCall && g.appId == app
    && |g.args| > 1 && g.args[0] == env.selector && g.args[1] == [|vaa| / 256 % 256, |vaa| % 256] + vaa
  }

  /** The account paid from: the custody account of a native asset, or the record of a token
      that was attested. */
  predicate PaidFrom(env: Env, cells: Cells, p: bytes, acct: bytes)
    requires |p| >= 67
  {
    if OriginChain(p) == [0, 8] then acct == env.at(NativeAsset(p), Ascii("native")) && Counted(env, NativeAsset(p))
    else acct in cells && acct == env.at(FromBE(OriginChain(p)), Origin(p)) && FromBE(cells[acct].flat[0..8]) > 0
  }

  predicate Releasable(env: Env, st: BridgeState, group: seq<Txn>, t: nat)
    requires t < |group|
  {
    var tx := group[t];
    && Fresh(env.at, st.cells, tx) && Plain(tx) && t > 0 && VerifiesSame(env, group[t - 1], tx)
    && KnownTo(env, st.chains, EmitterOf(tx.args[1]))
    && var p := PayloadOf(tx.args[1]);
       && TransferBytes(p) && HandedOver(env, group, t, tx.args[1], p)
       && |tx.accounts| >= 3 && PaidFrom(env, st.cells, p, tx.accounts[2])
  }

  /** What is released: the amounts, the asset with the size of its unit, and between whom. */
  predicate ReleasesThis(env: Env, cells: Cells, tx: Txn, c: Release)
    requires |tx.args| > 1 && Framed(tx.args[1]) && TransferBytes(PayloadOf(tx.args[1])) && |tx.accounts| >= 3
  {
    var p, acct := PayloadOf(tx.args[1]), tx.accounts[2];
    && c.msg == Message(EmitterOf(tx.args[1]), SequenceOf(tx.args[1]))
    && c.m.amount == Amount(p) && c.m.fee == Fee(p) && c.m.origin == Origin(p) && c.m.originChain == FromBE(OriginChain(p))
    && c.from == acct
    && (p[0] == 3 ==> env.appAddress(TargetApp(p)) == Some(c.to)) && (p[0] == 1 ==> c.to == p[67..99])
    && if OriginChain(p) == [0, 8]
       then c.asset == NativeAsset(p) && c.factor == Unit(env, c.asset)
       else acct in cells && c.asset == FromBE(cells[acct].flat[0..8]) && c.factor == 1
  }

  lemma KnownExactly(env: Env, chains: map<bytes, bytes>, emitter: bytes)
    requires |emitter| == 34
    ensures KnownEmitter(env, chains, emitter[..2], emitter[2..]).Pass? <==> KnownTo(env, chains, emitter)
  {
    BridgeNames();
  }

  lemma PayloadAt(vaa: bytes, i: nat, n: nat)
    requires Framed(vaa)
    ensures Extract(vaa, 66 * SigCount(vaa) + 57 + i, n) == Extract(PayloadOf(vaa), i, n)
  {
    var off := 66 * SigCount(vaa) + 57;
    assert vaa[off..|vaa|] == PayloadOf(vaa);
    if i + n <= |PayloadOf(vaa)| { SliceOfSlice(vaa, off, |vaa|, i, i + n); }
  }

  lemma IntAt(vaa: bytes, i: nat, n: nat)
    requires Framed(vaa) && n <= 8
    ensures ReadInt(vaa, 66 * SigCount(vaa) + 57 + i, n) == ReadInt(PayloadOf(vaa), i, n)
  {
    PayloadAt(vaa, i, n);
  }

  lemma IsEight(b: bytes)
    requires |b| == 2
    ensures FromBE(b) == 8 <==> b == [0, 8]
  {
    assert [0, 8][..1] == [0];
    FromBEByte(0);
    if FromBE(b) == 8 { FromBEInjective(b, [0, 8]); }
  }

  lemma TransferExactly(vaa: bytes)
    requires Framed(vaa)
    ensures
      var m, p := ReadTransfer(vaa, 66 * SigCount(vaa) + 57), PayloadOf(vaa);
      && (m.Some? && m.value.destChain == 8 <==> TransferBytes(p))
      && (TransferBytes(p) ==>
           m.value == Transfer(p[0], Amount(p), Origin(p), FromBE(OriginChain(p)), p[67..99], 8, Fee(p)))
  {
    hide FromBE, Extract, PayloadOf, SigCount;
    var off, p := 66 * SigCount(vaa) + 57, PayloadOf(vaa);
    IntAt(vaa, 0, 1);
    PayloadAt(vaa, 1, 24);
    IntAt(vaa, 25, 8);
    PayloadAt(vaa, 33, 32);
    IntAt(vaa, 65, 2);
    PayloadAt(vaa, 67, 32);
    IntAt(vaa, 99, 2);
    PayloadAt(vaa, 101, 24);
    IntAt(vaa, 125, 8);
    if |p| >= 101 { IsEight(p[99..101]); }
    ExtractIs(p, 1, 24);
    ExtractIs(p, 33, 32);
    ExtractIs(p, 67, 32);
    ExtractIs(p, 101, 24);
  }

  lemma ExtractIs(s: bytes, i: nat, n: nat)
    ensures Extract(s, i, n) == if i + n <= |s| then Some(s[i..i + n]) else None
  {
  }

  lemma ReceiverExactly(env: Env, group: seq<Txn>, t: nat, vaa: bytes, p: bytes, m: Transfer)
    requires t < |group| && TransferBytes(p) && m.action == p[0] && m.destination == p[67..99]
    ensures Receiver(env, group, t, vaa, m).Some? <==> HandedOver(env, group, t, vaa, p)
    ensures HandedOver(env, group, t, vaa, p) ==> Receiver(env, group, t, vaa, m) == if p[0] == 3 then env.appAddress(TargetApp(p)) else Some(p[67..99])
  {
    hide FromBE;
    assert m.destination[24..32] == p[91..99];
    assert ToBE(|vaa|, 2) == [|vaa| / 256 % 256, |vaa| % 256];
  }

  /** Replay accounts and asset accounts are different, as their owners differ in length. */
  lemma SourceExactly(env: Env, cells: Cells, marked: Cells, tx: Txn, p: bytes, m: Transfer, acct: bytes)
    requires Injective(env.at) && Fresh(env.at, cells, tx) && Mark(env.at, cells, tx.args[1], tx.accounts[0]) == Some(marked)
    requires TransferBytes(p) && m.origin == Origin(p) && m.originChain == FromBE(OriginChain(p))
    ensures Source(env, marked, m, acct).Some? <==> PaidFrom(env, cells, p, acct)
    ensures PaidFrom(env, cells, p, acct) ==>
      var source := Source(env, marked, m, acct).value;
      if OriginChain(p) == [0, 8]
      then source.0 == NativeAsset(p) && source.1 == Unit(env, source.0)
      else acct in cells && source.0 == FromBE(cells[acct].flat[0..8]) && source.1 == 1
  {
    hide FromBE, Mark, Fresh, FactorOf, Counted, Unit;
    OtherAccount(env.at, cells, tx, FromBE(OriginChain(p)), Origin(p));
    MarkExactly(env.at, cells, tx);
    IsEight(OriginChain(p));
    BridgeNames();
    FactorExactly(env, NativeAsset(p));
    assert m.origin[24..32] == p[57..65];
    if acct in cells { FromBEBound(cells[acct].flat[0..8]); }
  }

  lemma OtherAccount(at: Locator, cells: Cells, tx: Txn, chain: nat, address: bytes)
    requires Injective(at) && Fresh(at, cells, tx) && |address| == 32
    ensures |tx.args| > 1 && Framed(tx.args[1]) && |tx.accounts| > 0 && tx.accounts[0] != at(chain, address)
  {
  }

  lemma ReleaseFramed(env: Env, st: BridgeState, group: seq<Txn>, t: nat)
    requires t < |group| && CheckRelease(env, st, group, t).Some?
    ensures |group[t].args| > 1 && Framed(group[t].args[1]) && |group[t].accounts| >= 3
  {
    hide Mark, VerifiesFor, KnownEmitter, Receiver, Source, FromBE;
  }

  /** The checks of a release pass exactly when the message is new, was verified just in front,
      comes from this bridge or the emitter registered for its chain, says a transfer to this
      chain, and the account paid from is that of the token it names. */
  lemma ReleaseExactly(env: Env, st: BridgeState, group: seq<Txn>, t: nat)
    requires t < |group| && Injective(env.at)
    ensures CheckRelease(env, st, group, t).Some? <==> Releasable(env, st, group, t)
    ensures Releasable(env, st, group, t) ==> ReleasesThis(env, st.cells, group[t], CheckRelease(env, st, group, t).value)
  {
    hide Mark, Fresh, MessageOf, VerifiesFor, VerifiesSame, CommonChecks, KnownEmitter, KnownTo, ReadTransfer, Receiver, HandedOver, Source, PaidFrom,
      FromBE, Injective, EmitterOf, PayloadOf, SequenceOf, Unit;
    var tx := group[t];
    if CheckRelease(env, st, group, t).Some? { ReleaseFramed(env, st, group, t); }
    FreshIs(env.at, st.cells, tx);
    if |tx.args| > 1 && Framed(tx.args[1]) && |tx.accounts| > 0 && t > 0 {
      var vaa := tx.args[1];
      var p, m := PayloadOf(vaa), ReadTransfer(vaa, 66 * SigCount(vaa) + 57);
      FramedMessage(vaa);
      MarkExactly(env.at, st.cells, tx);
      VerifiesExactly(env, group[t - 1], tx);
      PlainExactly(tx);
      EmitterLength(vaa);
      KnownExactly(env, st.chains, EmitterOf(vaa));
      TransferExactly(vaa);
      if Fresh(env.at, st.cells, tx) && TransferBytes(p) {
        ReceiverExactly(env, group, t, vaa, p, m.value);
        if |tx.accounts| >= 3 {
          var marked := Mark(env.at, st.cells, vaa, tx.accounts[0]).value;
          SourceExactly(env, st.cells, marked, tx, p, m.value, tx.accounts[2]);
        }
      }
    }
  }

  lemma PlainExactly(tx: Txn)
    ensures CommonChecks(tx) <==> Plain(tx)
  {
  }

  lemma EmitterLength(vaa: bytes)
    requires Framed(vaa)
    ensures |EmitterOf(vaa)| == 34
  {
  }

  lemma FreshIs(at: Locator, cells: Cells, tx: Txn)
    ensures Fresh(at, cells, tx) ==> |tx.args| > 1 && Framed(tx.args[1]) && tx.args[1][0] == 1 && |tx.accounts| > 0
  {
  }

  lemma OnlyReleasable(env: Env, st: BridgeState, group: seq<Txn>, t: nat, out: Outside)
    requires t < |group| && Injective(env.at) && CompleteTransfer(env, st, group, t, out).Some?
    ensures Releasable(env, st, group, t)
  {
    hide CheckRelease, Releasable, ReleasesThis, Injective, PayOut;
    ReleaseExactly(env, st, group, t);
  }

  /** With a total that fits a word, what is releasable is released exactly when the account
      paid from has what the message is worth. */
  lemma CompleteExactly(env: Env, st: BridgeState, group: seq<Txn>, t: nat, out: Outside) returns (c: Release)
    requires t < |group| && Injective(env.at) && Releasable(env, st, group, t)
    ensures ReleasesThis(env, st.cells, group[t], c)
    ensures BridgeLedger.Total(st.ledger, c.asset) < U64 && c.from != c.to ==>
      (CompleteTransfer(env, st, group, t, out).Some? <==> c.m.amount * c.factor <= Balance(st.ledger, c.from, c.asset))
  {
    hide CheckRelease, Releasable, ReleasesThis, Injective, BridgeLedger.Total, Balance, PayOut;
    ReleaseExactly(env, st, group, t);
    c := CheckRelease(env, st, group, t).value;
    if BridgeLedger.Total(st.ledger, c.asset) < U64 {
      BridgeCustody.FundedReleases(env, st, group, t, out, c);
    }
  }

  // ---------- receiveAttest ----------

  /** The five transactions: the core contract's check, a payment of 100000 to the asset's
      account, two calls that do nothing, and this one at the end. */
  predicate FiveInOrder(env: Env, group: seq<Txn>, t: nat)
    requires t < |group|
  {
    var tx := group[t];
    && t >= 4 && t + 1 == |group| && |tx.accounts| >= 3 && VerifiesSame(env, group[t - 4], tx)
    && Funds(group[t - 3], tx.sender, tx.accounts[2]) && Nothing(env, group[t - 2], tx.sender) && Nothing(env, group[t - 1], tx.sender)
  }

  predicate Funds(pmt: Txn, sender: bytes, to: bytes) {
    pmt.kind == Payment && pmt.amount >= 100_000 && pmt.sender == sender && pmt.receiver == to && Plain(pmt)
  }

  predicate Nothing(env: Env, g: Txn, sender: bytes) {
    g.kind == ApplicationCall && g.appId == env.app.id && |g.args| > 0 && g.args[0] == Ascii("nop") && g.sender == sender && Plain(g)
  }

  predicate Attests(env: Env, st: BridgeState, group: seq<Txn>, t: nat, newAsset: uint64)
    requires t < |group|
  {
    var tx := group[t];
    && Fresh(env.at, st.cells, tx) && FiveInOrder(env, group, t)
    && var e, p := EmitterOf(tx.args[1]), PayloadOf(tx.args[1]);
       && e[..2] in st.chains && st.chains[e[..2]] == e[2..]
       && |p| >= 100 && p[0] == 2
       && var acct := tx.accounts[2];
          && acct == env.at(FromBE(p[33..35]), p[1..33]) && acct in st.cells
          && (st.cells[acct].flat[0..8] == Zeros(8) ==> newAsset > 0)
          && 8 + 51 + |p| < 1905
  }

  /** `s` is `field` up to its first zero byte, or its first `max` bytes if that is less. */
  predicate CutField(field: bytes, max: nat, s: bytes) {
    && |s| <= |field| && s == field[..|s|] && 0 !in s && |s| <= max
    && (|s| == max || |s| == |field| || field[|s|] == 0)
  }

  /** What the entry for a new asset says. */
  predicate CreatesThis(p: bytes, id: uint64, e: Entry)
    requires |p| >= 100
  {
    && e.Created? && e.id == id && e.chain == FromBE(p[33..35]) && e.address == p[1..33]
    && e.decimals == (if p[35] > 8 then 8 else p[35] as nat)
    && CutField(p[36..68], 8, e.symbol) && CutField(p[68..100], 32, e.name)
  }

  /** A token seen for the first time is given the new asset, whose whole supply its account
      holds; the message's body is kept from byte 8 on, and no other asset's account changes. */
  predicate AttestsThis(st: BridgeState, tx: Txn, newAsset: uint64, r: (BridgeState, seq<Entry>))
    requires |tx.args| > 1 && Framed(tx.args[1]) && |PayloadOf(tx.args[1])| >= 100 && |tx.accounts| >= 3
  {
    var p, acct, msg := PayloadOf(tx.args[1]), tx.accounts[2], Message(EmitterOf(tx.args[1]), SequenceOf(tx.args[1]));
    && acct in st.cells && acct in r.0.cells && r.0 == st.(cells := r.0.cells, ledger := r.0.ledger)
    && (forall a | a in st.cells && a != acct && a != tx.accounts[0] :: a in r.0.cells && r.0.cells[a] == st.cells[a])
    && 59 + |p| < 1905 && r.0.cells[acct].flat[8..59 + |p|] == tx.args[1][6 + 66 * SigCount(tx.args[1])..]
    && if st.cells[acct].flat[0..8] == Zeros(8) then
         && r.0.ledger == st.ledger[(acct, newAsset) := 18446744073709550000]
         && FromBE(r.0.cells[acct].flat[0..8]) == newAsset && r.0.cells[acct].tag == Some(Ascii("asset"))
         && |r.1| == 2 && r.1[0] == Received(msg) && CreatesThis(p, newAsset, r.1[1])
       else
         && r.0.ledger == st.ledger && r.1 == [Received(msg)]
         && r.0.cells[acct].flat[0..8] == st.cells[acct].flat[0..8] && r.0.cells[acct].tag == st.cells[acct].tag
  }

  lemma {:induction false} TrimIs(s: bytes)
    ensures CutField(s, |s|, TrimBytes(s))
  {
    if s != [] && s[0] != 0 {
      TrimIs(s[1..]);
      assert [s[0]] + s[1..][..|TrimBytes(s[1..])|] == s[..1 + |TrimBytes(s[1..])|];
    }
  }

  lemma SymbolIs(field: bytes)
    requires |field| == 32
    ensures CutField(field, 8, Slice(TrimBytes(field), 0, 8))
  {
    TrimIs(field);
    hide TrimBytes;
    var s := TrimBytes(field);
    var cut := Slice(s, 0, 8);
    assert cut == field[..|cut|];
    forall b | b in cut ensures b in s {
    }
  }

  lemma FiveExactly(env: Env, group: seq<Txn>, t: nat)
    requires t < |group| && |group[t].args| > 1 && |group[t].accounts| >= 3
    ensures AttestGroup(env, group, t, group[t].accounts[2]) <==> FiveInOrder(env, group, t)
  {
    hide VerifiesSame, VerifiesFor;
    Names();
    if t >= 4 { VerifiesExactly(env, group[t - 4], group[t]); }
  }

  lemma AttestationExactly(vaa: bytes)
    requires Framed(vaa)
    ensures
      var a, p := ReadAttestation(vaa, 66 * SigCount(vaa) + 57), PayloadOf(vaa);
      && (a.Some? <==> |p| >= 100 && p[0] == 2)
      && (a.Some? ==> CreatesThis(p, 0, Created(0, a.value.chain, a.value.address, a.value.name, a.value.symbol, a.value.decimals)))
  {
    hide FromBE, Extract, PayloadOf, SigCount, TrimBytes, Slice, CutField;
    var p := PayloadOf(vaa);
    IntAt(vaa, 0, 1);
    PayloadAt(vaa, 1, 32);
    IntAt(vaa, 33, 2);
    IntAt(vaa, 35, 1);
    PayloadAt(vaa, 36, 32);
    PayloadAt(vaa, 68, 32);
    ExtractIs(p, 1, 32);
    ExtractIs(p, 36, 32);
    ExtractIs(p, 68, 32);
    if |p| >= 100 {
      SymbolIs(p[36..68]);
      TrimIs(p[68..100]);
    }
  }

  lemma KeptExactly(cells: Cells, acct: bytes, body: bytes, newAsset: uint64)
    ensures Attest(cells, acct, body, newAsset).Some? <==>
      acct in cells && (cells[acct].flat[0..8] == Zeros(8) ==> newAsset > 0) && 8 + |body| < 1905
    ensures Attest(cells, acct, body, newAsset).Some? ==> Attest(cells, acct, body, newAsset).value.1 == (cells[acct].flat[0..8] == Zeros(8))
  {
    hide FromBE;
    assert Itob(0) == Zeros(8);
  }

  /** Only this account and that of the mark change; a blank one takes the new id and the tag,
      and the body is kept in any case. */
  predicate KeptAs(cells: Cells, acct: bytes, mark: bytes, body: bytes, newAsset: uint64, kept: (Cells, bool)) {
    && acct in cells && acct in kept.0 && 8 + |body| < 1905
    && (forall a | a in cells && a != acct && a != mark :: a in kept.0 && kept.0[a] == cells[a])
    && var was, is_ := cells[acct], kept.0[acct];
       && kept.1 == (was.flat[0..8] == Zeros(8)) && is_.flat[8..8 + |body|] == body
       && (!kept.1 ==> is_.flat[0..8] == was.flat[0..8] && is_.tag == was.tag)
       && (kept.1 ==> FromBE(is_.flat[0..8]) == newAsset && is_.tag == Some(Ascii("asset")))
  }

  /** The account an attestation keeps its body in is not the one its mark goes to. */
  lemma KeptCell(at: Locator, cells: Cells, marked: Cells, tx: Txn, acct: bytes, body: bytes, newAsset: uint64)
    requires Injective(at) && Fresh(at, cells, tx) && Mark(at, cells, tx.args[1], tx.accounts[0]) == Some(marked)
    requires tx.accounts[0] != acct
    ensures Attest(marked, acct, body, newAsset).Some? <==>
      acct in cells && (cells[acct].flat[0..8] == Zeros(8) ==> newAsset > 0) && 8 + |body| < 1905
    ensures Attest(marked, acct, body, newAsset).Some? && |body| >= 86 ==>
      KeptAs(cells, acct, tx.accounts[0], body, newAsset, Attest(marked, acct, body, newAsset).value)
  {
    hide Mark, Fresh, Attest, FromBE, Injective, Itob;
    FreshIs(at, cells, tx);
    MarkExactly(at, cells, tx);
    KeptExactly(marked, acct, body, newAsset);
    BridgeNames();
    if Attest(marked, acct, body, newAsset).Some? && |body| >= 86 {
      AttestCell(marked, acct, body, newAsset, Attest(marked, acct, body, newAsset).value);
      ItobBtoi(newAsset);
    }
  }

  lemma AttestFramed(env: Env, st: BridgeState, group: seq<Txn>, t: nat, out: Outside)
    requires t < |group| && ReceiveAttest(env, st, group, t, out).Some?
    ensures |group[t].args| > 1 && Framed(group[t].args[1]) && |group[t].accounts| >= 3
  {
    hide Mark, AttestGroup, Attest, FromBE;
  }

  /** An attestation is received exactly when it is new, stands at the end of its five
      transactions, comes from the address registered for its chain, names the account passed,
      and fits in it. */
  lemma AttestExactly(env: Env, st: BridgeState, group: seq<Txn>, t: nat, out: Outside)
    requires t < |group| && Injective(env.at)
    ensures ReceiveAttest(env, st, group, t, out).Some? <==> Attests(env, st, group, t, out.newAsset)
    ensures Attests(env, st, group, t, out.newAsset) ==> AttestsThis(st, group[t], out.newAsset, ReceiveAttest(env, st, group, t, out).value)
  {
    hide Mark, Fresh, MessageOf, AttestGroup, FiveInOrder, ReadAttestation, Attest, FromBE, Injective, EmitterOf, PayloadOf, SequenceOf, CutField;
    var tx := group[t];
    if ReceiveAttest(env, st, group, t, out).Some? { AttestFramed(env, st, group, t, out); }
    FreshIs(env.at, st.cells, tx);
    FiveNeeds(env, group, t);
    if |tx.args| > 1 && Framed(tx.args[1]) && |tx.accounts| >= 3 {
      var vaa, acct := tx.args[1], tx.accounts[2];
      var p, body := PayloadOf(vaa), vaa[66 * SigCount(vaa) + 6..];
      FramedMessage(vaa);
      MarkExactly(env.at, st.cells, tx);
      FiveExactly(env, group, t);
      EmitterLength(vaa);
      PayloadLen(vaa);
      AttestationExactly(vaa);
      if Fresh(env.at, st.cells, tx) && |p| >= 100 && acct == env.at(FromBE(p[33..35]), p[1..33]) {
        OtherAccount(env.at, st.cells, tx, FromBE(p[33..35]), p[1..33]);
        KeptCell(env.at, st.cells, Mark(env.at, st.cells, vaa, tx.accounts[0]).value, tx, acct, body, out.newAsset);
      }
    }
  }

  lemma FiveNeeds(env: Env, group: seq<Txn>, t: nat)
    requires t < |group|
    ensures FiveInOrder(env, group, t) ==> |group[t].accounts| >= 3
  {
  }

  lemma PayloadLen(vaa: bytes)
    requires Framed(vaa)
    ensures |vaa| == 66 * SigCount(vaa) + 57 + |PayloadOf(vaa)|
  {
  }

  // ---------- governance ----------

  /** Everything a governance message needs but being fresh: the current set's index, the check
      in front, the governor, this module, and one of two orders. A chain is registered once. */
  predicate BridgeGoverns(env: Env, st: BridgeState, group: seq<Txn>, t: nat, current: Option<uint64>)
    requires t < |group|
  {
    var tx := group[t];
    && |tx.args| > 1 && Framed(tx.args[1]) && t > 0 && VerifiesSame(env, group[t - 1], tx) && Plain(tx)
    && var vaa, p := tx.args[1], PayloadOf(tx.args[1]);
       && current == Some(FromBE(vaa[1..5])) && EmitterOf(vaa) == GOVERNOR
       && |p| >= 67 && p[..32] == Zeros(21) + Ascii("TokenBridge")
       && (|| (p[32] == 1 && (p[33..35] == [0, 0] || p[33..35] == [0, 8]) && |p| >= 69 && p[35..37] !in st.chains)
           || (p[32] == 2 && p[33..35] == [0, 8]))
  }

  /** The registration or the hash it orders. */
  predicate BridgeOrders(st: BridgeState, p: bytes, r: BridgeState)
    requires |p| >= 67
  {
    if p[32] == 1 then |p| >= 69 && r == st.(cells := r.cells, chains := st.chains[p[35..37] := p[37..69]])
    else r == st.(cells := r.cells, updateHash := p[35..67])
  }

  lemma BridgeModule()
    ensures BRIDGE_MODULE == Zeros(21) + Ascii("TokenBridge")
    ensures [0, 1] + Core.GOVERNANCE_EMITTER == GOVERNOR
  {
    assert Ascii("TokenBridge") == [84, 111, 107, 101, 110, 66, 114, 105, 100, 103, 101];
  }

  lemma BridgeGovernanceFramed(env: Env, st: BridgeState, group: seq<Txn>, t: nat, out: Outside)
    requires t < |group| && Governance(env, st, group, t, out).Some?
    ensures |group[t].args| > 1 && Framed(group[t].args[1]) && |PayloadOf(group[t].args[1])| >= 67
  {
    hide Mark, VerifiesFor, FromBE;
  }

  /** A governance message of the bridge is carried out exactly under these conditions. */
  lemma BridgeGovernanceExactly(env: Env, st: BridgeState, group: seq<Txn>, t: nat, out: Outside)
    requires t < |group|
    ensures Governance(env, st, group, t, out).Some? <==> Fresh(env.at, st.cells, group[t]) && BridgeGoverns(env, st, group, t, out.guardianSet)
    ensures Fresh(env.at, st.cells, group[t]) && BridgeGoverns(env, st, group, t, out.guardianSet) ==>
      BridgeOrders(st, PayloadOf(group[t].args[1]), Governance(env, st, group, t, out).value.0)
  {
    hide Mark, Fresh, MessageOf, VerifiesFor, VerifiesSame, CommonChecks, FromBE, EmitterOf, PayloadOf, SequenceOf, Extract;
    var tx := group[t];
    if Governance(env, st, group, t, out).Some? { BridgeGovernanceFramed(env, st, group, t, out); }
    FreshIs(env.at, st.cells, tx);
    if |tx.args| > 1 && Framed(tx.args[1]) && |tx.accounts| > 0 && t > 0 {
      var vaa := tx.args[1];
      var p := PayloadOf(vaa);
      FramedMessage(vaa);
      MarkExactly(env.at, st.cells, tx);
      VerifiesExactly(env, group[t - 1], tx);
      PlainExactly(tx);
      BridgeModule();
      BridgeNames();
      PayloadLen(vaa);
      OrderAt(vaa);
    }
  }

  /** The fields of an order. */
  lemma OrderAt(vaa: bytes)
    requires Framed(vaa)
    ensures
      var off, p := 66 * SigCount(vaa) + 14, PayloadOf(vaa);
      && Extract(vaa, off + 43, 32) == (if |p| >= 32 then Some(p[..32]) else None)
      && ReadInt(vaa, off + 75, 1) == (if |p| >= 33 then Some(p[32]) else None)
      && Extract(vaa, off + 76, 2) == (if |p| >= 35 then Some(p[33..35]) else None)
      && Extract(vaa, off + 78, 2) == (if |p| >= 37 then Some(p[35..37]) else None)
      && Extract(vaa, off + 78, 32) == (if |p| >= 67 then Some(p[35..67]) else None)
      && Extract(vaa, off + 80, 32) == (if |p| >= 69 then Some(p[37..69]) else None)
  {
    hide FromBE, PayloadOf, SigCount;
    PayloadAt(vaa, 0, 32);
    IntAt(vaa, 32, 1);
    PayloadAt(vaa, 33, 2);
    PayloadAt(vaa, 35, 2);
    PayloadAt(vaa, 35, 32);
    PayloadAt(vaa, 37, 32);
  }

  // ---------- every call ----------

  predicate OptsIn(env: Env, tx: Txn) {
    && |tx.args| > 1 && |tx.args[1]| <= 8 && |tx.accounts| > 0 && Plain(tx)
    && tx.accounts[0] == env.at(FromBE(tx.args[1]), Ascii("native"))
  }

  predicate BridgeJoins(env: Env, st: BridgeState, group: seq<Txn>, t: nat)
    requires t < |group|
  {
    && t > 0 && group[t - 1].kind == Payment && group[t - 1].amount == env.seed && group[t - 1].receiver == group[t].sender
    && group[t].rekeyTo == env.app.address && |group[t].args| == 0 && group[t].sender !in st.cells
  }

  /** What the bridge lets through of the calls made to it. */
  predicate BridgeTakes(env: Env, st: BridgeState, group: seq<Txn>, t: nat, out: Outside)
    requires t < |group|
  {
    var tx := group[t];
    if tx.onCompletion == OptIn then BridgeJoins(env, st, group, t)
    else
      && tx.onCompletion == NoOp && |tx.args| > 0
      && (|| tx.args[0] == Ascii("nop")
          || (tx.args[0] == Ascii("attestToken") && out.published)
          || (tx.args[0] == Ascii("receiveAttest") && Attests(env, st, group, t, out.newAsset))
          || (tx.args[0] == Ascii("completeTransfer") && CompleteTransfer(env, st, group, t, out).Some?)
          || (tx.args[0] == Ascii("sendTransfer") && Sends(env, st, group, t, out))
          || (tx.args[0] == Ascii("optin") && OptsIn(env, tx))
          || (tx.args[0] == Ascii("governance") && Fresh(env.at, st.cells, tx) && BridgeGoverns(env, st, group, t, out.guardianSet)))
  }

  lemma OptInExactly(env: Env, st: BridgeState, tx: Txn)
    ensures OptInAsset(env, st, tx).Some? <==> OptsIn(env, tx)
  {
    hide FromBE;
    BridgeNames();
  }

  /** Exactly which calls the bridge accepts; what a release needs besides being releasable is
      said by `CompleteExactly`. */
  lemma BridgeCallExactly(env: Env, st: BridgeState, group: seq<Txn>, t: nat, out: Outside)
    requires t < |group| && Injective(env.at) && group[t].kind == ApplicationCall && group[t].appId == env.app.id
    ensures Execute(env, st, group, t, out).Some? <==> BridgeTakes(env, st, group, t, out)
  {
    hide ReceiveAttest, Attests, CompleteTransfer, SendTransfer, Sends, Governance, BridgeGoverns, Fresh, Injective, OptsIn;
    Names();
    BridgeNames();
    AttestExactly(env, st, group, t, out);
    SendExactly(env, st, group, t, out);
    OptInExactly(env, st, group[t]);
    BridgeGovernanceExactly(env, st, group, t, out);
  }

  /** An account that opts in is blank at first, and three methods leave everything as it is. */
  lemma QuietCalls(env: Env, st: BridgeState, group: seq<Txn>, t: nat, out: Outside, r: (BridgeState, seq<Entry>))
    requires t < |group| && group[t].kind == ApplicationCall && group[t].appId == env.app.id && Execute(env, st, group, t, out) == Some(r)
    ensures group[t].onCompletion == OptIn ==> r == (st.(cells := st.cells[group[t].sender := Cell(Zeros(1905), None)]), [])
    ensures group[t].onCompletion == NoOp ==> |group[t].args| > 0
    ensures group[t].onCompletion == NoOp && group[t].args[0] in {Ascii("nop"), Ascii("attestToken"), Ascii("optin")} ==> r == (st, [])
  {
    hide ReceiveAttest, CompleteTransfer, SendTransfer, Governance;
    Names();
    BridgeNames();
  }
}
