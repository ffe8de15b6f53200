/** Native custody: over every run, as long as other chains send back no more than is
    outstanding, the account that holds a native asset covers everything outstanding. */
module BridgeCustody {
  import opened Teal
  import opened Transactions
  import opened Template
  import opened LocalBlob
  import opened Replay
  import opened TokenBridge
  import opened BridgeTransfers
  import opened BridgeLedger
  import opened StorageSig

  /** The normalised units of a native asset sent out and not yet released. */
  function Outstanding(trace: seq<Entry>, aid: uint64): int {
    if trace == [] then 0
    else Outstanding(trace[..|trace| - 1], aid) + Change(trace[|trace| - 1], aid)
  }

  function Minus(n: int): int { -n }

  function Change(e: Entry, aid: uint64): int {
    match e
    case Sent(asset, native, _, amount, _, _) => if native && asset == aid then amount else 0
    case Released(_, originChain, asset, amount, _) => if originChain == 8 && asset == aid then Minus(amount) else 0
    case _ => 0
  }

  /** No release asks for more than is outstanding at that point. */
  ghost predicate RemoteHonest(trace: seq<Entry>) {
    forall i | 0 <= i < |trace| && trace[i].Released? && trace[i].originChain == 8 ::
      trace[i].amount <= Outstanding(trace[..i], trace[i].asset)
  }

  function Custody(env: Env, l: Ledger, aid: uint64): uint64 {
    Balance(l, env.at(aid, NATIVE), aid)
  }

  /** No transaction spends from a storage account. */
  ghost predicate OwnFunds(env: Env, group: seq<Txn>) {
    forall i | 0 <= i < |group| :: SpendsOwn(env, group[i])
  }

  /** What the transaction just executed put into custody; a `sendTransfer` that follows may
      count it, once. */
  function Pending(env: Env, group: seq<Txn>, t: nat, aid: uint64): uint64
    requires t <= |group|
  {
    if t == 0 then 0
    else
      var d := group[t - 1];
      if d.kind == (if aid == 0 then Payment else AssetTransfer) && (aid != 0 ==> d.asset == aid) && d.receiver == env.at(aid, NATIVE)
      then d.amount else 0
  }

  ghost predicate Covered(env: Env, l: Ledger, trace: seq<Entry>, aid: uint64, pending: nat) {
    && Outstanding(trace, aid) >= 0
    && (FactorOf(env, aid).Some? ==> Custody(env, l, aid) >= FactorOf(env, aid).value * Outstanding(trace, aid) + pending)
  }

  lemma OutstandingOne(trace: seq<Entry>, e: Entry, aid: uint64)
    ensures Outstanding(trace + [e], aid) == Outstanding(trace, aid) + Change(e, aid)
  {
    assert (trace + [e])[..|trace|] == trace;
  }

  lemma {:induction false} OutstandingSame(trace: seq<Entry>, more: seq<Entry>, aid: uint64)
    requires forall i | 0 <= i < |more| :: Change(more[i], aid) == 0
    ensures Outstanding(trace + more, aid) == Outstanding(trace, aid)
  {
    if more == [] {
      assert trace + more == trace;
    } else {
      OutstandingSame(trace, more[..|more| - 1], aid);
      OutstandingOne(trace + more[..|more| - 1], more[|more| - 1], aid);
      assert trace + more[..|more| - 1] + [more[|more| - 1]] == trace + more;
    }
  }

  // ---------- money moves ----------

  /** What an account named `who` gets of `n`. */
  function Part(acct: bytes, who: bytes, n: int): int {
    if acct == who then n else 0
  }

  /** A move gives to the receiver what it takes from the source, also when they are the same,
      and touches nothing else. */
  lemma MoveExact(l: Ledger, from: bytes, to: bytes, asset: uint64, amount: uint64, l': Ledger, acct: bytes, x: uint64)
    requires Move(l, from, to, asset, amount) == Some(l')
    ensures Balance(l', acct, x) == Balance(l, acct, x) + if x == asset then Part(acct, to, amount) - Part(acct, from, amount) else 0
  {
  }

  lemma TwoMoves(l: Ledger, from: bytes, to: bytes, relayer: bytes, asset: uint64, a: uint64, b: uint64, paid: Ledger, l': Ledger, acct: bytes, x: uint64)
    requires Move(l, from, to, asset, a) == Some(paid)
    requires Move(paid, from, relayer, asset, b) == Some(l') || (b == 0 && l' == paid)
    ensures Balance(l', acct, x) == Balance(l, acct, x) + if x == asset then
      Part(acct, to, a) + Part(acct, relayer, b) - Part(acct, from, a + b) else 0
  {
    hide Move, Balance;
    MoveExact(l, from, to, asset, a, paid, acct, x);
    if Move(paid, from, relayer, asset, b) == Some(l') {
      MoveExact(paid, from, relayer, asset, b, l', acct, x);
    }
  }

  lemma PayOutMoves(l: Ledger, from: bytes, to: bytes, relayer: bytes, asset: uint64, factor: uint64, amount: uint64, fee: uint64, l': Ledger)
    returns (a: uint64, b: uint64, paid: Ledger)
    requires fee <= amount && PayOut(l, from, to, relayer, asset, factor, amount, fee) == Some(l')
    ensures a == (amount - fee) * factor && b == fee * factor && a + b == amount * factor
    ensures Move(l, from, to, asset, a) == Some(paid)
    ensures Move(paid, from, relayer, asset, b) == Some(l') || (b == 0 && l' == paid)
  {
    hide Move;
    PaysInFull(amount, fee, factor);
    var due, cut: int := (amount - fee) * factor, fee * factor;
    assert due >= 0 && cut >= 0 && (fee == 0 ==> cut == 0);
    a, b := due, cut;
    paid := Move(l, from, to, asset, a).value;
  }

  /** Every balance after a release, whoever the three parties are. */
  lemma PayOutExact(l: Ledger, from: bytes, to: bytes, relayer: bytes, asset: uint64, factor: uint64, amount: uint64, fee: uint64, l': Ledger, acct: bytes, x: uint64)
    requires fee <= amount && PayOut(l, from, to, relayer, asset, factor, amount, fee) == Some(l')
    ensures Balance(l', acct, x) == Balance(l, acct, x) + if x == asset then
      Part(acct, to, (amount - fee) * factor) + Part(acct, relayer, fee * factor) - Part(acct, from, amount * factor) else 0
  {
    hide Move, Balance, PayOut, Part;
    var a, b, paid := PayOutMoves(l, from, to, relayer, asset, factor, amount, fee, l');
    TwoMoves(l, from, to, relayer, asset, a, b, paid, l', acct, x);
  }

  /** A release takes at most its amount, and only from its source. */
  lemma PayOutKeeps(l: Ledger, from: bytes, to: bytes, relayer: bytes, asset: uint64, factor: uint64, amount: uint64, fee: uint64, l': Ledger, acct: bytes, x: uint64)
    requires fee <= amount && PayOut(l, from, to, relayer, asset, factor, amount, fee) == Some(l')
    ensures Balance(l', acct, x) >= Balance(l, acct, x) - (if acct == from && x == asset then amount * factor else 0)
  {
    hide Move, Balance, PayOut;
    var a, b, paid := PayOutMoves(l, from, to, relayer, asset, factor, amount, fee, l');
    TwoMoves(l, from, to, relayer, asset, a, b, paid, l', acct, x);
  }

  // ---------- steps ----------

  lemma DepositStep(env: Env, st: BridgeState, trace: seq<Entry>, group: seq<Txn>, t: nat, r: (BridgeState, seq<Entry>), aid: uint64, pending: nat)
    requires t < |group| && SpendsOwn(env, group[t]) && Covered(env, st.ledger, trace, aid, pending)
    requires
      var tx := group[t];
      var asset := if tx.kind == Payment then 0 else tx.asset;
      && (tx.kind == Payment || (tx.kind == AssetTransfer && tx.asset != 0))
      && Move(st.ledger, tx.sender, tx.receiver, asset, tx.amount) == Some(r.0.ledger) && r.1 == []
    ensures Covered(env, r.0.ledger, trace + r.1, aid, Pending(env, group, t + 1, aid))
  {
    var tx := group[t];
    var asset := if tx.kind == Payment then 0 else tx.asset;
    assert tx.sender != env.at(aid, NATIVE);
    MoveExact(st.ledger, tx.sender, tx.receiver, asset, tx.amount, r.0.ledger, env.at(aid, NATIVE), aid);
    assert trace + [] == trace;
  }

  /** A counted deposit is the transaction in front, into this asset's account. */
  lemma CountedDeposit(env: Env, st: BridgeState, wrapped: bool, group: seq<Txn>, t: nat, s: Sending, aid: uint64)
    requires 0 < t < |group| && |group[t].args| > 1 && group[t].Account(2).Some?
    requires Deposit(group, t, aid, group[t].Account(2).value) == Some(s.deposit)
    requires Token(env, st.cells, wrapped, aid, group[t].args[1], group[t].Account(2).value).Some? && !(aid != 0 && wrapped)
    ensures Pending(env, group, t, aid) == s.deposit
  {
    hide CommonChecks;
  }

  lemma CoverSent(c: int, f: int, o: int, p: int, a: int)
    requires c >= f * o + p && a * f <= p
    ensures c >= f * (o + a)
  {
    assert f * (o + a) == f * o + a * f;
  }

  lemma CoverReleased(c: int, f: int, o: int, a: int, c': int)
    requires c >= f * o && c' >= c - a * f
    ensures c' >= f * (o - a)
  {
    assert f * (o - a) == f * o - a * f;
  }

  lemma SendStep(env: Env, st: BridgeState, trace: seq<Entry>, group: seq<Txn>, t: nat, out: Outside, r: (BridgeState, seq<Entry>), aid: uint64)
    requires t < |group| && group[t].kind == ApplicationCall && Covered(env, st.ledger, trace, aid, Pending(env, group, t, aid))
    requires SendTransfer(env, st, group, t, out) == Some(r)
    ensures Covered(env, r.0.ledger, trace + r.1, aid, Pending(env, group, t + 1, aid))
  {
    hide SendTransfer, Payload, FactorOf, Deposit, Token, Locked, Custody, Outstanding;
    var s := SendParts(env, st, group, t, out, r);
    OutstandingOne(trace, r.1[0], aid);
    NothingPending(env, group, t, aid);
    if s.aid == aid && !(aid != 0 && out.wrapped) {
      Dust(s.deposit, s.factor);
      CountedDeposit(env, st, out.wrapped, group, t, s, aid);
      CoverSent(Custody(env, st.ledger, aid), s.factor, Outstanding(trace, aid), s.deposit, Locked(s.deposit, s.factor));
    }
  }

  lemma NothingPending(env: Env, group: seq<Txn>, t: nat, aid: uint64)
    requires t < |group| && group[t].kind == ApplicationCall
    ensures Pending(env, group, t + 1, aid) == 0
  {
  }

  lemma {:induction false} HonestPrefix(trace: seq<Entry>, k: nat)
    requires RemoteHonest(trace) && k <= |trace|
    ensures RemoteHonest(trace[..k])
  {
    forall i | 0 <= i < k && trace[..k][i].Released? && trace[..k][i].originChain == 8
      ensures trace[..k][i].amount <= Outstanding(trace[..k][..i], trace[..k][i].asset)
    {
      assert trace[..k][..i] == trace[..i];
    }
  }

  /** The application a transfer with payload is for. */
  function AppId(m: Transfer): uint64
    requires |m.destination| == 32
  {
    FromBEBound(m.destination[24..32]);
    FromBE(m.destination[24..32])
  }

  /** Whom a checked release pays, and from where. */
  lemma CheckedParts(env: Env, st: BridgeState, group: seq<Txn>, t: nat, c: Release)
    requires t < |group| && CheckRelease(env, st, group, t) == Some(c)
    ensures c.m.destChain == 8 && group[t].Account(3) == Some(c.from)
    ensures c.m.originChain == 8 ==> c.from == env.at(c.asset, NATIVE) && FactorOf(env, c.asset) == Some(c.factor)
    ensures c.m.originChain != 8 ==> c.from == env.at(c.m.originChain, c.m.origin) && c.factor == 1
    ensures c.m.action == 1 || c.m.action == 3
    ensures c.m.action == 1 ==> c.to == c.m.destination
    ensures c.m.action == 3 ==> env.appAddress(AppId(c.m)) == Some(c.to)
    ensures |group[t].args| > 1 && MessageOf(group[t].args[1]) == Some(c.msg) && |group[t].args[1]| > 5
    ensures ReadTransfer(group[t].args[1], group[t].args[1][5] as nat * 66 + 57) == Some(c.m)
  {
    hide Mark, KnownEmitter, VerifiesFor, Receiver, FactorOf, Btoi;
    ReceiverIs(env, group, t, group[t].args[1], c.m);
  }

  /** The parts of an accepted `completeTransfer` that concern money. */
  lemma CompleteParts(env: Env, st: BridgeState, group: seq<Txn>, t: nat, out: Outside, r: (BridgeState, seq<Entry>)) returns (c: Release)
    requires t < |group| && CompleteTransfer(env, st, group, t, out) == Some(r)
    ensures CheckRelease(env, st, group, t) == Some(c)
    ensures PayOut(st.ledger, c.from, c.to, group[t].sender, c.asset, c.factor, c.m.amount, c.m.fee) == Some(r.0.ledger)
    ensures r.1 == [Received(c.msg), Released(c.m.origin, c.m.originChain, c.asset, c.m.amount, c.m.fee)]
  {
    hide PayOut, CheckRelease;
    c := CheckRelease(env, st, group, t).value;
  }

  lemma ReceiverIs(env: Env, group: seq<Txn>, t: nat, vaa: bytes, m: Transfer)
    requires t < |group| && |m.destination| == 32 && (m.action == 1 || m.action == 3) && Receiver(env, group, t, vaa, m).Some?
    ensures m.action == 1 ==> Receiver(env, group, t, vaa, m) == Some(m.destination)
    ensures m.action == 3 ==> Receiver(env, group, t, vaa, m) == env.appAddress(AppId(m))
  {
  }

  /** What an accepted release pays: the message's receiver gets the amount less the fee and
      the caller the fee, both times the factor, and the account they come from, the one of
      the token named, loses exactly their sum; every other balance stays. One who plays two
      parts, such as a receiver who redeems for itself, gets both. */
  lemma ReleasePays(env: Env, st: BridgeState, group: seq<Txn>, t: nat, out: Outside, r: (BridgeState, seq<Entry>)) returns (c: Release)
    requires t < |group| && CompleteTransfer(env, st, group, t, out) == Some(r)
    ensures |group[t].args| > 1 && |group[t].args[1]| > 5
    ensures ReadTransfer(group[t].args[1], group[t].args[1][5] as nat * 66 + 57) == Some(c.m)
    ensures |c.m.destination| == 32 && c.m.fee <= c.m.amount
    ensures c.m.action == 1 ==> c.to == c.m.destination
    ensures c.m.action == 3 ==> env.appAddress(AppId(c.m)) == Some(c.to)
    ensures c.m.originChain == 8 ==> c.from == env.at(c.asset, NATIVE) && FactorOf(env, c.asset) == Some(c.factor)
    ensures c.m.originChain != 8 ==> c.from == env.at(c.m.originChain, c.m.origin) && c.factor == 1
    ensures forall acct: bytes, x: uint64 ::
      Balance(r.0.ledger, acct, x) == Balance(st.ledger, acct, x) + if x == c.asset then
        Part(acct, c.to, (c.m.amount - c.m.fee) * c.factor) + Part(acct, group[t].sender, c.m.fee * c.factor) - Part(acct, c.from, c.m.amount * c.factor) else 0
  {
    hide CompleteTransfer, CheckRelease, PayOut, ReadTransfer, MessageOf, FactorOf, Balance;
    c := CompleteParts(env, st, group, t, out, r);
    CheckedParts(env, st, group, t, c);
    forall acct: bytes, x: uint64
      ensures Balance(r.0.ledger, acct, x) == Balance(st.ledger, acct, x) + if x == c.asset then
        Part(acct, c.to, (c.m.amount - c.m.fee) * c.factor) + Part(acct, group[t].sender, c.m.fee * c.factor) - Part(acct, c.from, c.m.amount * c.factor) else 0
    {
      PayOutExact(st.ledger, c.from, c.to, group[t].sender, c.asset, c.factor, c.m.amount, c.m.fee, r.0.ledger, acct, x);
    }
  }

  lemma CompleteStep(env: Env, st: BridgeState, trace: seq<Entry>, group: seq<Txn>, t: nat, out: Outside, r: (BridgeState, seq<Entry>), aid: uint64, pending: nat)
    requires Injective(env.at) && t < |group| && group[t].kind == ApplicationCall
    requires Covered(env, st.ledger, trace, aid, pending) && RemoteHonest(trace + r.1)
    requires CompleteTransfer(env, st, group, t, out) == Some(r)
    ensures Covered(env, r.0.ledger, trace + r.1, aid, Pending(env, group, t + 1, aid))
  {
    hide CompleteTransfer, CheckRelease, PayOut, ReadTransfer, MessageOf, FactorOf, Outstanding, Balance, Injective;
    var c := CompleteParts(env, st, group, t, out, r);
    CheckedParts(env, st, group, t, c);
    NothingPending(env, group, t, aid);
    ReleasedChange(trace, c.msg, r.1, c.m, c.asset, aid);
    PayOutKeeps(st.ledger, c.from, c.to, group[t].sender, c.asset, c.factor, c.m.amount, c.m.fee, r.0.ledger, env.at(aid, NATIVE), aid);
    if c.m.originChain == 8 && c.asset == aid {
      CoverReleased(Custody(env, st.ledger, aid), c.factor, Outstanding(trace, aid), c.m.amount, Custody(env, r.0.ledger, aid));
    } else {
      OtherAccount(env, c.m.originChain, c.m.origin, c.asset, aid);
    }
  }

  lemma OtherAccount(env: Env, chain: nat, origin: bytes, asset: uint64, aid: uint64)
    requires Injective(env.at) && |origin| == 32
    ensures env.at(chain, origin) != env.at(aid, NATIVE)
    ensures asset != aid ==> env.at(asset, NATIVE) != env.at(aid, NATIVE)
  {
  }

  /** What a release does to the count, and what honesty says of it. */
  lemma ReleasedChange(trace: seq<Entry>, msg: Message, more: seq<Entry>, m: Transfer, asset: uint64, aid: uint64)
    requires more == [Received(msg), Released(m.origin, m.originChain, asset, m.amount, m.fee)]
    requires RemoteHonest(trace + more)
    ensures Outstanding(trace + more, aid) == Outstanding(trace, aid) - (if m.originChain == 8 && asset == aid then m.amount else 0)
    ensures m.originChain == 8 ==> m.amount <= Outstanding(trace, asset)
  {
    hide Outstanding;
    var e, i := more[1], |trace| + 1;
    assert trace + more == trace + [Received(msg)] + [e];
    OutstandingOne(trace, Received(msg), aid);
    OutstandingOne(trace + [Received(msg)], e, aid);
    OutstandingOne(trace, Received(msg), asset);
    assert (trace + more)[i] == e && (trace + more)[..i] == trace + [Received(msg)];
  }

  /** Calls other than the two transfers neither count nor touch a custody account. */
  lemma OtherStep(env: Env, st: BridgeState, trace: seq<Entry>, group: seq<Txn>, t: nat, r: (BridgeState, seq<Entry>), aid: uint64, pending: nat)
    requires t < |group| && group[t].kind != Payment && group[t].kind != AssetTransfer && Covered(env, st.ledger, trace, aid, pending)
    requires Custody(env, r.0.ledger, aid) == Custody(env, st.ledger, aid)
    requires forall i | 0 <= i < |r.1| :: r.1[i].Received? || r.1[i].Created?
    ensures Covered(env, r.0.ledger, trace + r.1, aid, Pending(env, group, t + 1, aid))
  {
    hide Custody;
    OutstandingSame(trace, r.1, aid);
  }

  /** A new asset's supply goes to the account of its token, which is no custody account. */
  lemma QuietCalls(env: Env, st: BridgeState, group: seq<Txn>, t: nat, out: Outside, r: (BridgeState, seq<Entry>), aid: uint64)
    requires Injective(env.at) && t < |group| && Router(env, st, group, t, out) == Some(r)
    requires group[t].Arg(0) != Some(SEND_TRANSFER) && group[t].Arg(0) != Some(COMPLETE_TRANSFER)
    ensures Custody(env, r.0.ledger, aid) == Custody(env, st.ledger, aid)
    ensures forall i | 0 <= i < |r.1| :: r.1[i].Received? || r.1[i].Created?
  {
    hide SendTransfer, CompleteTransfer, ReceiveAttest, Mark, MessageOf, VerifiesFor, Custody, Injective;
    if group[t].Arg(0) == Some(RECEIVE_ATTEST) {
      AttestQuiet(env, st, group, t, out, r, aid);
    }
  }

  lemma AttestQuiet(env: Env, st: BridgeState, group: seq<Txn>, t: nat, out: Outside, r: (BridgeState, seq<Entry>), aid: uint64)
    requires Injective(env.at) && t < |group| && ReceiveAttest(env, st, group, t, out) == Some(r)
    ensures Custody(env, r.0.ledger, aid) == Custody(env, st.ledger, aid)
    ensures forall i | 0 <= i < |r.1| :: r.1[i].Received? || r.1[i].Created?
  {
    hide Mark, FromBE, ReadAttestation, Attest, AttestGroup, Injective;
    var vaa := group[t].args[1];
    var a := ReadAttestation(vaa, vaa[5] as nat * 66 + 57).value;
    AddressLength(vaa, vaa[5] as nat * 66 + 57, a);
    OtherAccount(env, a.chain, a.address, aid, aid);
  }

  lemma AddressLength(vaa: bytes, off: nat, a: Attestation)
    requires ReadAttestation(vaa, off) == Some(a)
    ensures |a.address| == 32
  {
  }

  lemma ExecuteStep(env: Env, st: BridgeState, trace: seq<Entry>, group: seq<Txn>, t: nat, out: Outside, r: (BridgeState, seq<Entry>), aid: uint64)
    requires Injective(env.at) && t < |group| && SpendsOwn(env, group[t])
    requires Covered(env, st.ledger, trace, aid, Pending(env, group, t, aid)) && RemoteHonest(trace + r.1)
    requires Execute(env, st, group, t, out) == Some(r)
    ensures Covered(env, r.0.ledger, trace + r.1, aid, Pending(env, group, t + 1, aid))
  {
    hide Injective, Covered, SendTransfer, CompleteTransfer, Router, RemoteHonest;
    var tx := group[t];
    if tx.kind == Payment || tx.kind == AssetTransfer {
      DepositStep(env, st, trace, group, t, r, aid, Pending(env, group, t, aid));
    } else if tx.Calls(env.app.id) && tx.onCompletion == NoOp {
      RouterStep(env, st, trace, group, t, out, r, aid);
    } else {
      OtherStep(env, st, trace, group, t, r, aid, Pending(env, group, t, aid));
    }
  }

  lemma RouterStep(env: Env, st: BridgeState, trace: seq<Entry>, group: seq<Txn>, t: nat, out: Outside, r: (BridgeState, seq<Entry>), aid: uint64)
    requires Injective(env.at) && t < |group| && group[t].kind == ApplicationCall
    requires Covered(env, st.ledger, trace, aid, Pending(env, group, t, aid)) && RemoteHonest(trace + r.1)
    requires Router(env, st, group, t, out) == Some(r)
    ensures Covered(env, r.0.ledger, trace + r.1, aid, Pending(env, group, t + 1, aid))
  {
    if group[t].Arg(0) == Some(SEND_TRANSFER) {
      RouterSend(env, st, group, t, out);
      hide *;
      SendStep(env, st, trace, group, t, out, r, aid);
    } else if group[t].Arg(0) == Some(COMPLETE_TRANSFER) {
      RouterComplete(env, st, group, t, out);
      hide *;
      CompleteStep(env, st, trace, group, t, out, r, aid, Pending(env, group, t, aid));
    } else {
      hide *;
      QuietCalls(env, st, group, t, out, r, aid);
      OtherStep(env, st, trace, group, t, r, aid, Pending(env, group, t, aid));
    }
  }

  lemma RouterSend(env: Env, st: BridgeState, group: seq<Txn>, t: nat, out: Outside)
    requires t < |group| && group[t].Arg(0) == Some(SEND_TRANSFER)
    ensures Router(env, st, group, t, out) == SendTransfer(env, st, group, t, out)
  {
    hide SendTransfer, CompleteTransfer, ReceiveAttest, Governance;
  }

  lemma RouterComplete(env: Env, st: BridgeState, group: seq<Txn>, t: nat, out: Outside)
    requires t < |group| && group[t].Arg(0) == Some(COMPLETE_TRANSFER)
    ensures Router(env, st, group, t, out) == CompleteTransfer(env, st, group, t, out)
  {
    hide SendTransfer, CompleteTransfer, ReceiveAttest, Governance;
  }

  // ---------- runs ----------

  lemma {:induction false} AfterCovered(env: Env, st: BridgeState, trace: seq<Entry>, b: Block, k: nat, aid: uint64)
    requires Injective(env.at) && OwnFunds(env, b.group) && k <= |b.group| && After(env, st, b, k).Some?
    requires Covered(env, st.ledger, trace, aid, 0) && RemoteHonest(trace + After(env, st, b, k).value.1)
    ensures Covered(env, After(env, st, b, k).value.0.ledger, trace + After(env, st, b, k).value.1, aid, Pending(env, b.group, k, aid))
  {
    hide Injective, Covered, Execute, RemoteHonest, SpendsOwn;
    if k == 0 {
      assert trace + [] == trace;
    } else {
      var before := After(env, st, b, k - 1).value;
      var step := Execute(env, before.0, b.group, k - 1, b.outside(k - 1)).value;
      assert trace + before.1 + step.1 == trace + (before.1 + step.1);
      HonestPrefix(trace + (before.1 + step.1), |trace + before.1|);
      assert (trace + (before.1 + step.1))[..|trace + before.1|] == trace + before.1;
      AfterCovered(env, st, trace, b, k - 1, aid);
      ExecuteStep(env, before.0, trace + before.1, b.group, k - 1, b.outside(k - 1), step, aid);
    }
  }

  lemma DropPending(env: Env, l: Ledger, trace: seq<Entry>, aid: uint64, pending: nat)
    requires Covered(env, l, trace, aid, pending)
    ensures Covered(env, l, trace, aid, 0)
  {
  }

  lemma SubmitCovered(env: Env, st: BridgeState, trace: seq<Entry>, b: Block, aid: uint64)
    requires Injective(env.at) && (Commits(env, st, b) ==> OwnFunds(env, b.group)) && Covered(env, st.ledger, trace, aid, 0)
    requires RemoteHonest(trace + Submit(env, st, b).1)
    ensures Covered(env, Submit(env, st, b).0.ledger, trace + Submit(env, st, b).1, aid, 0)
  {
    hide Injective, Covered, After, RemoteHonest, OwnFunds;
    if Commits(env, st, b) {
      AfterCovered(env, st, trace, b, |b.group|, aid);
      var r := After(env, st, b, |b.group|).value;
      DropPending(env, r.0.ledger, trace + r.1, aid, Pending(env, b.group, |b.group|, aid));
    } else {
      assert trace + [] == trace;
    }
  }

  /** Committed groups spend from no storage account, which `StorageSig` proves of groups
      that are signed. */
  ghost predicate OwnFundsRun(env: Env, ledger: Ledger, blocks: seq<Block>) {
    forall i: nat | Committed(env, ledger, blocks, i) :: OwnFunds(env, blocks[i].group)
  }

  lemma SignedOwnFunds(env: Env, ledger: Ledger, signers: Signers, blocks: seq<Block>)
    requires Held(env, signers) && SignedRun(env, ledger, signers, blocks)
    ensures OwnFundsRun(env, ledger, blocks)
  {
    hide Held, SignedRun, SpendsOwn, Commits;
    forall i: nat | Committed(env, ledger, blocks, i) ensures OwnFunds(env, blocks[i].group) {
      forall t | 0 <= t < |blocks[i].group| ensures SpendsOwn(env, blocks[i].group[t]) {
        StorageIsSafe(env, ledger, signers, blocks, i, t);
      }
    }
  }

  lemma OwnFundsPrefix(env: Env, ledger: Ledger, blocks: seq<Block>, n: nat)
    requires OwnFundsRun(env, ledger, blocks) && n < |blocks|
    ensures OwnFundsRun(env, ledger, blocks[..n])
    ensures Commits(env, Run(env, ledger, blocks[..n]).0, blocks[n]) ==> OwnFunds(env, blocks[n].group)
  {
    hide OwnFunds, Commits, Run;
    assert Commits(env, Run(env, ledger, blocks[..n]).0, blocks[n]) ==> Committed(env, ledger, blocks, n);
    forall i: nat | Committed(env, ledger, blocks[..n], i) ensures i < n && OwnFunds(env, blocks[..n][i].group) {
      assert blocks[..n][..i] == blocks[..i];
      assert Committed(env, ledger, blocks, i);
    }
  }

  lemma {:induction false} RunCovered(env: Env, ledger: Ledger, blocks: seq<Block>, aid: uint64)
    requires Injective(env.at) && OwnFundsRun(env, ledger, blocks)
    requires RemoteHonest(Run(env, ledger, blocks).1)
    ensures Covered(env, Run(env, ledger, blocks).0.ledger, Run(env, ledger, blocks).1, aid, 0)
  {
    hide Injective, Submit, RemoteHonest, OwnFunds, OwnFundsRun, Commits;
    if blocks == [] {
      assert Outstanding([], aid) == 0;
    } else {
      hide Covered;
      var n := |blocks| - 1;
      var before := Run(env, ledger, blocks[..n]);
      var step := Submit(env, before.0, blocks[n]);
      HonestPrefix(before.1 + step.1, |before.1|);
      assert (before.1 + step.1)[..|before.1|] == before.1;
      OwnFundsPrefix(env, ledger, blocks, n);
      RunCovered(env, ledger, blocks[..n], aid);
      SubmitCovered(env, before.0, before.1, blocks[n], aid);
    }
  }

  /** Custody conservation: whatever happens in between, the account holding a native asset
      has at least the factor times what is outstanding. */
  lemma CustodyConserved(env: Env, ledger: Ledger, signers: Signers, blocks: seq<Block>, aid: uint64)
    requires env.at == LocatorOf(env.app) && Held(env, signers) && SignedRun(env, ledger, signers, blocks)
    requires RemoteHonest(Run(env, ledger, blocks).1) && FactorOf(env, aid).Some?
    ensures
      var st, trace := Run(env, ledger, blocks).0, Run(env, ledger, blocks).1;
      && Outstanding(trace, aid) >= 0
      && Custody(env, st.ledger, aid) >= FactorOf(env, aid).value * Outstanding(trace, aid)
  {
    LocatorInjective(env.app);
    hide Run, Custody, Outstanding, Injective, RemoteHonest, Held, SignedRun, OwnFundsRun;
    SignedOwnFunds(env, ledger, signers, blocks);
    RunCovered(env, ledger, blocks, aid);
  }

  /** With a total that fits a word, a checked release is accepted if and only if the account
      it is paid from has what the message is worth; the others' balances do not matter. */
  lemma FundedReleases(env: Env, st: BridgeState, group: seq<Txn>, t: nat, out: Outside, c: Release)
    requires t < |group| && CheckRelease(env, st, group, t) == Some(c) && Total(st.ledger, c.asset) < U64
    ensures c.m.amount * c.factor <= Balance(st.ledger, c.from, c.asset) ==> CompleteTransfer(env, st, group, t, out).Some?
    ensures c.from != c.to && CompleteTransfer(env, st, group, t, out).Some? ==> c.m.amount * c.factor <= Balance(st.ledger, c.from, c.asset)
  {
    hide CheckRelease, PayOut, Total, Balance;
    PayOutFunded(st.ledger, c.from, c.to, group[t].sender, c.asset, c.factor, c.m.amount, c.m.fee);
  }

  /** Hence money never stands in the way of what other chains send back honestly: after any
      run, a message that passes the checks and returns no more of a native asset than is
      outstanding is released. */
  lemma ReturnsArePaid(env: Env, ledger: Ledger, signers: Signers, blocks: seq<Block>, group: seq<Txn>, t: nat, out: Outside, c: Release)
    requires env.at == LocatorOf(env.app) && Held(env, signers) && SignedRun(env, ledger, signers, blocks)
    requires RemoteHonest(Run(env, ledger, blocks).1)
    requires t < |group| && CheckRelease(env, Run(env, ledger, blocks).0, group, t) == Some(c)
    requires c.m.originChain == 8 && c.m.amount <= Outstanding(Run(env, ledger, blocks).1, c.asset)
    requires Total(ledger, c.asset) < U64 && NeverCreated(Run(env, ledger, blocks).1, c.asset)
    ensures CompleteTransfer(env, Run(env, ledger, blocks).0, group, t, out).Some?
  {
    hide Run, Outstanding, RemoteHonest, FactorOf, CheckRelease, CompleteTransfer, Balance, Total, NeverCreated, Held, SignedRun;
    var st, trace := Run(env, ledger, blocks).0, Run(env, ledger, blocks).1;
    CheckedParts(env, st, group, t, c);
    CustodyConserved(env, ledger, signers, blocks, c.asset);
    TotalConserved(env, ledger, blocks, c.asset);
    MulMonotone(c.m.amount, Outstanding(trace, c.asset), c.factor);
    FundedReleases(env, st, group, t, out, c);
  }

  lemma MulMonotone(a: nat, b: nat, f: nat)
    requires a <= b
    ensures a * f <= f * b
  {
    assert f * b == a * f + (b - a) * f;
  }
}
