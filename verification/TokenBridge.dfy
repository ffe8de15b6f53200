/** The token bridge as a function from state to state: deposits locked for transfers out,
    transfers in released or minted, attested assets recorded. Amounts on the wire are
    normalised to eight decimals. */
module TokenBridge {
  import opened Teal
  import opened Transactions
  import opened Template
  import opened LocalBlob
  import opened Replay
  import opened Accounts
  import Core

  // ---------- the ledger ----------

  /** What accounts hold of each asset; asset 0 is the native coin. */
  type Ledger = map<(bytes, uint64), uint64>

  function Balance(l: Ledger, acct: bytes, asset: uint64): uint64 {
    if (acct, asset) in l then l[(acct, asset)] else 0
  }

  function Move(l: Ledger, from: bytes, to: bytes, asset: uint64, amount: uint64): Option<Ledger> {
    var have := Balance(l, from, asset);
    :- Require(amount <= have);
    var debited := l[(from, asset) := have - amount];
    var has: int := Balance(debited, to, asset);
    :- Require(has + amount < U64);
    Some(debited[(to, asset) := has + amount])
  }

  // ---------- the bridge ----------

  /** What is fixed: the bridge's own application, the core contract's id, and what the ledger
      says of assets and applications. `appAddress` is unknown for ids that do not exist. */
  datatype Env = Env(
    at: Locator, app: App, coreId: uint64, seed: uint64, selector: bytes,
    decimals: uint64 -> byte, appAddress: uint64 -> Option<bytes>)

  /** What a call learns from outside: the core contract's globals (absent if it has none),
      whether its inner call to the core contract goes through, whether the bridge at that
      moment signs for the creator of the asset sent, and the id the ledger gives a new
      asset. */
  datatype Outside = Outside(guardianSet: Option<uint64>, messageFee: Option<uint64>, published: bool, wrapped: bool, newAsset: uint64)

  datatype BridgeState = BridgeState(chains: map<bytes, bytes>, updateHash: bytes, cells: Cells, ledger: Ledger)

  datatype Entry =
    | Received(msg: Message)
    | Created(id: uint64, chain: nat, address: bytes, name: bytes, symbol: bytes, decimals: nat)
    | Sent(asset: uint64, native: bool, deposit: uint64, amount: uint64, fee: uint64, payload: bytes)
    | Released(origin: bytes, originChain: nat, asset: uint64, amount: uint64, fee: uint64)

  type Step = Option<(BridgeState, seq<Entry>)>

  /** "native" */
  const NATIVE: bytes := [110, 97, 116, 105, 118, 101]

  /** "asset" */
  const ASSET: bytes := [97, 115, 115, 101, 116]

  const RECEIVE_ATTEST: bytes := Ascii("receiveAttest")
  const ATTEST_TOKEN: bytes := Ascii("attestToken")
  const COMPLETE_TRANSFER: bytes := Ascii("completeTransfer")
  const SEND_TRANSFER: bytes := Ascii("sendTransfer")
  const OPTIN: bytes := Ascii("optin")

  const ZEROS_24: bytes := Zeros(24)

  /** How many of an asset's own units make one unit of the eighth decimal, which is what the
      bridge counts; assets of fewer decimals are counted as they are. 19 decimals is the most
      the ledger allows. */
  function Factor(dec: nat): (r: Option<uint64>)
    ensures r.Some? <==> dec <= 19
    ensures dec <= 8 ==> r == Some(1)
    ensures 8 <= dec <= 19 ==> r.Some? && r.value == Pow(10, dec - 8) && r.value * 100_000_000 == Pow(10, dec)
    ensures r.Some? ==> 1 <= r.value <= 100_000_000_000
  {
    assert Pow(10, 4) == 10_000 && Pow(10, 8) == 100_000_000;
    if dec < 9 then Some(1)
    else if dec > 19 then None
    else
      PowTen(dec - 8);
      PowTenSplit(dec - 8, 8);
      Some(Pow(10, dec - 8))
  }

  lemma {:induction false} PowTenSplit(j: nat, k: nat)
    ensures Pow(10, j) * Pow(10, k) == Pow(10, j + k)
  {
    if k > 0 { PowTenSplit(j, k - 1); }
  }

  lemma PowTen(k: nat)
    requires k <= 11
    ensures 1 <= Pow(10, k) <= 100_000_000_000
  {
    assert Pow(10, 4) == 10_000 && Pow(10, 8) == 100_000_000 && Pow(10, 11) == 100_000_000_000;
    PowTenGrows(k, 11);
  }

  lemma PowTenGrows(j: nat, k: nat)
    requires j <= k
    ensures 1 <= Pow(10, j) <= Pow(10, k)
  {
  }

  predicate CommonChecks(t: Txn) {
    t.rekeyTo == ZERO_ADDRESS && t.closeTo == ZERO_ADDRESS && t.assetCloseTo == ZERO_ADDRESS && t.onCompletion == NoOp
  }

  /** A call of the core contract's `verifyVAA` on the same message, by the same sender, with
      the same first accounts. */
  predicate VerifiesFor(env: Env, v: Txn, tx: Txn) {
    && v.Calls(env.coreId) && v.Arg(0) == Some(VERIFY_VAA) && v.sender == tx.sender && v.onCompletion == NoOp
    && v.Arg(1) == tx.Arg(1)
    && v.Account(1) == tx.Account(1) && v.Account(2) == tx.Account(2) && tx.Account(2).Some?
    && CommonChecks(v)
  }

  /** When the core contract charges, the payment stands `back` places in front. */
  predicate FeePaid(env: Env, group: seq<Txn>, t: nat, back: nat, fee: uint64)
    requires t < |group|
  {
    fee > 0 ==>
      && t >= back
      && var pmt := group[t - back];
         && pmt.kind == Payment && pmt.sender == group[t].sender && pmt.receiver == env.app.address
         && pmt.amount >= fee && CommonChecks(pmt)
  }

  /** `trim_bytes`: up to the first zero byte. */
  function TrimBytes(s: bytes): bytes {
    if s == [] || s[0] == 0 then [] else [s[0]] + TrimBytes(s[1..])
  }

  // ---------- sendTransfer ----------

  /** What the transaction in front deposits, checked against the asset and account named. */
  function Deposit(group: seq<Txn>, t: nat, aid: uint64, acct: bytes): Option<uint64>
    requires t < |group|
  {
    var tx := group[t];
    :- Require(t > 0);
    var d := group[t - 1];
    :- Require(
      && d.kind == (if aid == 0 then Payment else AssetTransfer)
      && d.sender == tx.sender && d.receiver == acct
      && (aid != 0 ==> d.asset == aid)
      && CommonChecks(d));
    Some(d.amount)
  }

  /** The divisor for an asset: the native coin needs none. */
  function FactorOf(env: Env, aid: uint64): (r: Option<uint64>)
    ensures r.Some? ==> 1 <= r.value
  {
    if aid == 0 then Some(1) else Factor(env.decimals(aid))
  }

  function Locked(deposit: uint64, factor: uint64): uint64
    requires factor > 0
  {
    deposit / factor
  }

  /** Token address and chain of what is sent: read back from the attestation for a wrapped
      asset, the asset's own id on this chain otherwise. */
  function Token(env: Env, cells: Cells, wrapped: bool, aid: uint64, arg1: bytes, acct: bytes): Option<(bytes, bytes)> {
    if aid != 0 && wrapped then
      var asset :- ReadAt(cells, acct, 0, 8);
      :- Require(arg1 == asset);
      var address :- ReadAt(cells, acct, 60, 92);
      var chain :- ReadAt(cells, acct, 92, 94);
      var n :- Btoi(chain);
      :- Require(acct == env.at(n, address));
      Some((address, chain))
    else
      :- Require(acct == env.at(aid, NATIVE));
      Some((arg1, Core.THIS_CHAIN))
  }

  function LeftPad(s: bytes): (r: bytes)
    requires |s| <= 32
    ensures |r| == 32
  {
    Zeros(32 - |s|) + s
  }

  /** The message: a type byte, the amount, token and chain, receiver and chain, and either
      the fee or the sender with the caller's payload. */
  function Payload(withPayload: bool, amount: uint64, token: bytes, chain: bytes, to: bytes, toChain: bytes, tail: bytes): bytes
    requires |token| <= 32 && |to| <= 32
  {
    [if withPayload then 3 else 1]
    + (ZEROS_24 + (Itob(amount) + (LeftPad(token) + (chain + (LeftPad(to) + (toChain + tail))))))
  }

  /** The message a call asks for, if its arguments fit. */
  function Announcement(tx: Txn, amount: uint64, cut: uint64, token: bytes, chain: bytes): Option<bytes> {
    var to :- tx.Arg(3);
    :- Require(|token| <= 32 && |chain| == 2 && |to| <= 32 && |tx.args| <= 7);
    var arg4 :- tx.Arg(4);
    var toChain :- Extract(arg4, 6, 2);
    var tail := if |tx.args| == 7 then tx.sender + tx.args[6] else ZEROS_24 + Itob(cut);
    var p := Payload(|tx.args| == 7, amount, token, chain, to, toChain, tail);
    :- Require(|p| == if |tx.args| == 7 then 133 + |tx.args[6]| else 133);
    Some(p)
  }

  function SendTransfer(env: Env, st: BridgeState, group: seq<Txn>, t: nat, out: Outside): Step
    requires t < |group|
  {
    var tx := group[t];
    var mfee :- out.messageFee;
    var arg1 :- tx.Arg(1);
    var aid :- Btoi(arg1);
    var arg5 :- tx.Arg(5);
    var fee :- Btoi(arg5);
    :- Require(FeePaid(env, group, t, 2, mfee));
    var a2 :- tx.Account(2);
    var deposit :- Deposit(group, t, aid, a2);
    :- Require(fee <= deposit);
    var factor :- FactorOf(env, aid);
    var amount, cut := Locked(deposit, factor), Locked(fee, factor);
    :- Require(amount > 0);
    var token :- Token(env, st.cells, out.wrapped, aid, arg1, a2);
    var p :- Announcement(tx, amount, cut, token.0, token.1);
    :- Require(out.published);
    Some((st, [Sent(aid, !(aid != 0 && out.wrapped), deposit, amount, cut, p)]))
  }

  // ---------- completeTransfer ----------

  /** A transfer message as the receiver reads it. For type 3 the fee is zero. */
  datatype Transfer = Transfer(action: nat, amount: uint64, origin: bytes, originChain: nat, destination: bytes, destChain: nat, fee: uint64)

  /** Reads the payload that starts at `off`. The amounts' upper 24 bytes must be zero. */
  function ReadTransfer(vaa: bytes, off: nat): (r: Option<Transfer>)
    ensures r.Some? ==> r.value.fee <= r.value.amount && |r.value.origin| == |r.value.destination| == 32
  {
    var action :- ReadInt(vaa, off, 1);
    :- Require(action == 1 || action == 3);
    var high :- Extract(vaa, off + 1, 24);
    :- Require(high == ZEROS_24);
    var amount :- ReadInt(vaa, off + 25, 8);
    var origin :- Extract(vaa, off + 33, 32);
    var originChain :- ReadInt(vaa, off + 65, 2);
    var destination :- Extract(vaa, off + 67, 32);
    var destChain :- ReadInt(vaa, off + 99, 2);
    if action == 3 then Some(Transfer(action, amount, origin, originChain, destination, destChain, 0))
    else
      var feeHigh :- Extract(vaa, off + 101, 24);
      :- Require(feeHigh == ZEROS_24);
      var fee :- ReadInt(vaa, off + 125, 8);
      :- Require(fee <= amount);
      Some(Transfer(action, amount, origin, originChain, destination, destChain, fee))
  }

  /** The emitter is this bridge itself or the one registered for the chain. */
  function KnownEmitter(env: Env, chains: map<bytes, bytes>, chain: bytes, emitter: bytes): Check
  {
    Require(if chain == Core.THIS_CHAIN then emitter == env.app.address else chain in chains && chains[chain] == emitter)
  }

  /** A transfer with payload goes to an application, which must be called next with the
      message itself. */
  function Receiver(env: Env, group: seq<Txn>, t: nat, vaa: bytes, m: Transfer): Option<bytes>
    requires t < |group|
  {
    if m.action != 3 then Some(m.destination)
    else
      var low :- Extract(m.destination, 24, 8);
      var aid :- Btoi(low);
      :- Require(t + 1 < |group|);
      var next := group[t + 1];
      :- Require(next.Calls(aid) && next.Arg(0) == Some(env.selector) && next.Arg(1) == Some(ToBE(|vaa|, 2) + vaa));
      env.appAddress(aid)
  }

  /** The asset to pay out, what one unit of the message stands for, and from where. */
  function Source(env: Env, cells: Cells, m: Transfer, acct: bytes): (r: Option<(uint64, uint64)>)
    ensures r.Some? ==> r.value.1 >= 1
  {
    if m.originChain == 8 then
      var low :- Extract(m.origin, 24, 8);
      var asset :- Btoi(low);
      :- Require(acct == env.at(asset, NATIVE));
      var factor :- FactorOf(env, asset);
      Some((asset, factor))
    else
      var b :- ReadAt(cells, acct, 0, 8);
      var asset :- Btoi(b);
      :- Require(asset != 0 && acct == env.at(m.originChain, m.origin));
      Some((asset, 1))
  }

  /** Pays the amount less the fee to the receiver and the fee to the relayer. */
  function PayOut(l: Ledger, from: bytes, to: bytes, relayer: bytes, asset: uint64, factor: uint64, amount: uint64, fee: uint64): Option<Ledger>
    requires fee <= amount
  {
    var due: int, cut: int := (amount - fee) * factor, fee * factor;
    :- Require(due < U64 && cut < U64);
    var paid :- Move(l, from, to, asset, due);
    if fee > 0 then Move(paid, from, relayer, asset, cut) else Some(paid)
  }

  /** A release about to be paid: the message, the marks with its own, and who is paid how
      much of what, from where. */
  datatype Release = Release(msg: Message, marked: Cells, m: Transfer, from: bytes, to: bytes, asset: uint64, factor: uint64)

  /** All the checks of a release; they do not look at balances. */
  function CheckRelease(env: Env, st: BridgeState, group: seq<Txn>, t: nat): (r: Option<Release>)
    requires t < |group|
    ensures r.Some? ==> r.value.m.fee <= r.value.m.amount && |r.value.m.origin| == |r.value.m.destination| == 32
  {
    var tx := group[t];
    var vaa :- tx.Arg(1);
    var msg :- MessageOf(vaa);
    var a1 :- tx.Account(1);
    var marked :- Mark(env.at, st.cells, vaa, a1);
    :- Require(t > 0 && VerifiesFor(env, group[t - 1], tx) && CommonChecks(tx));
    :- KnownEmitter(env, st.chains, msg.emitter[..2], msg.emitter[2..]);
    var m :- ReadTransfer(vaa, vaa[5] as nat * 66 + 57);
    :- Require(m.destChain == 8);
    var to :- Receiver(env, group, t, vaa, m);
    var a3 :- tx.Account(3);
    var source :- Source(env, marked, m, a3);
    Some(Release(msg, marked, m, a3, to, source.0, source.1))
  }

  function CompleteTransfer(env: Env, st: BridgeState, group: seq<Txn>, t: nat, out: Outside): Step
    requires t < |group|
  {
    var r :- CheckRelease(env, st, group, t);
    var ledger :- PayOut(st.ledger, r.from, r.to, group[t].sender, r.asset, r.factor, r.m.amount, r.m.fee);
    Some((st.(cells := r.marked, ledger := ledger), [Received(r.msg), Released(r.m.origin, r.m.originChain, r.asset, r.m.amount, r.m.fee)]))
  }

  // ---------- receiveAttest ----------

  /** What an attestation says. */
  datatype Attestation = Attestation(address: bytes, chain: nat, decimals: nat, symbol: bytes, name: bytes)

  function ReadAttestation(vaa: bytes, off: nat): Option<Attestation> {
    var action :- ReadInt(vaa, off, 1);
    :- Require(action == 2);
    var address :- Extract(vaa, off + 1, 32);
    var chain :- ReadInt(vaa, off + 33, 2);
    var decimals :- ReadInt(vaa, off + 35, 1);
    var symbol :- Extract(vaa, off + 36, 32);
    var name :- Extract(vaa, off + 68, 32);
    Some(Attestation(address, chain, if decimals > 8 then 8 else decimals, Slice(TrimBytes(symbol), 0, 8), TrimBytes(name)))
  }

  /** Four transactions lead up to the call: the core contract's check, a payment to the
      asset's account, and two calls that do nothing. */
  predicate AttestGroup(env: Env, group: seq<Txn>, t: nat, acct: bytes)
    requires t < |group|
  {
    var tx := group[t];
    && t >= 4 && t == |group| - 1
    && VerifiesFor(env, group[t - 4], tx)
    && (var pmt := group[t - 3];
        pmt.kind == Payment && pmt.amount >= 100000 && pmt.sender == tx.sender && pmt.receiver == acct && CommonChecks(pmt))
    && IsNop(env, group[t - 2], tx) && IsNop(env, group[t - 1], tx)
  }

  predicate IsNop(env: Env, n: Txn, tx: Txn) {
    n.Calls(env.app.id) && n.Arg(0) == Some(NOP) && n.sender == tx.sender && CommonChecks(n)
  }

  /** Creates the asset the first time an account is seen, and keeps the attesting message's
      body, from byte 8 on, in any case. */
  function Attest(cells: Cells, acct: bytes, body: bytes, newAsset: uint64): Option<(Cells, bool)> {
    var asset :- ReadAt(cells, acct, 0, 8);
    var fresh_ := asset == Itob(0);
    :- Require(!fresh_ || newAsset > 0);
    var created :- if fresh_ then CreateAt(cells, acct, newAsset) else Some(cells);
    var kept :- WriteAt(created, acct, 8, body);
    Some((kept, fresh_))
  }

  function CreateAt(cells: Cells, acct: bytes, id: uint64): Option<Cells> {
    var written :- WriteAt(cells, acct, 0, Itob(id));
    TagAs(written, acct, ASSET)
  }

  /** All of a new asset there will ever be; its account holds it to begin with. */
  const SUPPLY: uint64 := 18446744073709550000

  function ReceiveAttest(env: Env, st: BridgeState, group: seq<Txn>, t: nat, out: Outside): Step
    requires t < |group|
  {
    var tx := group[t];
    var vaa :- tx.Arg(1);
    var msg :- MessageOf(vaa);
    var a1 :- tx.Account(1);
    var marked :- Mark(env.at, st.cells, vaa, a1);
    var a3 :- tx.Account(3);
    :- Require(AttestGroup(env, group, t, a3));
    var num: nat := vaa[5];
    :- Require(msg.emitter[..2] in st.chains && st.chains[msg.emitter[..2]] == msg.emitter[2..]);
    var a :- ReadAttestation(vaa, num * 66 + 57);
    :- Require(a3 == env.at(a.chain, a.address));
    var kept :- Attest(marked, a3, vaa[num * 66 + 6..], out.newAsset);
    var entry := if kept.1 then [Created(out.newAsset, a.chain, a.address, a.name, a.symbol, a.decimals)] else [];
    var ledger := if kept.1 then st.ledger[(a3, out.newAsset) := SUPPLY] else st.ledger;
    Some((st.(cells := kept.0, ledger := ledger), [Received(msg)] + entry))
  }

  // ---------- governance, opting in ----------

  /** "TokenBridge", left padded. */
  const BRIDGE_MODULE: bytes := Zeros(21) + [84, 111, 107, 101, 110, 66, 114, 105, 100, 103, 101]

  function Governance(env: Env, st: BridgeState, group: seq<Txn>, t: nat, out: Outside): Step
    requires t < |group|
  {
    var tx := group[t];
    var vaa :- tx.Arg(1);
    var msg :- MessageOf(vaa);
    var a1 :- tx.Account(1);
    var marked :- Mark(env.at, st.cells, vaa, a1);
    var set_ :- out.guardianSet;
    var idx :- ReadInt(vaa, 1, 4);
    :- Require(idx == set_);
    :- Require(t > 0 && VerifiesFor(env, group[t - 1], tx) && CommonChecks(tx));
    :- Require(msg.emitter == [0, 1] + Core.GOVERNANCE_EMITTER);
    var off := vaa[5] as nat * 66 + 14;
    var module_ :- Extract(vaa, off + 43, 32);
    :- Require(module_ == BRIDGE_MODULE);
    var action :- ReadInt(vaa, off + 75, 1);
    var target :- Extract(vaa, off + 76, 2);
    if action == 1 then
      :- Require(target == Core.ANY_CHAIN || target == Core.THIS_CHAIN);
      var chain :- Extract(vaa, off + 78, 2);
      var emitter :- Extract(vaa, off + 80, 32);
      :- Require(chain !in st.chains);
      Some((st.(cells := marked, chains := st.chains[chain := emitter]), [Received(msg)]))
    else
      :- Require(action == 2 && target == Core.THIS_CHAIN);
      var hash :- Extract(vaa, off + 78, 32);
      Some((st.(cells := marked, updateHash := hash), [Received(msg)]))
  }

  /** Opting a custody account in to an asset moves nothing. */
  function OptInAsset(env: Env, st: BridgeState, tx: Txn): Step {
    var arg1 :- tx.Arg(1);
    var aid :- Btoi(arg1);
    var a1 :- tx.Account(1);
    :- Require(a1 == env.at(aid, NATIVE) && CommonChecks(tx));
    Some((st, []))
  }

  function JoinStorage(env: Env, st: BridgeState, group: seq<Txn>, t: nat): Step
    requires t < |group|
  {
    var tx := group[t];
    :- Require(t > 0 && tx.rekeyTo == env.app.address && tx.args == []);
    var pmt := group[t - 1];
    :- Require(pmt.kind == Payment && pmt.amount == env.seed && pmt.receiver == tx.sender);
    :- Require(tx.sender !in st.cells);
    Some((st.(cells := st.cells[tx.sender := EMPTY_CELL]), []))
  }

  // ---------- one transaction, one group, a run ----------

  /** Attesting a token of this chain publishes a message and changes nothing here. */
  function Router(env: Env, st: BridgeState, group: seq<Txn>, t: nat, out: Outside): Step
    requires t < |group|
  {
    var m :- group[t].Arg(0);
    if m == NOP then Some((st, []))
    else if m == RECEIVE_ATTEST then ReceiveAttest(env, st, group, t, out)
    else if m == ATTEST_TOKEN then if out.published then Some((st, [])) else None
    else if m == COMPLETE_TRANSFER then CompleteTransfer(env, st, group, t, out)
    else if m == SEND_TRANSFER then SendTransfer(env, st, group, t, out)
    else if m == OPTIN then OptInAsset(env, st, group[t])
    else if m == GOVERNANCE then Governance(env, st, group, t, out)
    else None
  }

  /** Payments and asset transfers move funds; calls of other applications leave the bridge
      alone. */
  function Execute(env: Env, st: BridgeState, group: seq<Txn>, t: nat, out: Outside): Step
    requires t < |group|
  {
    var tx := group[t];
    if tx.kind == Payment || tx.kind == AssetTransfer then
      :- Require(tx.kind == AssetTransfer ==> tx.asset != 0);
      var l :- Move(st.ledger, tx.sender, tx.receiver, if tx.kind == Payment then 0 else tx.asset, tx.amount);
      Some((st.(ledger := l), []))
    else if !tx.Calls(env.app.id) then Some((st, []))
    else match tx.onCompletion
      case OptIn => JoinStorage(env, st, group, t)
      case NoOp => Router(env, st, group, t, out)
      case _ => None
  }

  /** A group with what each of its calls learns from outside, and whether every other
      program in it agrees. */
  datatype Block = Block(group: seq<Txn>, outside: nat -> Outside, othersAgree: bool)

  function After(env: Env, st: BridgeState, b: Block, k: nat): Step
    requires k <= |b.group|
  {
    if k == 0 then Some((st, []))
    else
      var before :- After(env, st, b, k - 1);
      var step :- Execute(env, before.0, b.group, k - 1, b.outside(k - 1));
      Some((step.0, before.1 + step.1))
  }

  predicate Commits(env: Env, st: BridgeState, b: Block) {
    b.othersAgree && After(env, st, b, |b.group|).Some?
  }

  function Submit(env: Env, st: BridgeState, b: Block): (BridgeState, seq<Entry>) {
    if Commits(env, st, b) then After(env, st, b, |b.group|).value else (st, [])
  }

  /** The bridge as created, with funds wherever they happen to be. */
  function Opened(ledger: Ledger): BridgeState {
    BridgeState(map[], [], map[], ledger)
  }

  function Run(env: Env, ledger: Ledger, blocks: seq<Block>): (BridgeState, seq<Entry>) {
    if blocks == [] then (Opened(ledger), [])
    else
      var before := Run(env, ledger, blocks[..|blocks| - 1]);
      var step := Submit(env, before.0, blocks[|blocks| - 1]);
      (step.0, before.1 + step.1)
  }

  /** Block `i` of a run was committed, not rejected. */
  predicate Committed(env: Env, ledger: Ledger, blocks: seq<Block>, i: nat) {
    i < |blocks| && Commits(env, Run(env, ledger, blocks[..i]).0, blocks[i])
  }
}
