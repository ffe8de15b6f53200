/** The core contract as a function from state to state. Accounts are seen flat; `CoreContract`
    carries the same operations out on pages. */
module Core {
  import opened Teal
  import opened Transactions
  import opened VaaVerify
  import opened VerifyVaa
  import opened Template
  import opened LocalBlob
  import opened Replay
  import opened Accounts
  import opened Protocol

  /** What is fixed at deployment. `verifier` is the address of the stateless program. */
  datatype Env = Env(crypto: Crypto, at: Locator, app: App, creator: bytes, verifier: bytes, seed: uint64)

  datatype CoreState = CoreState(
    booted: bool, setIndex: uint64, messageFee: uint64, vphash: bytes, updateHash: bytes, cells: Cells)

  /** Right after the application is created. */
  const CREATED: CoreState := CoreState(false, 0, 0, [], [], map[])

  // ---------- publishMessage ----------

  /** When a fee is set, the transaction in front must pay it. */
  function FeePaid(app: App, fee: uint64, group: Group, t: nat): Check
    requires t < |group|
  {
    Require(fee > 0 ==>
      && t > 0
      && var pmt := group[t - 1];
         pmt.kind == Payment && pmt.amount >= fee && pmt.receiver == app.address && pmt.rekeyTo == ZERO_ADDRESS)
  }

  function PublishMessage(env: Env, st: CoreState, group: Group, t: nat): Option<(CoreState, seq<Event>)>
    requires t < |group|
  {
    var sender := group[t].sender;
    var a1 :- group[t].Account(1);
    :- Require(a1 == env.at(0, sender));
    :- FeePaid(env.app, st.messageFee, group, t);
    var last :- ReadAt(st.cells, a1, 0, 8);
    var n :- Btoi(last);
    :- Require(n + 1 < U64);
    var written :- WriteAt(st.cells, a1, 0, Itob(n + 1));
    var tagged :- TagAs(written, a1, PUBLISH_MESSAGE);
    Some((st.(cells := tagged), [Published(sender, n + 1)]))
  }

  // ---------- checkForDuplicate ----------

  function CheckForDuplicate(env: Env, cells: Cells, tx: Txn): Option<(Cells, seq<Event>)> {
    var vaa :- tx.Arg(1);
    var m :- MessageOf(vaa);
    var a1 :- tx.Account(1);
    var marked :- Mark(env.at, cells, vaa, a1);
    var tagged :- TagAs(marked, a1, DUPLICATE);
    Some((tagged, [Accepted(m)]))
  }

  // ---------- governance ----------

  /** Chain 1 and address 4, the governance emitter. */
  const GOVERNANCE_EMITTER: bytes := Zeros(31) + [4]

  /** "Core", left padded. */
  const CORE_MODULE: bytes := Zeros(28) + [67, 111, 114, 101]

  const THIS_CHAIN: bytes := [0, 8]
  const ANY_CHAIN: bytes := [0, 0]

  /** Where the payload's action byte is. */
  function ActionOffset(num: nat): nat { num * 66 + 14 + 43 + 32 }

  /** The new set's record in a guardian-set message: its size byte and its keys. */
  function SetRecord(vaa: bytes): Option<bytes> {
    var num :- ReadInt(vaa, 5, 1);
    var off := ActionOffset(num) + 7;
    var len :- ReadInt(vaa, off, 1);
    :- Require(len > 0);
    Extract(vaa, off, 1 + 20 * len)
  }

  /** Writes the new set, dates the old one unless it is the same account, and tags. */
  function StoreSet(cells: Cells, a2: bytes, a3: bytes, record: bytes, now: uint64): Option<Cells> {
    var written :- WriteAt(cells, a3, 0, record);
    var retired :- if a3 == a2 then Some(written)
                   else if now + GRACE < U64 then WriteAt(written, a2, 1000, Itob(now + GRACE))
                   else None;
    TagAs(retired, a3, GUARDIAN)
  }

  /** Installs a guardian set. `a2` is the account of the set being replaced; at boot the
      index is free and `a2` may be the new account itself. */
  function InstallSet(env: Env, st: CoreState, vaa: bytes, off: nat, tx: Txn, isBoot: bool, now: uint64): Option<(CoreState, seq<Event>)> {
    var idx :- ReadInt(vaa, off + 3, 4);
    var a2 :- tx.Account(2);
    var a3 :- tx.Account(3);
    :- Require(a3 == env.at(idx, GUARDIAN));
    :- Require(isBoot || (a3 != a2 && idx == st.setIndex + 1));
    var record :- SetRecord(vaa);
    var cells :- StoreSet(st.cells, a2, a3, record, now);
    Some((st.(setIndex := idx, cells := cells),
          [if isBoot then Booted(idx, record[1..]) else Upgraded(vaa, record[1..], now)]))
  }

  function HandleGovernance(env: Env, st: CoreState, tx: Txn, isBoot: bool, now: uint64): Option<(CoreState, seq<Event>)> {
    var vaa :- tx.Arg(1);
    var signedBy :- ReadInt(vaa, 1, 4);
    :- Require(st.setIndex == 0 || signedBy == st.setIndex);
    var num :- ReadInt(vaa, 5, 1);
    var chain :- Extract(vaa, num * 66 + 14, 2);
    :- Require(chain == [0, 1]);
    var emitter :- Extract(vaa, num * 66 + 14 + 2, 32);
    :- Require(emitter == GOVERNANCE_EMITTER);
    var module_ :- Extract(vaa, num * 66 + 14 + 43, 32);
    :- Require(module_ == CORE_MODULE);
    var off := ActionOffset(num);
    var target :- Extract(vaa, off + 1, 2);
    var action := vaa[off];
    if action == 1 then
      :- Require(target == THIS_CHAIN);
      var hash :- Extract(vaa, off + 3, 32);
      Some((st.(updateHash := hash), []))
    else if action == 2 then
      :- Require(target == THIS_CHAIN || target == ANY_CHAIN);
      InstallSet(env, st, vaa, off, tx, isBoot, now)
    else if action == 3 then
      :- Require(target == THIS_CHAIN);
      var fee :- ReadInt(vaa, off + 27, 8);
      Some((st.(messageFee := fee), []))
    else
      :- Require(action == 4 && target == THIS_CHAIN);
      var payout :- Extract(vaa, off + 27, 40);
      Some((st, []))
  }

  function Init(env: Env, st: CoreState, tx: Txn, now: uint64): Option<(CoreState, seq<Event>)> {
    var vphash :- tx.Arg(2);
    :- Require(tx.sender == env.creator && !st.booted);
    var d :- CheckForDuplicate(env, st.cells, tx);
    var g :- HandleGovernance(env, st.(vphash := vphash, booted := true, cells := d.0), tx, true, now);
    Some((g.0, d.1 + g.1))
  }

  function Governance(env: Env, st: CoreState, group: Group, t: nat, now: uint64): Option<(CoreState, seq<Event>)>
    requires t < |group|
  {
    var tx := group[t];
    var d :- CheckForDuplicate(env, st.cells, tx);
    :- Require(t > 0);
    var prev := group[t - 1];
    :- Require(
      && prev.Calls(tx.appId) && prev.Arg(0) == Some(VERIFY_VAA) && prev.sender == tx.sender
      && prev.rekeyTo == ZERO_ADDRESS && prev.onCompletion == NoOp
      && prev.Arg(1) == tx.Arg(1) && tx.rekeyTo == ZERO_ADDRESS
      && prev.Account(1) == tx.Account(1)
      && prev.Account(2) == tx.Account(2) && tx.Account(2).Some?);
    var g :- HandleGovernance(env, st.(cells := d.0), tx, false, now);
    Some((g.0, d.1 + g.1))
  }

  // ---------- opting in ----------

  function JoinStorage(env: Env, st: CoreState, group: Group, t: nat): Option<(CoreState, seq<Event>)>
    requires t < |group|
  {
    var tx := group[t];
    :- Require(t > 0 && tx.rekeyTo == env.app.address && tx.args == []);
    var pmt := group[t - 1];
    :- Require(pmt.kind == Payment && pmt.amount == env.seed && pmt.receiver == tx.sender);
    :- Require(tx.sender !in st.cells);
    Some((st.(cells := st.cells[tx.sender := EMPTY_CELL]), []))
  }

  // ---------- one transaction, one group, a run ----------

  /** Transaction `t` of a group, the ones before it having been executed. Calls to other
      applications leave this one's state alone. */
  function Call(env: Env, st: CoreState, group: Group, t: nat, now: uint64): Option<(CoreState, seq<Event>)>
    requires t < |group|
  {
    var tx := group[t];
    if !tx.Calls(env.app.id) then Some((st, []))
    else match tx.onCompletion
      case OptIn => JoinStorage(env, st, group, t)
      case NoOp =>
        var m :- tx.Arg(0);
        if m == PUBLISH_MESSAGE then PublishMessage(env, st, group, t)
        else if m == NOP then Some((st, []))
        else if m == INIT then Init(env, st, tx, now)
        else if m == VERIFY_SIGS then if tx.sender == st.vphash then Some((st, [])) else None
        else if m == VERIFY_VAA then
          var set_ :- VerifyVAA(env.crypto, env.at, st.cells, st.vphash, group, t, now);
          var vaa :- tx.Arg(1);
          var idx :- ReadInt(vaa, 1, 4);
          Some((st, [Verified(vaa, idx, now)]))
        else if m == GOVERNANCE then Governance(env, st, group, t, now)
        else None
      case _ => None
  }

  /** The first `k` transactions of a group. */
  function After(env: Env, st: CoreState, group: Group, now: uint64, k: nat): Option<(CoreState, seq<Event>)>
    requires k <= |group|
  {
    if k == 0 then Some((st, []))
    else
      var before :- After(env, st, group, now, k - 1);
      var step :- Call(env, before.0, group, k - 1, now);
      Some((step.0, before.1 + step.1))
  }

  /** The platform drops a group outright when a transaction from the stateless program's
      address is not approved by that program, and abandons one in which a call traps. */
  ghost predicate Commits(env: Env, st: CoreState, b: Block) {
    Authorised(env.crypto, env.verifier, b.group) && After(env, st, b.group, b.now, |b.group|).Some?
  }

  /** A group commits whole or changes nothing. */
  ghost function Submit(env: Env, st: CoreState, group: Group, now: uint64): (CoreState, seq<Event>) {
    if Commits(env, st, Block(group, now)) then After(env, st, group, now, |group|).value else (st, [])
  }

  datatype Block = Block(group: Group, now: uint64)

  ghost function Run(env: Env, blocks: seq<Block>): (CoreState, seq<Event>) {
    if blocks == [] then (CREATED, [])
    else
      var before := Run(env, blocks[..|blocks| - 1]);
      var b := blocks[|blocks| - 1];
      var step := Submit(env, before.0, b.group, b.now);
      (step.0, before.1 + step.1)
  }

  /** Block `i` of a run was committed, not rejected. */
  ghost predicate Committed(env: Env, blocks: seq<Block>, i: nat) {
    i < |blocks| && Commits(env, Run(env, blocks[..i]).0, blocks[i])
  }

  lemma CommittedPrefix(env: Env, blocks: seq<Block>, n: nat, i: nat)
    requires n <= |blocks| && Committed(env, blocks[..n], i)
    ensures Committed(env, blocks, i)
  {
    assert blocks[..n][..i] == blocks[..i];
  }

  /** A run and its last block. */
  lemma RunLast(env: Env, blocks: seq<Block>)
    requires blocks != []
    ensures
      var n := |blocks| - 1;
      var before, step := Run(env, blocks[..n]), Submit(env, Run(env, blocks[..n]).0, blocks[n].group, blocks[n].now);
      && Run(env, blocks) == (step.0, before.1 + step.1)
      && (Committed(env, blocks, n) ==>
           After(env, before.0, blocks[n].group, blocks[n].now, |blocks[n].group|) == Some(step)
           && Authorised(env.crypto, env.verifier, blocks[n].group))
      && (!Committed(env, blocks, n) ==> step == (before.0, []))
  {
  }
}
