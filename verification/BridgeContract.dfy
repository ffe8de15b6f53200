/** The token bridge as it runs: global state in fields, asset and replay accounts as pages,
    and a roll-back when a call traps. Each method is proved against the function of the same
    name in `TokenBridge`. */
module BridgeContract {
  import opened Teal
  import opened Transactions
  import opened Template
  import opened LocalBlob
  import opened Replay
  import opened Accounts
  import opened TokenBridge
  import Core

  lemma TrimStep(s: bytes, off: nat)
    requires off <= |s|
    ensures off == |s| || s[off] == 0 ==> s[..off] + TrimBytes(s[off..]) == s[..off]
    ensures off < |s| && s[off] != 0 ==> s[..off] + TrimBytes(s[off..]) == s[..off + 1] + TrimBytes(s[off + 1..])
  {
    if off < |s| && s[off] != 0 {
      assert s[off..][1..] == s[off + 1..];
      assert s[..off] + [s[off]] == s[..off + 1];
    }
  }

  /** `trim_bytes`: cuts at the first zero byte by moving the offset past the end. */
  method CutAtZero(s: bytes) returns (r: bytes)
    ensures r == TrimBytes(s)
  {
    hide TrimBytes;
    r := s;
    var len := |r|;
    var off := 0;
    assert s[..0] + TrimBytes(s[0..]) == TrimBytes(s) by { assert s[0..] == s; }
    while off < len
      invariant off <= len ==> r == s && s[..off] + TrimBytes(s[off..]) == TrimBytes(s)
      invariant off > len ==> r == TrimBytes(s)
      decreases len - off
    {
      TrimStep(s, off);
      if r[off] == 0 {
        r := r[..off];
        off := len;
      }
      off := off + 1;
    }
    if off == len { TrimStep(s, len); }
    assert off == len ==> s[..off] == s;
  }

  class Bridge {
    const env: Env
    const blob: LocalBlob
    var chains: map<bytes, bytes>
    var updateHash: bytes
    var ledger: Ledger

    constructor (env: Env, ledger: Ledger)
      ensures Valid() && fresh(blob) && this.env == env && State() == Opened(ledger)
    {
      this.env := env;
      this.ledger := ledger;
      blob := new LocalBlob();
      chains, updateHash := map[], [];
    }

    ghost predicate Valid()
      reads this, blob
    {
      blob.Valid()
    }

    ghost function State(): BridgeState
      requires Valid()
      reads this, blob
    {
      BridgeState(chains, updateHash, blob.Cells(), ledger)
    }

    /** The call traps exactly when the specification does; otherwise it leaves the specified
        state and the same entries. */
    ghost predicate Did(r: Option<seq<Entry>>, spec: Step)
      reads this, blob
    {
      match spec
      case None => r == None
      case Some(s) => Valid() && State() == s.0 && r == Some(s.1)
    }

    // ---------- sendTransfer ----------

    /** The previous transaction must be the deposit itself. */
    method TakeDeposit(group: seq<Txn>, t: nat, aid: uint64, acct: bytes) returns (r: Option<uint64>)
      requires t < |group|
      ensures r == Deposit(group, t, aid, acct)
    {
      if t == 0 { return None; }
      var d := group[t - 1];
      if aid == 0 {
        if d.kind != Payment || d.sender != group[t].sender || d.receiver != acct || !CommonChecks(d) { return None; }
      } else {
        if d.kind != AssetTransfer || d.sender != group[t].sender || d.asset != aid || d.receiver != acct || !CommonChecks(d) { return None; }
      }
      return Some(d.amount);
    }

    method TokenOf(wrapped: bool, aid: uint64, arg1: bytes, acct: bytes) returns (r: Option<(bytes, bytes)>)
      requires Valid()
      ensures r == Token(env, blob.Cells(), wrapped, aid, arg1, acct)
    {
      hide ReadAt, CellsOf, FromBE;
      if aid != 0 && wrapped {
        var asset :- ReadFrom(blob, acct, 0, 8);
        if arg1 != asset { return None; }
        var address :- ReadFrom(blob, acct, 60, 92);
        var chain :- ReadFrom(blob, acct, 92, 94);
        var n := Btoi(chain).value;
        if acct != env.at(n, address) { return None; }
        return Some((address, chain));
      } else {
        if acct != env.at(aid, NATIVE) { return None; }
        return Some((arg1, Core.THIS_CHAIN));
      }
    }

    /** Amount and fee in normalised units. */
    method Dedust(aid: uint64, deposit: uint64, fee: uint64) returns (r: Option<(uint64, uint64)>)
      ensures
        match FactorOf(env, aid)
        case None => r == None
        case Some(f) => r == Some((Locked(deposit, f), Locked(fee, f)))
    {
      hide Factor, Locked;
      var amount, cut := deposit, fee;
      Undivided(deposit);
      Undivided(fee);
      if aid != 0 {
        var factor :- Factor(env.decimals(aid));
        Divided(deposit, factor);
        Divided(fee, factor);
        if factor != 1 {
          amount := amount / factor;
          cut := cut / factor;
        }
      }
      return Some((amount, cut));
    }

    method Announce(tx: Txn, amount: uint64, cut: uint64, token: bytes, chain: bytes) returns (r: Option<bytes>)
      ensures r == Announcement(tx, amount, cut, token, chain)
    {
      hide Payload, Itob;
      var to :- tx.Arg(3);
      if |token| > 32 || |chain| != 2 || |to| > 32 || |tx.args| > 7 { return None; }
      var arg4 :- tx.Arg(4);
      var toChain :- Extract(arg4, 6, 2);
      var tail := if |tx.args| == 7 then tx.sender + tx.args[6] else ZEROS_24 + Itob(cut);
      var p := Payload(|tx.args| == 7, amount, token, chain, to, toChain, tail);
      if |p| != (if |tx.args| == 7 then 133 + |tx.args[6]| else 133) { return None; }
      return Some(p);
    }

    method SendTransfer(group: seq<Txn>, t: nat, out: Outside) returns (r: Option<seq<Entry>>)
      requires Valid() && t < |group|
      ensures Did(r, TokenBridge.SendTransfer(env, State(), group, t, out))
    {
      hide Token, Deposit, Announcement, CellsOf, Btoi, FeePaid, FactorOf, Locked;
      var tx := group[t];
      var mfee :- out.messageFee;
      var arg1 :- tx.Arg(1);
      var aid :- Btoi(arg1);
      var arg5 :- tx.Arg(5);
      var fee :- Btoi(arg5);
      if !FeePaid(env, group, t, 2, mfee) { return None; }
      var a2 :- tx.Account(2);
      var deposit :- TakeDeposit(group, t, aid, a2);
      if fee > deposit { return None; }
      var cutDown :- Dedust(aid, deposit, fee);
      var amount, cut := cutDown.0, cutDown.1;
      if amount == 0 { return None; }
      var token :- TokenOf(out.wrapped, aid, arg1, a2);
      var p :- Announce(tx, amount, cut, token.0, token.1);
      if !out.published { return None; }
      return Some([Sent(aid, !(aid != 0 && out.wrapped), deposit, amount, cut, p)]);
    }

    // ---------- completeTransfer ----------

    method ParseTransfer(vaa: bytes, off: nat) returns (r: Option<Transfer>)
      ensures r == ReadTransfer(vaa, off)
    {
      hide ReadInt;
      var action :- ReadInt(vaa, off, 1);
      if action != 1 && action != 3 { return None; }
      var high :- Extract(vaa, off + 1, 24);
      if high != ZEROS_24 { return None; }
      var amount :- ReadInt(vaa, off + 25, 8);
      var origin :- Extract(vaa, off + 33, 32);
      var originChain :- ReadInt(vaa, off + 65, 2);
      var destination :- Extract(vaa, off + 67, 32);
      var destChain :- ReadInt(vaa, off + 99, 2);
      var fee := 0;
      if action != 3 {
        var feeHigh :- Extract(vaa, off + 101, 24);
        if feeHigh != ZEROS_24 { return None; }
        fee :- ReadInt(vaa, off + 125, 8);
        if fee > amount { return None; }
      }
      return Some(Transfer(action, amount, origin, originChain, destination, destChain, fee));
    }

    method SourceOf(m: Transfer, acct: bytes) returns (r: Option<(uint64, uint64)>)
      requires Valid()
      ensures r == Source(env, blob.Cells(), m, acct)
    {
      hide ReadAt, CellsOf, FromBE;
      if m.originChain == 8 {
        var low :- Extract(m.origin, 24, 8);
        var asset := Btoi(low).value;
        if acct != env.at(asset, NATIVE) { return None; }
        if asset == 0 { return Some((asset, 1)); }
        var factor :- Factor(env.decimals(asset));
        return Some((asset, factor));
      } else {
        var b :- ReadFrom(blob, acct, 0, 8);
        var asset := Btoi(b).value;
        if asset == 0 || acct != env.at(m.originChain, m.origin) { return None; }
        return Some((asset, 1));
      }
    }

    /** The inner transactions. */
    method Pay(from: bytes, to: bytes, relayer: bytes, asset: uint64, factor: uint64, amount: uint64, fee: uint64) returns (r: Option<()>)
      requires fee <= amount && factor >= 1
      modifies `ledger
      ensures
        match PayOut(old(ledger), from, to, relayer, asset, factor, amount, fee)
        case None => r == None
        case Some(l) => ledger == l && r.Some?
    {
      hide Move;
      NoFactor(amount - fee, factor);
      NoFactor(fee, factor);
      var due: int, cut: int := amount - fee, fee;
      if factor != 1 {
        due := due * factor;
        cut := cut * factor;
        if due >= U64 || cut >= U64 { return None; }
      }
      var paid :- Move(ledger, from, to, asset, due);
      ledger := paid;
      if cut > 0 {
        var both :- Move(ledger, from, relayer, asset, cut);
        ledger := both;
      }
      return Some(());
    }

    method CompleteTransfer(group: seq<Txn>, t: nat, out: Outside) returns (r: Option<seq<Entry>>)
      requires Valid() && t < |group|
      modifies this, blob
      ensures Did(r, TokenBridge.CompleteTransfer(env, old(State()), group, t, out))
    {
      hide Mark, CellsOf, ReadTransfer, Source, PayOut, VerifiesFor, CommonChecks, KnownEmitter, Receiver;
      var tx := group[t];
      var msg :- MarkMessage(blob, env.at, tx);
      if t == 0 || !VerifiesFor(env, group[t - 1], tx) || !CommonChecks(tx) { return None; }
      var vaa := tx.args[1];
      if KnownEmitter(env, chains, msg.emitter[..2], msg.emitter[2..]).Trap? { return None; }
      var num: nat := vaa[5];
      var m :- ParseTransfer(vaa, num * 66 + 57);
      if m.destChain != 8 { return None; }
      var to :- Receiver(env, group, t, vaa, m);
      var a3 :- tx.Account(3);
      var source :- SourceOf(m, a3);
      var _ :- Pay(a3, to, tx.sender, source.0, source.1, m.amount, m.fee);
      return Some([Received(msg), Released(m.origin, m.originChain, source.0, m.amount, m.fee)]);
    }

    // ---------- receiveAttest ----------

    method ParseAttestation(vaa: bytes, off: nat) returns (r: Option<Attestation>)
      ensures r == ReadAttestation(vaa, off)
    {
      hide ReadInt, TrimBytes;
      var action :- ReadInt(vaa, off, 1);
      if action != 2 { return None; }
      var address :- Extract(vaa, off + 1, 32);
      var chain :- ReadInt(vaa, off + 33, 2);
      var decimals :- ReadInt(vaa, off + 35, 1);
      var symbol :- Extract(vaa, off + 36, 32);
      var name :- Extract(vaa, off + 68, 32);
      symbol := CutAtZero(symbol);
      assert symbol[0..|symbol|] == symbol;
      if |symbol| > 8 { symbol := symbol[0..8]; }
      name := CutAtZero(name);
      if decimals > 8 { decimals := 8; }
      return Some(Attestation(address, chain, decimals, symbol, name));
    }

    method KeepAttestation(acct: bytes, body: bytes, newAsset: uint64) returns (r: Option<bool>)
      requires Valid() && 8 + |body| < WINDOW
      modifies blob
      ensures
        match Attest(old(blob.Cells()), acct, body, newAsset)
        case None => r == None
        case Some(k) => Valid() && blob.Cells() == k.0 && r == Some(k.1)
    {
      hide ReadAt, WriteAt, TagAs, CellsOf, Itob;
      var asset :- ReadFrom(blob, acct, 0, 8);
      var isNew := asset == Itob(0);
      if isNew {
        if newAsset == 0 { return None; }
        var _ :- WriteTo(blob, acct, 0, Itob(newAsset));
        var _ :- TagWith(blob, acct, ASSET);
      }
      var _ :- WriteTo(blob, acct, 8, body);
      return Some(isNew);
    }

    /** The machine's byte strings are at most 4096 bytes long. */
    method ReceiveAttest(group: seq<Txn>, t: nat, out: Outside) returns (r: Option<seq<Entry>>)
      requires Valid() && t < |group|
      requires forall a | a in group[t].args :: |a| <= 4096
      modifies this, blob
      ensures Did(r, TokenBridge.ReceiveAttest(env, old(State()), group, t, out))
    {
      hide Mark, CellsOf, Attest, ReadAttestation, AttestGroup;
      var tx := group[t];
      var msg :- MarkMessage(blob, env.at, tx);
      var vaa := tx.args[1];
      assert vaa in tx.args;
      var a3 :- tx.Account(3);
      if !AttestGroup(env, group, t, a3) { return None; }
      var num: nat := vaa[5];
      if msg.emitter[..2] !in chains || chains[msg.emitter[..2]] != msg.emitter[2..] { return None; }
      var a :- ParseAttestation(vaa, num * 66 + 57);
      if a3 != env.at(a.chain, a.address) { return None; }
      var isNew :- KeepAttestation(a3, vaa[num * 66 + 6..], out.newAsset);
      var entry := [];
      if isNew {
        ledger := ledger[(a3, out.newAsset) := SUPPLY];
        entry := [Created(out.newAsset, a.chain, a.address, a.name, a.symbol, a.decimals)];
      }
      return Some([Received(msg)] + entry);
    }

    // ---------- the rest ----------

    method Governance(group: seq<Txn>, t: nat, out: Outside) returns (r: Option<seq<Entry>>)
      requires Valid() && t < |group|
      modifies this, blob
      ensures Did(r, TokenBridge.Governance(env, old(State()), group, t, out))
    {
      hide Mark, CellsOf, VerifiesFor, CommonChecks;
      var tx := group[t];
      var msg :- MarkMessage(blob, env.at, tx);
      var vaa := tx.args[1];
      var set_ :- out.guardianSet;
      var idx :- ReadInt(vaa, 1, 4);
      if idx != set_ { return None; }
      if t == 0 || !VerifiesFor(env, group[t - 1], tx) || !CommonChecks(tx) { return None; }
      if msg.emitter != [0, 1] + Core.GOVERNANCE_EMITTER { return None; }
      var num: nat := vaa[5];
      var off := num * 66 + 14;
      var module_ :- Extract(vaa, off + 43, 32);
      if module_ != BRIDGE_MODULE { return None; }
      var action :- ReadInt(vaa, off + 75, 1);
      off := off + 76;
      var target :- Extract(vaa, off, 2);
      if action == 1 {
        if target != Core.ANY_CHAIN && target != Core.THIS_CHAIN { return None; }
        var chain :- Extract(vaa, off + 2, 2);
        var emitter :- Extract(vaa, off + 4, 32);
        if chain in chains { return None; }
        chains := chains[chain := emitter];
      } else if action == 2 {
        if target != Core.THIS_CHAIN { return None; }
        var hash :- Extract(vaa, off + 2, 32);
        updateHash := hash;
      } else {
        return None;
      }
      return Some([Received(msg)]);
    }

    method JoinStorage(group: seq<Txn>, t: nat) returns (r: Option<seq<Entry>>)
      requires Valid() && t < |group|
      modifies blob
      ensures Did(r, TokenBridge.JoinStorage(env, old(State()), group, t))
    {
      var tx := group[t];
      if t == 0 || tx.rekeyTo != env.app.address || tx.args != [] { return None; }
      var seed := group[t - 1];
      if seed.kind != Payment || seed.amount != env.seed || seed.receiver != tx.sender { return None; }
      if tx.sender in blob.accounts { return None; }
      blob.Zero(tx.sender);
      return Some([]);
    }

    method OptInAsset(tx: Txn) returns (r: Option<seq<Entry>>)
      requires Valid()
      ensures Did(r, TokenBridge.OptInAsset(env, State(), tx))
    {
      hide CellsOf, Btoi;
      var arg1 :- tx.Arg(1);
      var aid :- Btoi(arg1);
      var a1 :- tx.Account(1);
      if a1 != env.at(aid, NATIVE) || !CommonChecks(tx) { return None; }
      return Some([]);
    }

    method Router(group: seq<Txn>, t: nat, out: Outside) returns (r: Option<seq<Entry>>)
      requires Valid() && t < |group|
      requires forall a | a in group[t].args :: |a| <= 4096
      modifies this, blob
      ensures Did(r, TokenBridge.Router(env, old(State()), group, t, out))
    {
      hide TokenBridge.SendTransfer, TokenBridge.CompleteTransfer, TokenBridge.ReceiveAttest, TokenBridge.Governance, TokenBridge.OptInAsset, CellsOf;
      var m :- group[t].Arg(0);
      if m == NOP {
        return Some([]);
      } else if m == RECEIVE_ATTEST {
        r := ReceiveAttest(group, t, out);
      } else if m == ATTEST_TOKEN {
        return if out.published then Some([]) else None;
      } else if m == COMPLETE_TRANSFER {
        r := CompleteTransfer(group, t, out);
      } else if m == SEND_TRANSFER {
        r := SendTransfer(group, t, out);
      } else if m == OPTIN {
        r := OptInAsset(group[t]);
      } else if m == GOVERNANCE {
        r := Governance(group, t, out);
      } else {
        return None;
      }
    }

    method Execute(group: seq<Txn>, t: nat, out: Outside) returns (r: Option<seq<Entry>>)
      requires Valid() && t < |group|
      requires forall a | a in group[t].args :: |a| <= 4096
      modifies this, blob
      ensures Did(r, TokenBridge.Execute(env, old(State()), group, t, out))
    {
      hide TokenBridge.Router, TokenBridge.JoinStorage, CellsOf, Move;
      var tx := group[t];
      if tx.kind == Payment || tx.kind == AssetTransfer {
        if tx.kind == AssetTransfer && tx.asset == 0 { return None; }
        var l :- Move(ledger, tx.sender, tx.receiver, if tx.kind == Payment then 0 else tx.asset, tx.amount);
        ledger := l;
        return Some([]);
      }
      if !tx.Calls(env.app.id) { return Some([]); }
      match tx.onCompletion {
        case OptIn => r := JoinStorage(group, t);
        case NoOp => r := Router(group, t, out);
        case _ => return None;
      }
    }

    /** A whole group: a trap anywhere restores what was there before. */
    method Submit(b: Block) returns (r: seq<Entry>)
      requires Valid()
      requires forall i | 0 <= i < |b.group| :: forall a | a in b.group[i].args :: |a| <= 4096
      modifies this, blob
      ensures Valid() && (State(), r) == TokenBridge.Submit(env, old(State()), b)
    {
      hide TokenBridge.Execute, CellsOf;
      if !b.othersAgree { return []; }
      var globals, pages := (chains, updateHash, ledger), blob.accounts;
      r := [];
      var k := 0;
      while k < |b.group|
        invariant k <= |b.group| && Valid() && After(env, old(State()), b, k) == Some((State(), r))
      {
        var step := Execute(b.group, k, b.outside(k));
        if step.None? {
          AfterFails(env, old(State()), b, k + 1, |b.group|);
          chains, updateHash, ledger := globals.0, globals.1, globals.2;
          blob.accounts := pages;
          return [];
        }
        r := r + step.value;
        k := k + 1;
      }
    }
  }

  lemma Undivided(n: uint64)
    ensures Locked(n, 1) == n
  {
  }

  lemma Divided(n: uint64, factor: uint64)
    requires factor >= 1
    ensures 0 <= n / factor < U64 && Locked(n, factor) == n / factor
  {
  }

  lemma NoFactor(n: uint64, factor: uint64)
    ensures factor == 1 ==> n * factor == n
    ensures factor >= 1 ==> (n * factor > 0 <==> n > 0)
  {
  }

  lemma {:induction false} AfterFails(env: Env, st: BridgeState, b: Block, k: nat, n: nat)
    requires k <= n <= |b.group| && After(env, st, b, k) == None
    ensures After(env, st, b, n) == None
  {
    hide Execute;
    if k < n { AfterFails(env, st, b, k, n - 1); }
  }
}
