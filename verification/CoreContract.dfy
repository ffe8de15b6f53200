/** The core contract as it runs: global state in fields, storage accounts as pages, a trap
    half way through a call, and the platform's roll-back. Each method is proved against the
    function of the same name in `Core`, which sees accounts flat. */
module CoreContract {
  import opened Teal
  import opened Transactions
  import opened VaaVerify
  import opened VerifyVaa
  import opened Template
  import opened LocalBlob
  import opened Replay
  import opened Accounts
  import opened Protocol
  import opened Core

  class Contract {
    const env: Env
    const blob: LocalBlob
    var booted: bool
    var setIndex: uint64
    var messageFee: uint64
    var vphash: bytes
    var updateHash: bytes

    constructor (env: Env)
      ensures Valid() && fresh(blob) && this.env == env && State() == CREATED
    {
      this.env := env;
      blob := new LocalBlob();
      booted, setIndex, messageFee, vphash, updateHash := false, 0, 0, [], [];
    }

    ghost predicate Valid()
      reads this, blob
    {
      blob.Valid()
    }

    ghost function State(): CoreState
      requires Valid()
      reads this, blob
    {
      CoreState(booted, setIndex, messageFee, vphash, updateHash, blob.Cells())
    }

    /** The call traps exactly when the specification does; otherwise it leaves the specified
        state and the same trace. */
    ghost predicate Did(r: Option<seq<Event>>, spec: Option<(CoreState, seq<Event>)>)
      reads this, blob
    {
      match spec
      case None => r == None
      case Some(s) => Valid() && State() == s.0 && r == Some(s.1)
    }

    method FeePaid(group: Group, t: nat) returns (ok: bool)
      requires t < |group|
      ensures ok <==> Core.FeePaid(env.app, messageFee, group, t).Pass?
    {
      if messageFee > 0 {
        if t == 0 { return false; }
        var pmt := group[t - 1];
        return pmt.kind == Payment && pmt.amount >= messageFee && pmt.receiver == env.app.address && pmt.rekeyTo == ZERO_ADDRESS;
      }
      return true;
    }

    method PublishMessage(group: Group, t: nat) returns (r: Option<seq<Event>>)
      requires Valid() && t < |group|
      modifies this, blob
      ensures Did(r, Core.PublishMessage(env, old(State()), group, t))
    {
      hide Core.FeePaid, ReadAt, WriteAt, TagAs, CellsOf, FromBE, Itob;
      var tx := group[t];
      var a1 :- tx.Account(1);
      if a1 != env.at(0, tx.sender) { return None; }
      var paid := FeePaid(group, t);
      if !paid { return None; }
      var last :- ReadFrom(blob, a1, 0, 8);
      var n := Btoi(last).value;
      if n + 1 >= U64 { return None; }
      var _ :- WriteTo(blob, a1, 0, Itob(n + 1));
      var _ :- TagWith(blob, a1, PUBLISH_MESSAGE);
      return Some([Published(tx.sender, n + 1)]);
    }

    method CheckForDuplicate(tx: Txn) returns (r: Option<seq<Event>>)
      requires Valid()
      modifies blob
      ensures
        match Core.CheckForDuplicate(env, old(blob.Cells()), tx)
        case None => r == None
        case Some(d) => Valid() && blob.Cells() == d.0 && r == Some(d.1)
    {
      hide Mark, TagAs, CellsOf, MessageOf;
      var m :- MarkMessage(blob, env.at, tx);
      var a1 := tx.Account(1).value;
      var _ :- TagWith(blob, a1, DUPLICATE);
      return Some([Accepted(m)]);
    }

    method StoreSet(a2: bytes, a3: bytes, record: bytes, now: uint64) returns (r: Option<()>)
      requires Valid() && |record| < WINDOW
      modifies blob
      ensures Put(blob, r, Core.StoreSet(old(blob.Cells()), a2, a3, record, now))
    {
      hide WriteAt, TagAs, CellsOf;
      var _ :- WriteTo(blob, a3, 0, record);
      if a3 != a2 {
        if now + GRACE >= U64 { return None; }
        var _ :- WriteTo(blob, a2, 1000, Itob(now + GRACE));
      }
      r := TagWith(blob, a3, GUARDIAN);
    }

    /** The guardian-set branch of `hdlGovernance`; `off` is where the action byte is. */
    method InstallSet(vaa: bytes, off0: nat, tx: Txn, isBoot: bool, now: uint64) returns (r: Option<seq<Event>>)
      requires Valid() && |vaa| > 5 && off0 == ActionOffset(vaa[5])
      modifies this, blob
      ensures Did(r, Core.InstallSet(env, old(State()), vaa, off0, tx, isBoot, now))
    {
      hide Core.StoreSet;
      var set_: int := setIndex;
      var off := off0 + 3;
      var idx :- ReadInt(vaa, off, 4);
      var a2 :- tx.Account(2);
      var a3 :- tx.Account(3);
      if a3 != env.at(idx, GUARDIAN) { return None; }
      if !isBoot && (a3 == a2 || idx != set_ + 1) { return None; }
      setIndex := idx;
      off := off + 4;
      var len :- ReadInt(vaa, off, 1);
      if len == 0 { return None; }
      var record :- Extract(vaa, off, 1 + 20 * len);
      RecordSize(vaa);
      var _ :- StoreSet(a2, a3, record, now);
      return Some([if isBoot then Booted(idx, record[1..]) else Upgraded(vaa, record[1..], now)]);
    }

    method HandleGovernance(tx: Txn, isBoot: bool, now: uint64) returns (r: Option<seq<Event>>)
      requires Valid()
      modifies this, blob
      ensures Did(r, Core.HandleGovernance(env, old(State()), tx, isBoot, now))
    {
      hide Core.InstallSet;
      var vaa :- tx.Arg(1);
      var idx :- ReadInt(vaa, 1, 4);
      if setIndex != 0 && idx != setIndex { return None; }
      var num :- ReadInt(vaa, 5, 1);
      var off := num * 66 + 14;
      var chain :- Extract(vaa, off, 2);
      if chain != [0, 1] { return None; }
      var emitter :- Extract(vaa, off + 2, 32);
      if emitter != GOVERNANCE_EMITTER { return None; }
      off := off + 43;
      var module_ :- Extract(vaa, off, 32);
      if module_ != CORE_MODULE { return None; }
      off := off + 32;
      var tchain :- Extract(vaa, off + 1, 2);
      var a := vaa[off];
      if a == 1 {
        if tchain != THIS_CHAIN { return None; }
        var hash :- Extract(vaa, off + 3, 32);
        updateHash := hash;
        return Some([]);
      } else if a == 2 {
        if tchain != THIS_CHAIN && tchain != ANY_CHAIN { return None; }
        r := InstallSet(vaa, off, tx, isBoot, now);
      } else if a == 3 {
        if tchain != THIS_CHAIN { return None; }
        var fee :- ReadInt(vaa, off + 27, 8);
        messageFee := fee;
        return Some([]);
      } else if a == 4 {
        if tchain != THIS_CHAIN { return None; }
        var payout :- Extract(vaa, off + 27, 40);
        return Some([]);
      } else {
        return None;
      }
    }

    method Init(tx: Txn, now: uint64) returns (r: Option<seq<Event>>)
      requires Valid()
      modifies this, blob
      ensures Did(r, Core.Init(env, old(State()), tx, now))
    {
      hide Core.CheckForDuplicate, Core.HandleGovernance;
      var hash :- tx.Arg(2);
      vphash := hash;
      if tx.sender != env.creator { return None; }
      if booted { return None; }
      booted := true;
      var d :- CheckForDuplicate(tx);
      var g :- HandleGovernance(tx, true, now);
      return Some(d + g);
    }

    method Governance(group: Group, t: nat, now: uint64) returns (r: Option<seq<Event>>)
      requires Valid() && t < |group|
      modifies this, blob
      ensures Did(r, Core.Governance(env, old(State()), group, t, now))
    {
      hide Core.CheckForDuplicate, Core.HandleGovernance;
      var tx := group[t];
      var d :- CheckForDuplicate(tx);
      if t == 0 { return None; }
      var prev := group[t - 1];
      if !(prev.Calls(tx.appId) && prev.Arg(0) == Some(VERIFY_VAA) && prev.sender == tx.sender
           && prev.rekeyTo == ZERO_ADDRESS && prev.onCompletion == NoOp
           && prev.Arg(1) == tx.Arg(1) && tx.rekeyTo == ZERO_ADDRESS
           && prev.Account(1) == tx.Account(1)
           && prev.Account(2) == tx.Account(2) && tx.Account(2).Some?) {
        return None;
      }
      var g :- HandleGovernance(tx, false, now);
      return Some(d + g);
    }

    method LoadSet(a2: bytes) returns (r: Option<StoredSet>)
      requires Valid() && a2 in blob.accounts
      ensures r == VerifyVaa.LoadSet(blob.Cells()[a2])
    {
      hide FromBE, CellOf, CellGet, CellRead;
      Fields(blob.Cells()[a2]);
      var n: nat := blob.GetByte(a2, 0).value;
      if n == 0 { return None; }
      var keys :- blob.Read(a2, 1, 1 + 20 * n);
      var expiry := blob.Read(a2, 1000, 1008);
      return Some(StoredSet(n, keys, Btoi(expiry.value).value));
    }

    /** The signatures are enough, and the calls in front have verified every one of them. */
    method AllCovered(group: Group, t: nat, vaa: bytes, set_: StoredSet) returns (ok: bool)
      requires t < |group|
      ensures ok <==>
        && Digest(env.crypto, vaa).Some? && Quorate(set_.n, vaa[5])
        && t > 0 && |group[t - 1].args| > 0
        && Scan(group, RunStart(group, t - 1), t, vphash, vaa, set_.keys, Digest(env.crypto, vaa).value, 6, NO_HITS) == Some(SigStart(vaa[5]))
    {
      hide Scan, RunStart;
      if |vaa| <= 5 { return false; }
      var num: nat := vaa[5];
      var off := 6 + num * 66;
      if off > |vaa| { return false; }
      var digest := env.crypto.keccak(env.crypto.keccak(vaa[off..]));
      if num > set_.n || num <= set_.n * 2 / 3 { return false; }
      var start := BackWalk(group, t);
      if start.None? { return false; }
      var end := ScanRun(group, start.value, t, vphash, vaa, set_.keys, digest);
      return end == Some(6 + num * 66);
    }

    /** The state is only read. */
    method VerifyVAA(group: Group, t: nat, now: uint64) returns (r: Option<StoredSet>)
      requires Valid() && t < |group|
      ensures r == VerifyVaa.VerifyVAA(env.crypto, env.at, blob.Cells(), vphash, group, t, now)
    {
      hide Scan, RunStart, VerifyVaa.LoadSet, CellOf, FromBE, Digest, Quorate;
      var tx := group[t];
      var vaa :- tx.Arg(1);
      var idx :- ReadInt(vaa, 1, 4);
      var a2 :- tx.Account(2);
      if a2 != env.at(idx, GUARDIAN) { return None; }
      var tag := blob.CheckMeta(a2, GUARDIAN);
      if tag.Trap? { return None; }
      var set_ :- LoadSet(a2);
      if set_.expiry != 0 && now >= set_.expiry { return None; }
      var covered := AllCovered(group, t, vaa, set_);
      if !covered { return None; }
      return Some(set_);
    }

    method JoinStorage(group: Group, t: nat) returns (r: Option<seq<Event>>)
      requires Valid() && t < |group|
      modifies blob
      ensures Did(r, Core.JoinStorage(env, old(State()), group, t))
    {
      var tx := group[t];
      if t == 0 || tx.rekeyTo != env.app.address || tx.args != [] { return None; }
      var seed := group[t - 1];
      if seed.kind != Payment || seed.amount != env.seed || seed.receiver != tx.sender { return None; }
      if tx.sender in blob.accounts { return None; }
      blob.Zero(tx.sender);
      return Some([]);
    }

    /** The router. */
    method Call(group: Group, t: nat, now: uint64) returns (r: Option<seq<Event>>)
      requires Valid() && t < |group|
      modifies this, blob
      ensures Did(r, Core.Call(env, old(State()), group, t, now))
    {
      hide Core.PublishMessage, Core.Init, Core.Governance, Core.JoinStorage, VerifyVaa.VerifyVAA;
      var tx := group[t];
      if !tx.Calls(env.app.id) { return Some([]); }
      match tx.onCompletion {
        case OptIn =>
          r := JoinStorage(group, t);
        case NoOp =>
          var m :- tx.Arg(0);
          if m == PUBLISH_MESSAGE {
            r := PublishMessage(group, t);
          } else if m == NOP {
            return Some([]);
          } else if m == INIT {
            r := Init(tx, now);
          } else if m == VERIFY_SIGS {
            return if tx.sender == vphash then Some([]) else None;
          } else if m == VERIFY_VAA {
            var set_ :- VerifyVAA(group, t, now);
            var vaa :- tx.Arg(1);
            var idx :- ReadInt(vaa, 1, 4);
            return Some([Verified(vaa, idx, now)]);
          } else if m == GOVERNANCE {
            r := Governance(group, t, now);
          } else {
            return None;
          }
        case _ =>
          return None;
      }
    }

    /** Runs the stateless program for every transaction that claims its address. */
    method Authorise(group: Group) returns (ok: bool)
      ensures ok <==> Authorised(env.crypto, env.verifier, group)
    {
      for i := 0 to |group|
        invariant forall j | 0 <= j < i && group[j].sender == env.verifier :: Approves(env.crypto, group[j])
      {
        var t := group[i];
        if t.sender == env.verifier {
          if t.rekeyTo != ZERO_ADDRESS || t.fee != 0 || t.kind != ApplicationCall || |t.args| <= 3 { return false; }
          var sigs := SigCheck(env.crypto, t.args[1], t.args[3], t.args[2]);
          if sigs.None? { return false; }
        }
      }
      return true;
    }

    /** A whole group: the calls run in order, and a trap restores what was there before. */
    method Submit(group: Group, now: uint64) returns (r: seq<Event>)
      requires Valid()
      modifies this, blob
      ensures Valid() && (State(), r) == Core.Submit(env, old(State()), group, now)
    {
      hide Core.Call;
      var ok := Authorise(group);
      if !ok { return []; }
      var globals, pages := (booted, setIndex, messageFee, vphash, updateHash), blob.accounts;
      r := [];
      var k := 0;
      while k < |group|
        invariant k <= |group| && Valid() && After(env, old(State()), group, now, k) == Some((State(), r))
      {
        var step := Call(group, k, now);
        if step.None? {
          AfterFails(env, old(State()), group, now, k + 1, |group|);
          booted, setIndex, messageFee, vphash, updateHash := globals.0, globals.1, globals.2, globals.3, globals.4;
          blob.accounts := pages;
          return [];
        }
        r := r + step.value;
        k := k + 1;
      }
    }
  }

  lemma RecordSize(vaa: bytes)
    requires SetRecord(vaa).Some?
    ensures |SetRecord(vaa).value| < WINDOW
  {
  }

  lemma {:induction false} AfterFails(env: Env, st: CoreState, group: Group, now: uint64, k: nat, n: nat)
    requires k <= n <= |group| && After(env, st, group, now, k) == None
    ensures After(env, st, group, now, n) == None
  {
    if k < n { AfterFails(env, st, group, now, k, n - 1); }
  }

  /** Where a stored set's size and expiry are. */
  lemma Fields(c: Cell)
    ensures CellGet(c, 0) == Some(c.flat[0]) && CellRead(c, 1000, 1008) == Some(c.flat[1000..1008])
    ensures FromBE(c.flat[1000..1008]) < U64 && Btoi(c.flat[1000..1008]) == Some(FromBE(c.flat[1000..1008]))
  {
    hide FromBE;
    FromBEBound(c.flat[1000..1008]);
  }
}
