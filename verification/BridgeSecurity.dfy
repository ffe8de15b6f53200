/** Whom the token bridge believes, over every run: what it releases or attests was published
    by itself or by an address that a committed message of the governor registered, and what it
    pays for a foreign token is the asset created for that token. */
module BridgeSecurity {
  import opened Teal
  import opened Transactions
  import opened Template
  import opened LocalBlob
  import opened Replay
  import opened TokenBridge
  import opened BridgeRuns
  import opened Envelope
  import opened BridgeAccepts

  predicate BridgeCall(env: Env, tx: Txn, name: bytes) {
    tx.kind == ApplicationCall && tx.appId == env.app.id && tx.onCompletion == NoOp && |tx.args| > 0 && tx.args[0] == name
  }

  /** A call with a message of the governor that registers `emitter` for `chain`. */
  predicate Registers(env: Env, tx: Txn, chain: bytes, emitter: bytes) {
    && BridgeCall(env, tx, Ascii("governance")) && |tx.args| > 1 && Framed(tx.args[1]) && EmitterOf(tx.args[1]) == GOVERNOR
    && var p := PayloadOf(tx.args[1]);
       && |p| >= 69 && p[..32] == Zeros(21) + Ascii("TokenBridge") && p[32] == 1
       && (p[33..35] == [0, 0] || p[33..35] == [0, 8]) && p[35..37] == chain && p[37..69] == emitter
  }

  // ---------- the registry ----------

  /** Only such a call adds to the registry, and nothing changes an entry. */
  lemma RegistryStep(env: Env, st: BridgeState, group: seq<Txn>, t: nat, out: Outside, r: (BridgeState, seq<Entry>), chain: bytes)
    requires t < |group| && Execute(env, st, group, t, out) == Some(r)
    ensures chain in st.chains ==> chain in r.0.chains && r.0.chains[chain] == st.chains[chain]
    ensures chain in r.0.chains && chain !in st.chains ==> Registers(env, group[t], chain, r.0.chains[chain])
  {
    hide ReceiveAttest, CompleteTransfer, SendTransfer, Governance, Fresh, Move, EmitterOf, PayloadOf, VerifiesSame, FromBE;
    Names();
    BridgeGovernanceExactly(env, st, group, t, out);
    OthersKeep(env, st, group, t, out);
  }

  lemma OthersKeep(env: Env, st: BridgeState, group: seq<Txn>, t: nat, out: Outside)
    requires t < |group|
    ensures ReceiveAttest(env, st, group, t, out).Some? ==> ReceiveAttest(env, st, group, t, out).value.0.chains == st.chains
    ensures CompleteTransfer(env, st, group, t, out).Some? ==> CompleteTransfer(env, st, group, t, out).value.0.chains == st.chains
    ensures SendTransfer(env, st, group, t, out).Some? ==> SendTransfer(env, st, group, t, out).value.0.chains == st.chains
  {
    hide Mark, MessageOf, AttestGroup, ReadAttestation, Attest, CheckRelease, PayOut, FeePaid, Deposit, FactorOf, Token, Announcement, Btoi;
  }

  /** An entry was there before the group, or one of its calls registered it. */
  lemma {:induction false} RegistryAfter(env: Env, st: BridgeState, b: Block, k: nat, chain: bytes) returns (before: bool, j: nat)
    requires k <= |b.group| && After(env, st, b, k).Some? && chain in After(env, st, b, k).value.0.chains
    ensures before ==> chain in st.chains && After(env, st, b, k).value.0.chains[chain] == st.chains[chain]
    ensures !before ==> j < k && Registers(env, b.group[j], chain, After(env, st, b, k).value.0.chains[chain])
  {
    hide Execute, Registers;
    before, j := true, 0;
    if k > 0 {
      var prev := After(env, st, b, k - 1).value;
      RegistryStep(env, prev.0, b.group, k - 1, b.outside(k - 1), Execute(env, prev.0, b.group, k - 1, b.outside(k - 1)).value, chain);
      if chain in prev.0.chains {
        before, j := RegistryAfter(env, st, b, k - 1, chain);
      } else {
        before, j := false, k - 1;
      }
    }
  }

  lemma CommittedLonger(env: Env, ledger: Ledger, blocks: seq<Block>, n: nat, i: nat)
    requires n <= |blocks| && Committed(env, ledger, blocks[..n], i)
    ensures Committed(env, ledger, blocks, i)
  {
    assert blocks[..n][..i] == blocks[..i];
  }

  /** Whatever address the bridge knows for a chain, a committed message of the governor
      registered it. */
  lemma {:induction false} RegistryFromGovernor(env: Env, ledger: Ledger, blocks: seq<Block>, chain: bytes) returns (i: nat, t: nat)
    requires chain in Run(env, ledger, blocks).0.chains
    ensures Committed(env, ledger, blocks, i) && t < |blocks[i].group|
    ensures Registers(env, blocks[i].group[t], chain, Run(env, ledger, blocks).0.chains[chain])
  {
    hide Registers, After;
    var n := |blocks| - 1;
    var st := Run(env, ledger, blocks[..n]).0;
    if Commits(env, st, blocks[n]) {
      var before, j := RegistryAfter(env, st, blocks[n], |blocks[n].group|, chain);
      if !before { return n, j; }
    }
    i, t := RegistryFromGovernor(env, ledger, blocks[..n], chain);
    CommittedLonger(env, ledger, blocks, n, i);
  }

  // ---------- releases and attestations ----------

  lemma {:induction false} StepOf(env: Env, st: BridgeState, b: Block, t: nat, k: nat)
    requires t < k <= |b.group| && After(env, st, b, k).Some?
    ensures After(env, st, b, t).Some? && Execute(env, After(env, st, b, t).value.0, b.group, t, b.outside(t)).Some?
  {
    hide Execute;
    if t + 1 < k { StepOf(env, st, b, t, k - 1); }
  }

  /** A release or an attestation. */
  predicate TakesMessage(env: Env, tx: Txn) {
    BridgeCall(env, tx, Ascii("completeTransfer")) || BridgeCall(env, tx, Ascii("receiveAttest"))
  }

  /** A release of what the bridge itself sent. */
  predicate OwnMessage(env: Env, tx: Txn) {
    && BridgeCall(env, tx, Ascii("completeTransfer")) && |tx.args| > 1 && Framed(tx.args[1])
    && EmitterOf(tx.args[1]) == [0, 8] + env.app.address
  }

  predicate Listed(chains: map<bytes, bytes>, tx: Txn) {
    && |tx.args| > 1 && Framed(tx.args[1])
    && var e := EmitterOf(tx.args[1]);
       e[..2] in chains && chains[e[..2]] == e[2..]
  }

  /** A committed release or attestation carries a message of an emitter known at that point. */
  lemma EmitterKnown(env: Env, st: BridgeState, b: Block, t: nat)
    requires t < |b.group| && Injective(env.at) && After(env, st, b, |b.group|).Some?
    requires TakesMessage(env, b.group[t])
    ensures After(env, st, b, t).Some?
    ensures OwnMessage(env, b.group[t]) || Listed(After(env, st, b, t).value.0.chains, b.group[t])
  {
    hide After, Injective, Execute, Attests, CompleteTransfer, Sends, Fresh, BridgeGoverns, PaidFrom, TransferBytes, HandedOver, EmitterOf;
    StepOf(env, st, b, t, |b.group|);
    var mid := After(env, st, b, t).value.0;
    BridgeCallExactly(env, mid, b.group, t, b.outside(t));
    BridgeNames();
    if BridgeCall(env, b.group[t], Ascii("completeTransfer")) {
      OnlyReleasable(env, mid, b.group, t, b.outside(t));
      FreshIs(env.at, mid.cells, b.group[t]);
      EmitterLength(b.group[t].args[1]);
    } else {
      AttestsKnown(env, mid, b.group, t, b.outside(t).newAsset);
    }
  }

  lemma AttestsKnown(env: Env, st: BridgeState, group: seq<Txn>, t: nat, newAsset: uint64)
    requires t < |group| && Attests(env, st, group, t, newAsset)
    ensures Listed(st.chains, group[t])
  {
    hide Fresh, FiveInOrder;
    FreshIs(env.at, st.cells, group[t]);
  }

  /** Over every run, whatever the bridge releases or attests was published by the bridge itself
      or by an address for whose chain an earlier committed call registered it with a message of
      the governor. */
  lemma OnlyRegistered(env: Env, ledger: Ledger, blocks: seq<Block>, i: nat, t: nat) returns (own: bool, i': nat, t': nat)
    requires env.at == LocatorOf(env.app) && Committed(env, ledger, blocks, i) && t < |blocks[i].group|
    requires TakesMessage(env, blocks[i].group[t])
    ensures own ==> OwnMessage(env, blocks[i].group[t])
    ensures !own ==> Committed(env, ledger, blocks, i') && (i' < i || (i' == i && t' < t)) && t' < |blocks[i'].group|
    ensures !own ==> |blocks[i].group[t].args| > 1 && Framed(blocks[i].group[t].args[1])
    ensures !own ==> Registers(env, blocks[i'].group[t'], EmitterOf(blocks[i].group[t].args[1])[..2], EmitterOf(blocks[i].group[t].args[1])[2..])
  {
    hide After, Run, Injective, EmitterOf, Registers, BridgeCall;
    LocatorInjective(env.app);
    var b, st := blocks[i], Run(env, ledger, blocks[..i]).0;
    EmitterKnown(env, st, b, t);
    own, i', t' := OwnMessage(env, b.group[t]), i, 0;
    if !own {
      var e := EmitterOf(b.group[t].args[1]);
      EmitterLength(b.group[t].args[1]);
      var before, j := RegistryAfter(env, st, b, t, e[..2]);
      t' := j;
      if before {
        i', t' := RegistryFromGovernor(env, ledger, blocks[..i], e[..2]);
        CommittedLonger(env, ledger, blocks, i, i');
      }
    }
  }

  // ---------- what is released ----------

  /** State and log just before call `t` of a block. */
  ghost function Before(env: Env, ledger: Ledger, before: seq<Block>, b: Block, t: nat): Step
    requires t <= |b.group|
  {
    var run := Run(env, ledger, before);
    var mid :- After(env, run.0, b, t);
    Some((mid.0, run.1 + mid.1))
  }

  /** For a token of this chain the asset whose id the message carries, from its custody
      account; for any other token the one asset ever created for it, from its record. */
  predicate RightAsset(env: Env, trace: seq<Entry>, p: bytes, c: Release)
    requires |p| >= 67
  {
    if p[65..67] == [0, 8] then c.asset == FromBE(p[57..65]) && c.from == env.at(c.asset, Ascii("native"))
    else CreatedIds(trace, FromBE(p[65..67]), p[33..65]) == [c.asset] && c.from == env.at(FromBE(p[65..67]), p[33..65])
  }

  /** Over every run, what is released is the right asset. */
  lemma ReleasedAsset(env: Env, ledger: Ledger, before: seq<Block>, b: Block, t: nat, mid: (BridgeState, seq<Entry>), c: Release)
    requires env.at == LocatorOf(env.app) && t < |b.group| && Before(env, ledger, before, b, t) == Some(mid)
    requires CheckRelease(env, mid.0, b.group, t) == Some(c)
    ensures |b.group[t].args| > 1 && Framed(b.group[t].args[1]) && TransferBytes(PayloadOf(b.group[t].args[1]))
    ensures RightAsset(env, mid.1, PayloadOf(b.group[t].args[1]), c)
  {
    hide After, Run, Injective, CellsOk, CheckRelease, CreatedIds, PayloadOf, FromBE, Fresh, HandedOver, Record, KnownTo;
    LocatorInjective(env.app);
    var run := Run(env, ledger, before);
    RunOk(env, ledger, before);
    AfterOk(env, run.0, run.1, b, t);
    ReleaseExactly(env, mid.0, b.group, t);
    FreshIs(env.at, mid.0.cells, b.group[t]);
    var p := PayloadOf(b.group[t].args[1]);
    OneId(env.at, mid.0.cells, mid.1, FromBE(p[65..67]), p[33..65]);
  }
}
