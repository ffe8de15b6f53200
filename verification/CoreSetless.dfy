/** The life of the core contract in three phases: created, booted without a guardian set, and
    ruled by one. Which phase a run reaches is decided by its one `init`, for good. Nothing is
    assumed of the run, the addresses or the keys. */
module CoreSetless {
  import opened Teal
  import opened Transactions
  import opened VerifyVaa
  import opened LocalBlob
  import opened Replay
  import opened Accounts
  import opened Protocol
  import opened Core
  import CoreRefinement
  import CoreEffects
  import CoreTheorems
  import ContractReads
  import VaaPrint

  datatype Phase = Fresh | Setless | Ruled

  function PhaseOf(st: CoreState, trace: seq<Event>): Phase {
    if Line(trace) != [] then Ruled else if st.booted then Setless else Fresh
  }

  predicate IsCall(env: Env, tx: Txn, name: bytes) {
    tx.Calls(env.app.id) && tx.onCompletion == NoOp && tx.Arg(0) == Some(name)
  }

  /** The action byte of the message is the one for a guardian set. */
  predicate InstallsSet(tx: Txn) {
    && |tx.args| > 1 && |tx.args[1]| > 5 && ActionOffset(tx.args[1][5]) < |tx.args[1]|
    && tx.args[1][ActionOffset(tx.args[1][5])] == 2
  }

  /** Only `init` leaves the first phase, and only a guardian-set message brings a set. */
  function Next(env: Env, phase: Phase, tx: Txn): Phase {
    if phase != Fresh || !IsCall(env, tx, INIT) then phase
    else if InstallsSet(tx) then Ruled
    else Setless
  }

  /** The calls that cannot succeed: `init` after the first phase, and whatever needs a
      guardian set while there is none. */
  predicate Admits(env: Env, phase: Phase, tx: Txn) {
    && (IsCall(env, tx, INIT) ==> phase == Fresh)
    && (IsCall(env, tx, VERIFY_VAA) || IsCall(env, tx, GOVERNANCE) ==> phase == Ruled)
  }

  // ---------- one call ----------

  /** Without a set in the log there is none in the accounts. */
  predicate Sound(st: CoreState, trace: seq<Event>) {
    && (Line(trace) == [] ==> NoGuardians(st.cells))
    && (Line(trace) != [] ==> st.booted)
  }

  predicate NoGuardians(cells: Cells) {
    forall a | a in cells :: cells[a].tag != Some(GUARDIAN)
  }

  lemma LineStep(trace: seq<Event>, ev: Event)
    ensures (ev.Booted? ==> Line(trace + [ev]) != [])
    ensures (ev.Upgraded? ==> (Line(trace + [ev]) == [] <==> Line(trace) == []))
    ensures !ev.Booted? && !ev.Upgraded? ==> Line(trace + [ev]) == Line(trace)
  {
    assert (trace + [ev])[..|trace|] == trace;
  }

  lemma DuplicateTags(env: Env, cells: Cells, tx: Txn, d: (Cells, seq<Event>), trace: seq<Event>)
    requires CheckForDuplicate(env, cells, tx) == Some(d)
    ensures NoGuardians(cells) ==> NoGuardians(d.0)
    ensures Line(trace + d.1) == Line(trace)
  {
    hide MarkBit, FromBE;
    var m := MessageOf(tx.args[1]).value;
    LineStep(trace, Accepted(m));
  }

  lemma PublishTags(env: Env, st: CoreState, group: Group, t: nat, r: (CoreState, seq<Event>), trace: seq<Event>)
    requires t < |group| && PublishMessage(env, st, group, t) == Some(r)
    ensures NoGuardians(st.cells) ==> NoGuardians(r.0.cells)
    ensures Line(trace + r.1) == Line(trace) && r.0.booted == st.booted
  {
    LineStep(trace, r.1[0]);
  }

  /** A message installs a set exactly when its action byte says so. */
  lemma GovernanceLine(env: Env, st: CoreState, tx: Txn, isBoot: bool, now: uint64, g: (CoreState, seq<Event>), trace: seq<Event>)
    requires HandleGovernance(env, st, tx, isBoot, now) == Some(g)
    ensures g.0.booted == st.booted
    ensures isBoot ==> (Line(trace + g.1) != [] <==> Line(trace) != [] || InstallsSet(tx))
    ensures !isBoot ==> (Line(trace + g.1) != [] <==> Line(trace) != [])
    ensures isBoot && Line(trace + g.1) == [] && NoGuardians(st.cells) ==> NoGuardians(g.0.cells)
  {
    hide HandleGovernance, InstallSet;
    CoreRefinement.OtherActions(env, st, tx, isBoot, now, g);
    if InstallsSet(tx) {
      var _, _, _ := CoreEffects.InstallParts(env, st, tx.args[1], ActionOffset(tx.args[1][5]), tx, isBoot, now, g);
      LineStep(trace, g.1[0]);
    } else {
      assert trace + g.1 == trace;
    }
  }

  lemma InitPhase(env: Env, st: CoreState, tx: Txn, now: uint64, r: (CoreState, seq<Event>), trace: seq<Event>)
    requires Init(env, st, tx, now) == Some(r) && Sound(st, trace)
    ensures PhaseOf(st, trace) == Fresh
    ensures Sound(r.0, trace + r.1) && PhaseOf(r.0, trace + r.1) == if InstallsSet(tx) then Ruled else Setless
  {
    hide CheckForDuplicate, HandleGovernance, Line, NoGuardians, InstallsSet;
    var d := CheckForDuplicate(env, st.cells, tx).value;
    var st1 := st.(vphash := tx.args[2], booted := true, cells := d.0);
    var g := HandleGovernance(env, st1, tx, true, now).value;
    DuplicateTags(env, st.cells, tx, d, trace);
    GovernanceLine(env, st1, tx, true, now, g, trace + d.1);
    assert trace + d.1 + g.1 == trace + r.1;
  }

  lemma GovernancePhase(env: Env, st: CoreState, group: Group, t: nat, now: uint64, r: (CoreState, seq<Event>), trace: seq<Event>)
    requires 0 < t < |group| && Governance(env, st, group, t, now) == Some(r)
    requires Sound(st, trace) && Line(trace) != []
    ensures Sound(r.0, trace + r.1) && PhaseOf(r.0, trace + r.1) == Ruled
  {
    hide CheckForDuplicate, HandleGovernance, Governance, Line, NoGuardians, InstallsSet;
    var d, g := CoreRefinement.GovernanceParts(env, st, group, t, now, r);
    DuplicateTags(env, st.cells, group[t], d, trace);
    GovernanceLine(env, st.(cells := d.0), group[t], false, now, g, trace + d.1);
    assert trace + d.1 + g.1 == trace + r.1;
  }

  /** `verifyVAA` reads a tagged account, so there must be one. */
  lemma VerifyNeedsSet(env: Env, st: CoreState, group: Group, t: nat, now: uint64, trace: seq<Event>)
    requires t < |group| && VerifyVAA(env.crypto, env.at, st.cells, st.vphash, group, t, now).Some? && Sound(st, trace)
    ensures Line(trace) != []
  {
    hide VerifyVAA, Line;
    NamedSet(env.crypto, env.at, st.cells, st.vphash, group, t, now);
  }

  /** Every call that succeeds is one its phase admits, and moves the phase as it should. */
  lemma CallPhase(env: Env, st0: CoreState, group: Group, now: uint64, t: nat, r: (CoreState, seq<Event>), trace: seq<Event>)
    requires t < |group| && After(env, st0, group, now, t).Some?
    requires Call(env, After(env, st0, group, now, t).value.0, group, t, now) == Some(r)
    requires Sound(After(env, st0, group, now, t).value.0, trace)
    ensures
      var before := PhaseOf(After(env, st0, group, now, t).value.0, trace);
      && Sound(r.0, trace + r.1)
      && PhaseOf(r.0, trace + r.1) == Next(env, before, group[t])
      && Admits(env, before, group[t])
  {
    hide PublishMessage, Init, Governance, VerifyVAA, Line, InstallsSet, NoGuardians;
    var st, tx := After(env, st0, group, now, t).value.0, group[t];
    assert trace + [] == trace;
    if tx.Calls(env.app.id) {
      if tx.onCompletion == OptIn {
        JoinTags(env, st, group, t, r);
      } else {
        var m := tx.args[0];
        if m == PUBLISH_MESSAGE {
          PublishTags(env, st, group, t, r, trace);
        } else if m == INIT {
          InitPhase(env, st, tx, now, r, trace);
        } else if m == VERIFY_VAA {
          VerifyNeedsSet(env, st, group, t, now, trace);
          LineStep(trace, r.1[0]);
        } else if m == GOVERNANCE {
          CoreEffects.NotFirst(env, st, group, t, now, r);
          CoreEffects.VerifiedBefore(env, st, group, t, now, r);
          CoreRefinement.VerifiedJustBefore(env, st0, group, now, t);
          VerifyNeedsSet(env, st, group, t - 1, now, trace);
          GovernancePhase(env, st, group, t, now, r, trace);
        }
      }
    }
  }

  lemma JoinTags(env: Env, st: CoreState, group: Group, t: nat, r: (CoreState, seq<Event>))
    requires t < |group| && JoinStorage(env, st, group, t) == Some(r)
    ensures r.1 == [] && r.0.booted == st.booted && (NoGuardians(st.cells) ==> NoGuardians(r.0.cells))
  {
  }

  // ---------- groups and runs ----------

  function GroupPhase(env: Env, phase: Phase, group: Group, k: nat): Phase
    requires k <= |group|
  {
    if k == 0 then phase else Next(env, GroupPhase(env, phase, group, k - 1), group[k - 1])
  }

  predicate GroupAdmitted(env: Env, phase: Phase, group: Group, k: nat)
    requires k <= |group|
  {
    forall j | 0 <= j < k :: Admits(env, GroupPhase(env, phase, group, j), group[j])
  }

  lemma {:induction false} AfterPhase(env: Env, st: CoreState, group: Group, now: uint64, k: nat, trace: seq<Event>)
    requires k <= |group| && After(env, st, group, now, k).Some? && Sound(st, trace)
    ensures
      var r := After(env, st, group, now, k).value;
      && Sound(r.0, trace + r.1)
      && PhaseOf(r.0, trace + r.1) == GroupPhase(env, PhaseOf(st, trace), group, k)
      && GroupAdmitted(env, PhaseOf(st, trace), group, k)
  {
    hide Call, Sound, PhaseOf, Next, Admits;
    if k == 0 {
      assert trace + [] == trace;
    } else {
      var before := After(env, st, group, now, k - 1).value;
      var step := Call(env, before.0, group, k - 1, now).value;
      AfterPhase(env, st, group, now, k - 1, trace);
      CallPhase(env, st, group, now, k - 1, step, trace + before.1);
      assert trace + before.1 + step.1 == trace + (before.1 + step.1);
    }
  }

  ghost function RunPhase(env: Env, blocks: seq<Block>): Phase {
    PhaseOf(Run(env, blocks).0, Run(env, blocks).1)
  }

  /** A run moves through the phases as its committed groups say, and all they contain was
      admitted. */
  lemma {:induction false} PhasesOfRun(env: Env, blocks: seq<Block>)
    ensures Sound(Run(env, blocks).0, Run(env, blocks).1)
    ensures blocks != [] ==>
      var n := |blocks| - 1;
      var before := RunPhase(env, blocks[..n]);
      if Committed(env, blocks, n) then
        && RunPhase(env, blocks) == GroupPhase(env, before, blocks[n].group, |blocks[n].group|)
        && GroupAdmitted(env, before, blocks[n].group, |blocks[n].group|)
      else RunPhase(env, blocks) == before
  {
    hide After, Sound, PhaseOf, GroupPhase, GroupAdmitted, Committed, Submit;
    if blocks == [] {
      assert Sound(CREATED, []) by { FreshIsSound(); }
    } else {
      var n := |blocks| - 1;
      PhasesOfRun(env, blocks[..n]);
      RunLast(env, blocks);
      var before, b := Run(env, blocks[..n]), blocks[n];
      assert before.1 + [] == before.1;
      if Committed(env, blocks, n) {
        AfterPhase(env, before.0, b.group, b.now, |b.group|, before.1);
      }
    }
  }

  lemma FreshIsSound()
    ensures Sound(CREATED, [])
  {
  }

  /** A phase once left is never entered again. */
  lemma {:induction false} LaterGroup(env: Env, phase: Phase, group: Group, j: nat, k: nat)
    requires j <= k <= |group| && GroupPhase(env, phase, group, j) != Fresh
    ensures GroupPhase(env, phase, group, k) == GroupPhase(env, phase, group, j)
  {
    if j < k { LaterGroup(env, phase, group, j, k - 1); }
  }

  lemma {:induction false} LaterRun(env: Env, blocks: seq<Block>, more: seq<Block>)
    requires RunPhase(env, blocks) != Fresh
    ensures RunPhase(env, blocks + more) == RunPhase(env, blocks)
  {
    hide RunPhase, GroupAdmitted, Committed, GroupPhase, Run;
    if more == [] {
      assert blocks + more == blocks;
    } else {
      var all, n := blocks + more, |blocks + more| - 1;
      assert all[..n] == blocks + more[..|more| - 1];
      LaterRun(env, blocks, more[..|more| - 1]);
      PhasesOfRun(env, all);
      PhaseFrom(env, RunPhase(env, all[..n]), all[n].group);
    }
  }

  lemma PhaseFrom(env: Env, phase: Phase, group: Group)
    ensures phase != Fresh ==> GroupPhase(env, phase, group, |group|) == phase
  {
    if phase != Fresh { LaterGroup(env, phase, group, 0, |group|); }
  }

  lemma InitGroup(env: Env, phase: Phase, group: Group, t: nat)
    requires t < |group| && GroupAdmitted(env, phase, group, |group|) && IsCall(env, group[t], INIT)
    ensures GroupPhase(env, phase, group, |group|) == if InstallsSet(group[t]) then Ruled else Setless
  {
    hide IsCall, InstallsSet;
    assert Admits(env, GroupPhase(env, phase, group, t), group[t]);
    LaterGroup(env, phase, group, t + 1, |group|);
  }

  /** The one `init` of a run decides: after it the contract has a guardian set if and only if
      the action byte of its message was 2, at the end of every longer run. */
  lemma InitDecides(env: Env, blocks: seq<Block>, i: nat, t: nat)
    requires Committed(env, blocks, i) && t < |blocks[i].group| && IsCall(env, blocks[i].group[t], INIT)
    ensures Run(env, blocks).0.booted
    ensures Line(Run(env, blocks).1) != [] <==> InstallsSet(blocks[i].group[t])
  {
    hide Run, Line, IsCall, InstallsSet, GroupPhase, GroupAdmitted;
    PhasesOfRun(env, blocks);
    var upTo, group := blocks[..i + 1], blocks[i].group;
    assert upTo[..i] == blocks[..i] && upTo[i] == blocks[i] && upTo + blocks[i + 1..] == blocks;
    PhasesOfRun(env, upTo);
    InitGroup(env, RunPhase(env, upTo[..i]), group, t);
    LaterRun(env, upTo, blocks[i + 1..]);
  }

  /** Without a set, nothing of a committed group was a call that needs one or boots. */
  lemma Locked(env: Env, blocks: seq<Block>, i: nat, t: nat)
    requires Committed(env, blocks, i) && t < |blocks[i].group|
    requires RunPhase(env, blocks[..i]) == Setless
    ensures !NeedsSet(env, blocks[i].group[t])
  {
    hide Run, Line, IsCall, InstallsSet;
    var upTo, group := blocks[..i + 1], blocks[i].group;
    assert upTo[..i] == blocks[..i] && upTo[i] == blocks[i];
    PhasesOfRun(env, upTo);
    LaterGroup(env, Setless, group, 0, t);
    assert Admits(env, GroupPhase(env, Setless, group, t), group[t]);
  }

  /** The calls a contract without a set can never answer. */
  predicate NeedsSet(env: Env, tx: Txn) {
    IsCall(env, tx, INIT) || IsCall(env, tx, GOVERNANCE) || IsCall(env, tx, VERIFY_VAA)
  }

  /** A contract booted without a set stays so: no later group with an `init`, `governance` or
      `verifyVAA` call commits. */
  lemma NoWayBack(env: Env, blocks: seq<Block>, more: seq<Block>)
    requires Run(env, blocks).0.booted && Line(Run(env, blocks).1) == []
    ensures Run(env, blocks + more).0.booted && Line(Run(env, blocks + more).1) == []
    ensures forall i: nat, t: nat |
      |blocks| <= i && Committed(env, blocks + more, i) && t < |(blocks + more)[i].group| ::
      !NeedsSet(env, (blocks + more)[i].group[t])
  {
    var all := blocks + more;
    LaterRun(env, blocks, more);
    PhasesOfRun(env, all);
    hide Run, Line, NeedsSet, RunPhase, Committed;
    forall i: nat, t: nat | |blocks| <= i && Committed(env, all, i) && t < |all[i].group|
      ensures !NeedsSet(env, all[i].group[t])
    {
      CoreRefinement.CommittedInside(env, all, i);
      LaterRun(env, blocks, all[|blocks|..i]);
      assert blocks + all[|blocks|..i] == all[..i];
      Locked(env, all, i, t);
    }
  }

  // ---------- such a boot goes through ----------

  /** A fee message of the governance emitter, unsigned, as the generator writes it. */
  predicate IsFeeMessage(vaa: bytes, keys: VaaPrint.Keys, h: VaaPrint.Header, amount: uint64) {
    && h.chain == 1 && h.emitter == GOVERNANCE_EMITTER && h.sequence < U64
    && var p := VaaPrint.SetFeePayload(amount);
       p.Some? && VaaPrint.SignedVaa(keys, 1, 0, [], h, p.value) == Some(vaa)
  }

  lemma FeeGoverns(env: Env, st: CoreState, tx: Txn, now: uint64, keys: VaaPrint.Keys, h: VaaPrint.Header, amount: uint64)
    requires |tx.args| > 1 && IsFeeMessage(tx.args[1], keys, h, amount) && st.setIndex == 0
    ensures HandleGovernance(env, st, tx, true, now) == Some((st.(messageFee := amount), [])) && !InstallsSet(tx)
    ensures MessageOf(tx.args[1]) == Some(Message([0, 1] + GOVERNANCE_EMITTER, h.sequence))
  {
    hide FromBE, InstallSet, VaaPrint.SignedVaa, VaaPrint.SetFeePayload;
    var vaa, p := tx.args[1], VaaPrint.SetFeePayload(amount).value;
    ContractReads.MessageRead(keys, 0, [], h, p, vaa);
    ContractReads.FeeFields(vaa, amount, p);
    assert ToBE(1, 2) == [0, 1] by { assert ToBE(0, 1) == ToBE(0, 0) + [0]; assert ToBE(1, 2) == ToBE(0, 1) + [1]; }
    var off := vaa[5] as nat * 66 + 14;
    SliceOfSlice(vaa, off, off + 34, 0, 2);
    SliceOfSlice(vaa, off, off + 34, 2, 34);
  }

  /** An ordinary call of the core contract. */
  function Calling(env: Env, sender: bytes, accounts: seq<bytes>, args: seq<bytes>): Txn {
    Txn(ApplicationCall, sender, ZERO_ADDRESS, ZERO_ADDRESS, ZERO_ADDRESS, 0, env.app.id, NoOp, accounts, args, ZERO_ADDRESS, 0, 0)
  }

  /** Opening a storage account: a payment and the opt-in. */
  function Opening(env: Env, payer: bytes, store: bytes): Group {
    [ Txn(Payment, payer, ZERO_ADDRESS, ZERO_ADDRESS, ZERO_ADDRESS, 0, 0, NoOp, [], [], store, env.seed, 0),
      Calling(env, store, [], []).(rekeyTo := env.app.address, onCompletion := OptIn) ]
  }

  lemma OpeningJoins(env: Env, st: CoreState, payer: bytes, store: bytes, now: uint64)
    requires store !in st.cells
    ensures After(env, st, Opening(env, payer, store), now, 2) == Some((st.(cells := st.cells[store := EMPTY_CELL]), []))
  {
    hide Splice;
    var group, none: seq<Event> := Opening(env, payer, store), [];
    assert none + none == none;
    assert Call(env, st, group, 0, now) == Some((st, []));
    assert After(env, st, group, now, 0) == Some((st, []));
    assert After(env, st, group, now, 1) == Some((st, []));
    assert JoinStorage(env, st, group, 1) == Some((st.(cells := st.cells[store := EMPTY_CELL]), []));
  }

  lemma FeeInit(env: Env, st: CoreState, tx: Txn, now: uint64, keys: VaaPrint.Keys, h: VaaPrint.Header, amount: uint64, store: bytes)
    requires |tx.args| > 2 && IsFeeMessage(tx.args[1], keys, h, amount)
    requires st == CREATED.(cells := map[store := EMPTY_CELL]) && tx.sender == env.creator
    requires store == env.at(SlotOf(h.sequence).block, [0, 1] + GOVERNANCE_EMITTER) && tx.Account(1) == Some(store)
    ensures Init(env, st, tx, now).Some? && !InstallsSet(tx)
  {
    hide FromBE, HandleGovernance, IsFeeMessage, MarkBit, MessageOf, InstallsSet;
    var s := SlotOf(h.sequence);
    FeeGoverns(env, st, tx, now, keys, h, amount);
    ZeroHasNoBits(s.bit);
    var d := CheckForDuplicate(env, st.cells, tx);
    FeeGoverns(env, st.(vphash := tx.args[2], booted := true, cells := d.value.0), tx, now, keys, h, amount);
  }

  lemma TwoBlocks(env: Env, b0: Block, b1: Block, st: CoreState)
    requires Authorised(env.crypto, env.verifier, b0.group) && Authorised(env.crypto, env.verifier, b1.group)
    requires After(env, CREATED, b0.group, b0.now, |b0.group|) == Some((st, []))
    requires After(env, st, b1.group, b1.now, |b1.group|).Some?
    ensures Committed(env, [b0, b1], 0) && Committed(env, [b0, b1], 1)
  {
    hide After, Authorised;
    assert [b0, b1][..0] == [] && [b0, b1][..1] == [b0];
    assert [b0][..0] == [];
    assert Run(env, [b0]) == (st, [] + []);
  }

  /** Opening the account for the message's mark, and `init` with the message. */
  function FeeBoot(env: Env, vaa: bytes, store: bytes, now: uint64): seq<Block> {
    [Block(Opening(env, env.creator, store), now), Block([FeeCall(env, vaa, store)], now)]
  }

  function FeeCall(env: Env, vaa: bytes, store: bytes): Txn {
    Calling(env, env.creator, [store], [INIT, vaa, env.verifier])
  }

  /** What runs are assumed to keep, this one keeps. */
  lemma Ordinary(env: Env, store: bytes, vaa: bytes, now: uint64)
    requires CoreRefinement.IsAddress(store) && |env.creator| == 32 && !InstallsSet(FeeCall(env, vaa, store))
    ensures
      var blocks := FeeBoot(env, vaa, store, now);
      CoreEffects.AddressedRun(env, blocks) && CoreEffects.SparingRun(env, blocks) && CoreRefinement.GoodRun(env, blocks)
  {
    hide Committed, SetRecord, CoreEffects.IsReplayAccount;
    var blocks := FeeBoot(env, vaa, store, now);
    forall i: nat | Committed(env, blocks, i)
      ensures i < 2 && CoreEffects.Addressed(blocks[i].group) && CoreEffects.GroupSpares(env, blocks[i].group) && CoreRefinement.GoodGroup(env, blocks[i].group)
    {
      CoreRefinement.CommittedInside(env, blocks, i);
    }
  }

  /** Right after creation, `init` with a fee message commits, in an ordinary run, and leaves
      the contract booted without a set; by `NoWayBack` for good. */
  lemma FeeMessageBoots(env: Env, vaa: bytes, keys: VaaPrint.Keys, h: VaaPrint.Header, amount: uint64, now: uint64)
    requires CoreTheorems.IsDeployed(env) && |env.creator| == |env.verifier| == 32 && env.creator != env.verifier
    requires IsFeeMessage(vaa, keys, h, amount)
    ensures
      var store := env.at(SlotOf(h.sequence).block, [0, 1] + GOVERNANCE_EMITTER);
      var blocks := FeeBoot(env, vaa, store, now);
      && Committed(env, blocks, 0) && Committed(env, blocks, 1)
      && Run(env, blocks).0.booted && Line(Run(env, blocks).1) == []
      && CoreEffects.AddressedRun(env, blocks) && CoreEffects.SparingRun(env, blocks) && CoreRefinement.GoodRun(env, blocks)
  {
    hide IsFeeMessage, Init, JoinStorage, Line, InstallsSet, Run, Committed, CoreEffects.AddressedRun, CoreEffects.SparingRun, CoreRefinement.GoodRun;
    var owner := [0, 1] + GOVERNANCE_EMITTER;
    var store := env.at(SlotOf(h.sequence).block, owner);
    CoreRefinement.ProgramIsAddress(env.app, SlotOf(h.sequence).block, owner);
    var tx := FeeCall(env, vaa, store);
    var st := CREATED.(cells := map[store := EMPTY_CELL]);
    OpeningJoins(env, CREATED, env.creator, store, now);
    FeeInit(env, st, tx, now, keys, h, amount, store);
    Ordinary(env, store, vaa, now);
    OneCall(env, st, tx, now);
    TwoBlocks(env, Block(Opening(env, env.creator, store), now), Block([tx], now), st);
    InitDecides(env, FeeBoot(env, vaa, store, now), 1, 0);
  }

  lemma OneCall(env: Env, st: CoreState, tx: Txn, now: uint64)
    requires IsCall(env, tx, INIT) && Init(env, st, tx, now).Some?
    ensures After(env, st, [tx], now, 1).Some?
  {
    hide Init;
    assert After(env, st, [tx], now, 0) == Some((st, []));
  }

  lemma FeeMessageExists(keys: VaaPrint.Keys, amount: uint64, sequence: uint64)
    ensures
      var h := VaaPrint.Header(0, 0, 1, GOVERNANCE_EMITTER, sequence, 0);
      && VaaPrint.SetFeePayload(amount).Some?
      && VaaPrint.SignedVaa(keys, 1, 0, [], h, VaaPrint.SetFeePayload(amount).value).Some?
  {
    hide ToBE, VaaPrint.SignaturesTo;
    Pow256();
    PowMonotone(8, 32);
  }

  /** The fee message of a given number, from the generator. */
  function FeeVaa(keys: VaaPrint.Keys, amount: uint64, sequence: uint64): bytes {
    FeeMessageExists(keys, amount, sequence);
    VaaPrint.SignedVaa(keys, 1, 0, [], VaaPrint.Header(0, 0, 1, GOVERNANCE_EMITTER, sequence, 0), VaaPrint.SetFeePayload(amount).value).value
  }

  /** There is such a message for every fee and every number, so every deployment can be lost
      in this way. */
  lemma AnyFeeBoots(env: Env, keys: VaaPrint.Keys, amount: uint64, sequence: uint64, now: uint64)
    requires CoreTheorems.IsDeployed(env) && |env.creator| == |env.verifier| == 32 && env.creator != env.verifier
    ensures
      var store := env.at(SlotOf(sequence).block, [0, 1] + GOVERNANCE_EMITTER);
      var blocks := FeeBoot(env, FeeVaa(keys, amount, sequence), store, now);
      && Committed(env, blocks, 1) && Run(env, blocks).0.booted && Line(Run(env, blocks).1) == []
  {
    hide Run, Committed, Line, FeeBoot, VaaPrint.SignedVaa, VaaPrint.SetFeePayload;
    FeeMessageExists(keys, amount, sequence);
    FeeMessageBoots(env, FeeVaa(keys, amount, sequence), keys, VaaPrint.Header(0, 0, 1, GOVERNANCE_EMITTER, sequence, 0), amount, now);
  }
}
