/** A guardian set that is too large to be counted is never replaced. */
module CoreStuck {
  import opened Teal
  import opened Transactions
  import opened VerifyVaa
  import opened Template
  import opened LocalBlob
  import opened Replay
  import opened Protocol
  import opened Core
  import opened CoreRefinement
  import opened CoreEffects
  import opened CoreTheorems
  import opened CoreSetless
  import Quorum

  /** The last set has more members than `verifyVAA` can ever count. */
  predicate TooLarge(sets: seq<GuardianSet>) {
    sets != [] && |sets[|sets| - 1].keys| > 20 * 47
  }

  /** `verifyVAA` only passes under a set it can count. */
  lemma VerifiedIsSmall(env: Env, st: CoreState, p: Protocol, group: Group, t: nat, now: uint64) returns (idx: nat)
    requires Rel(env, st, p) && t < |group| && Authorised(env.crypto, env.verifier, group)
    requires VerifyVAA(env.crypto, env.at, st.cells, st.vphash, group, t, now).Some?
    ensures |group[t].args| > 1 && |group[t].args[1]| >= 6 && idx == FromBE(group[t].args[1][1..5])
    ensures p.Booted() && p.first <= idx <= p.Current() && |p.sets[idx - p.first].keys| <= 20 * 47
  {
    hide VerifyVAA, QuorumSigned, LoadSet, Authorised, SeenRel, CountRel, TagsRel, OnlyLastRules, Holds;
    var i, keys := VerifiedSim(env, st, p, group, t, now);
    idx := i;
    NamedSet(env.crypto, env.at, st.cells, st.vphash, group, t, now);
    var s := p.sets[idx - p.first];
    HoldsLoad(st.cells[env.at(idx, GUARDIAN)], s);
    QuorumSoundness(env.crypto, env.at, st.cells, env.verifier, group, t, now);
    Quorum.LargeSetsAreUnusable(env.crypto, env.at, st.cells, env.verifier, group, t, now);
  }

  /** So `governance` only passes when the current set is one it can count. */
  lemma GovernedIsSmall(env: Env, st: CoreState, p: Protocol, group: Group, t: nat, now: uint64, r: (CoreState, seq<Event>))
    requires Rel(env, st, p) && 0 < t < |group| && Authorised(env.crypto, env.verifier, group)
    requires VerifyVAA(env.crypto, env.at, st.cells, st.vphash, group, t - 1, now).Some?
    requires Governance(env, st, group, t, now) == Some(r)
    ensures p.Booted() && !TooLarge(p.sets)
  {
    hide VerifyVAA, Governance, HandleGovernance, Rel, CheckForDuplicate, InstallSet, TooLarge;
    var idx := VerifiedIsSmall(env, st, p, group, t - 1, now);
    var d, g := GovernanceParts(env, st, group, t, now, r);
    OtherActions(env, st.(cells := d.0), group[t], false, now, g);
    SignedByCurrent(env, st, p, idx);
    SmallEnough(p, idx);
  }

  lemma SmallEnough(p: Protocol, idx: nat)
    requires p.Booted() && idx == p.Current() && |p.sets[idx - p.first].keys| <= 20 * 47
    ensures !TooLarge(p.sets)
  {
  }

  /** What leaves the sets as they are. */
  lemma {:induction false} SetsKept(crypto: Crypto, p: Protocol, trace: seq<Event>, q: Protocol)
    requires Replayed(crypto, p, trace) == Some(q)
    requires forall i | 0 <= i < |trace| :: !trace[i].Booted? && !trace[i].Upgraded?
    ensures q.sets == p.sets && q.first == p.first
  {
    if trace != [] {
      var n := |trace| - 1;
      SetsKept(crypto, p, trace[..n], Replayed(crypto, p, trace[..n]).value);
    }
  }

  lemma BootedNoInit(env: Env, st: CoreState, p: Protocol, tx: Txn, now: uint64)
    requires Rel(env, st, p) && p.Booted()
    ensures Init(env, st, tx, now) == None
  {
    hide CheckForDuplicate, HandleGovernance, SeenRel, CountRel, SetsRel, TagsRel;
  }

  /** Calls other than `init` and `governance` neither boot nor upgrade. */
  lemma OtherEvents(env: Env, st: CoreState, group: Group, t: nat, now: uint64, r: (CoreState, seq<Event>))
    requires t < |group| && Call(env, st, group, t, now) == Some(r)
    requires !IsCall(env, group[t], INIT) && !IsCall(env, group[t], GOVERNANCE)
    ensures forall i | 0 <= i < |r.1| :: !r.1[i].Booted? && !r.1[i].Upgraded?
  {
    hide VerifyVAA, Init, Governance, FromBE;
  }

  lemma CallIs(env: Env, st: CoreState, group: Group, t: nat, now: uint64)
    requires t < |group|
    ensures IsCall(env, group[t], INIT) ==> Call(env, st, group, t, now) == Init(env, st, group[t], now)
    ensures IsCall(env, group[t], GOVERNANCE) ==> Call(env, st, group, t, now) == Governance(env, st, group, t, now)
  {
    hide VerifyVAA, Init, Governance, PublishMessage;
  }

  lemma StuckCall(env: Env, st0: CoreState, group: Group, now: uint64, t: nat, p: Protocol, r: (CoreState, seq<Event>)) returns (q: Protocol)
    requires Injective(env.at) && t < |group| && GoodGroup(env, group) && Authorised(env.crypto, env.verifier, group)
    requires After(env, st0, group, now, t).Some?
    requires Rel(env, After(env, st0, group, now, t).value.0, p) && TooLarge(p.sets)
    requires Call(env, After(env, st0, group, now, t).value.0, group, t, now) == Some(r)
    ensures Replayed(env.crypto, p, r.1) == Some(q) && Rel(env, r.0, q) && q.sets == p.sets
    ensures !IsCall(env, group[t], GOVERNANCE)
  {
    hide Injective, Rel, After, Call, Replayed, VerifyVAA, Governance, Init, GoodGroup, Authorised;
    var st := After(env, st0, group, now, t).value.0;
    q := CallSim(env, st0, group, now, t, p, r);
    CallIs(env, st, group, t, now);
    if IsCall(env, group[t], INIT) {
      BootedNoInit(env, st, p, group[t], now);
    } else if IsCall(env, group[t], GOVERNANCE) {
      NotFirst(env, st, group, t, now, r);
      VerifiedBefore(env, st, group, t, now, r);
      VerifiedJustBefore(env, st0, group, now, t);
      GovernedIsSmall(env, st, p, group, t, now, r);
    } else {
      OtherEvents(env, st, group, t, now, r);
      SetsKept(env.crypto, p, r.1, q);
    }
  }

  lemma {:induction false} StuckGroup(env: Env, st: CoreState, p: Protocol, group: Group, now: uint64, k: nat) returns (q: Protocol)
    requires Injective(env.at) && k <= |group| && GoodGroup(env, group) && Authorised(env.crypto, env.verifier, group)
    requires Rel(env, st, p) && TooLarge(p.sets) && After(env, st, group, now, k).Some?
    ensures
      var r := After(env, st, group, now, k).value;
      Replayed(env.crypto, p, r.1) == Some(q) && Rel(env, r.0, q) && q.sets == p.sets
    ensures forall t | 0 <= t < k :: !IsCall(env, group[t], GOVERNANCE)
  {
    hide Injective, Rel, Call, GoodGroup, Authorised;
    if k == 0 {
      q := p;
    } else {
      var before := After(env, st, group, now, k - 1).value;
      var mid := StuckGroup(env, st, p, group, now, k - 1);
      var step := Call(env, before.0, group, k - 1, now).value;
      q := StuckCall(env, st, group, now, k - 1, mid, step);
      ReplayedTwice(env.crypto, p, before.1, mid, step.1, q);
    }
  }

  /** One more block under a set too large. */
  lemma StuckBlock(env: Env, blocks: seq<Block>, i: nat)
    requires IsDeployed(env) && GoodRun(env, blocks) && i < |blocks| && TooLarge(Line(Run(env, blocks[..i]).1))
    ensures Line(Run(env, blocks[..i + 1]).1) == Line(Run(env, blocks[..i]).1)
    ensures Committed(env, blocks, i) ==> forall t | 0 <= t < |blocks[i].group| :: !IsCall(env, blocks[i].group[t], GOVERNANCE)
  {
    hide Injective, Rel, After, Committed, Submit, GoodGroup, Authorised, IsCall, TooLarge, Replayed, Line, Rotated;
    var upTo, b := blocks[..i + 1], blocks[i];
    assert upTo[..i] == blocks[..i] && upTo[i] == b;
    GoodPrefix(env, blocks, i);
    var p := RefinesDeployed(env, blocks[..i]);
    LineIs(env.crypto, p, Run(env, blocks[..i]).1);
    RunLast(env, upTo);
    SameCommitted(env, blocks, i);
    var before := Run(env, blocks[..i]);
    if Committed(env, blocks, i) {
      var q := StuckGroup(env, before.0, p, b.group, b.now, |b.group|);
      var step := After(env, before.0, b.group, b.now, |b.group|).value;
      ReplayedTwice(env.crypto, START, before.1, p, step.1, q);
      LineIs(env.crypto, q, before.1 + step.1);
    } else {
      assert before.1 + [] == before.1;
    }
  }

  lemma LineIs(crypto: Crypto, p: Protocol, trace: seq<Event>)
    requires Replayed(crypto, START, trace) == Some(p)
    ensures p.sets == Line(trace)
  {
    hide Replayed, Line;
    Rotation(crypto, trace);
  }

  lemma SameCommitted(env: Env, blocks: seq<Block>, i: nat)
    requires i < |blocks|
    ensures Committed(env, blocks[..i + 1], i) <==> Committed(env, blocks, i)
  {
    hide Commits, Run;
    assert blocks[..i + 1][..i] == blocks[..i];
  }

  /** A set of 48 or more guardians rules for ever: from then on no group with a `governance`
      call commits, and the sets stay as they are. */
  lemma {:induction false} LargeSetRules(env: Env, blocks: seq<Block>, n: nat)
    requires IsDeployed(env) && GoodRun(env, blocks) && n <= |blocks| && TooLarge(Line(Run(env, blocks[..n]).1))
    ensures Line(Run(env, blocks).1) == Line(Run(env, blocks[..n]).1)
    ensures forall i: nat, t: nat | n <= i && Committed(env, blocks, i) && t < |blocks[i].group| :: !IsCall(env, blocks[i].group[t], GOVERNANCE)
    decreases |blocks|
  {
    hide Committed, IsCall, TooLarge, Line, Run;
    if n == |blocks| {
      assert blocks[..n] == blocks;
      NoneAfter(env, blocks);
    } else {
      var last, before := |blocks| - 1, blocks[..|blocks| - 1];
      assert before[..n] == blocks[..n] && blocks[..last + 1] == blocks;
      GoodPrefix(env, blocks, last);
      LargeSetRules(env, before, n);
      StuckBlock(env, blocks, last);
      NoneAfter(env, blocks);
      forall i: nat, t: nat | n <= i < |blocks| && Committed(env, blocks, i) && t < |blocks[i].group|
        ensures !IsCall(env, blocks[i].group[t], GOVERNANCE)
      {
        if i < last { CommittedBefore(env, blocks, last, i); }
      }
    }
  }

  lemma NoneAfter(env: Env, blocks: seq<Block>)
    ensures forall i: nat | |blocks| <= i :: !Committed(env, blocks, i)
  {
  }

  lemma CommittedBefore(env: Env, blocks: seq<Block>, n: nat, i: nat)
    requires i < n <= |blocks| && Committed(env, blocks, i)
    ensures Committed(env, blocks[..n], i) && blocks[..n][i] == blocks[i]
  {
    hide Commits, Run;
    assert blocks[..n][..i] == blocks[..i];
  }
}
