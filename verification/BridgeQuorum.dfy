/** The two contracts together: whatever the bridge receives, mints, releases or is told to do
    was signed by a quorum of guardians in force. */
module BridgeQuorum {
  import opened Teal
  import opened Transactions
  import opened VerifyVaa
  import opened Template
  import opened Replay
  import opened Protocol
  import opened CoreRefinement
  import opened CoreTheorems
  import Core
  import TokenBridge

  lemma {:induction false} AfterEarlier(env: Core.Env, st: Core.CoreState, group: Group, now: uint64, j: nat, k: nat)
    requires j <= k <= |group| && Core.After(env, st, group, now, k).Some?
    ensures Core.After(env, st, group, now, j).Some?
  {
    hide Core.Call;
    if j < k { AfterEarlier(env, st, group, now, j, k - 1); }
  }

  /** Everything the core contract has logged before transaction `j` of the group. */
  ghost function TraceBefore(env: Core.Env, blocks: seq<Core.Block>, group: Group, now: uint64, j: nat): seq<Event>
    requires j <= |group| && Core.After(env, Core.Run(env, blocks).0, group, now, j).Some?
  {
    Core.Run(env, blocks).1 + Core.After(env, Core.Run(env, blocks).0, group, now, j).value.1
  }

  lemma CoreStateBefore(env: Core.Env, blocks: seq<Core.Block>, group: Group, now: uint64, j: nat) returns (p: Protocol)
    requires IsDeployed(env) && GoodRun(env, blocks) && GoodGroup(env, group) && Authorised(env.crypto, env.verifier, group)
    requires j <= |group| && Core.After(env, Core.Run(env, blocks).0, group, now, j).Some?
    ensures Replayed(env.crypto, START, TraceBefore(env, blocks, group, now, j)) == Some(p)
    ensures Rel(env, Core.After(env, Core.Run(env, blocks).0, group, now, j).value.0, p)
  {
    hide Rel, Injective, Core.After, Core.Run, GoodRun, GoodGroup, Authorised, Replayed;
    var before := Core.Run(env, blocks);
    var mid := RefinesDeployed(env, blocks);
    p := AfterSim(env, before.0, mid, group, now, j);
    ReplayedTwice(env.crypto, START, before.1, mid, Core.After(env, before.0, group, now, j).value.1, p);
  }

  lemma VerifiedInForce(crypto: Crypto, p: Protocol, trace: seq<Event>, vaa: bytes, idx: nat, now: uint64)
    requires Replayed(crypto, START, trace) == Some(p)
    requires Apply(crypto, p, Verified(vaa, idx, now)).Some?
    ensures SignedInForce(crypto, trace, vaa, idx, now)
  {
    hide Replayed, QuorumSigned;
    Rotation(crypto, trace);
  }

  /** A `verifyVAA` call in a group the core contract goes along with proves that its VAA was
      signed by a quorum of a set in force. */
  lemma VerifyCallProves(env: Core.Env, blocks: seq<Core.Block>, group: Group, now: uint64, j: nat)
    requires IsDeployed(env) && GoodRun(env, blocks) && GoodGroup(env, group) && Authorised(env.crypto, env.verifier, group)
    requires Core.After(env, Core.Run(env, blocks).0, group, now, |group|).Some?
    requires j < |group| && group[j].Calls(env.app.id) && group[j].onCompletion == NoOp && group[j].Arg(0) == Some(VERIFY_VAA)
    ensures Core.After(env, Core.Run(env, blocks).0, group, now, j).Some?
    ensures |group[j].args| > 1 && |group[j].args[1]| >= 6
    ensures SignedInForce(env.crypto, TraceBefore(env, blocks, group, now, j), group[j].args[1], FromBE(group[j].args[1][1..5]), now)
  {
    hide Rel, Injective, GoodRun, GoodGroup, Authorised, VerifyVAA, Core.After, SignedInForce, Replayed, TraceBefore, Apply;
    var st := Core.Run(env, blocks).0;
    AfterEarlier(env, st, group, now, j, |group|);
    AfterEarlier(env, st, group, now, j + 1, |group|);
    var p := CoreStateBefore(env, blocks, group, now, j);
    VerifiedJustBefore(env, st, group, now, j + 1);
    CallBefore(env, st, group, now, j);
    var idx, keys := VerifiedSim(env, Core.After(env, st, group, now, j).value.0, p, group, j, now);
    VerifiedInForce(env.crypto, p, TraceBefore(env, blocks, group, now, j), group[j].args[1], idx, now);
  }

  lemma CallBefore(env: Core.Env, st: Core.CoreState, group: Group, now: uint64, j: nat)
    requires j < |group| && Core.After(env, st, group, now, j).Some? && Core.After(env, st, group, now, j + 1).Some?
    requires group[j].Calls(env.app.id) && group[j].onCompletion == NoOp && group[j].Arg(0) == Some(VERIFY_VAA)
    ensures
      var s := Core.After(env, st, group, now, j).value.0;
      VerifyVAA(env.crypto, env.at, s.cells, s.vphash, group, j, now).Some?
  {
    hide VerifyVAA;
  }

  /** Where the bridge's call relies on the core contract: three places back for an
      attestation, one for the others. */
  predicate Acts(env: TokenBridge.Env, st: TokenBridge.BridgeState, group: Group, t: nat, out: TokenBridge.Outside, j: nat)
    requires t < |group|
  {
    || (TokenBridge.CompleteTransfer(env, st, group, t, out).Some? && j + 1 == t)
    || (TokenBridge.Governance(env, st, group, t, out).Some? && j + 1 == t)
    || (TokenBridge.ReceiveAttest(env, st, group, t, out).Some? && j + 4 == t)
  }

  lemma ActsOnVerified(env: TokenBridge.Env, st: TokenBridge.BridgeState, group: Group, t: nat, out: TokenBridge.Outside, j: nat)
    requires t < |group| && Acts(env, st, group, t, out, j)
    ensures j < t && TokenBridge.VerifiesFor(env, group[j], group[t])
  {
    hide Mark, MessageOf, TokenBridge.ReadTransfer, TokenBridge.ReadAttestation, TokenBridge.Attest, TokenBridge.PayOut,
      TokenBridge.Receiver, TokenBridge.Source, TokenBridge.KnownEmitter, TokenBridge.VerifiesFor;
  }

  /** Releases, attestations and governance of the bridge carry a guardian quorum: in a group
      that both contracts go along with, the bridge only acts on a VAA signed by a quorum of
      a set that is current or in its day of grace. */
  lemma BridgeNeedsQuorum(cenv: Core.Env, blocks: seq<Core.Block>, now: uint64, env: TokenBridge.Env, st: TokenBridge.BridgeState,
                          group: Group, t: nat, out: TokenBridge.Outside, j: nat)
    requires IsDeployed(cenv) && GoodRun(cenv, blocks) && GoodGroup(cenv, group) && Authorised(cenv.crypto, cenv.verifier, group)
    requires Core.After(cenv, Core.Run(cenv, blocks).0, group, now, |group|).Some?
    requires t < |group| && env.coreId == cenv.app.id && Acts(env, st, group, t, out, j)
    ensures j < t && Core.After(cenv, Core.Run(cenv, blocks).0, group, now, j).Some?
    ensures |group[t].args| > 1 && |group[t].args[1]| >= 6
    ensures SignedInForce(cenv.crypto, TraceBefore(cenv, blocks, group, now, j), group[t].args[1], FromBE(group[t].args[1][1..5]), now)
  {
    hide GoodRun, GoodGroup, Authorised, Core.After, Core.Run, SignedInForce, TraceBefore, Acts;
    ActsOnVerified(env, st, group, t, out, j);
    VerifyCallProves(cenv, blocks, group, now, j);
  }

  /** The core contract's index is that of the last set in its log. */
  lemma IndexIsCurrent(env: Core.Env, st: Core.CoreState, p: Protocol, trace: seq<Event>)
    requires Rel(env, st, p) && Replayed(env.crypto, START, trace) == Some(p)
    ensures Line(trace) != [] ==> st.setIndex == BootIndex(trace) + |Line(trace)| - 1
  {
    hide Replayed, SeenRel, CountRel, SetsRel, TagsRel;
    Rotation(env.crypto, trace);
  }

  lemma GovernanceNames(env: TokenBridge.Env, st: TokenBridge.BridgeState, group: Group, t: nat, out: TokenBridge.Outside)
    requires t < |group| && TokenBridge.Governance(env, st, group, t, out).Some?
    ensures |group[t].args| > 1 && |group[t].args[1]| >= 6
    ensures out.guardianSet == Some(FromBE(group[t].args[1][1..5])) && t > 0
  {
    hide Mark, FromBE, TokenBridge.VerifiesFor, TokenBridge.CommonChecks;
  }

  lemma VerifyKeepsState(env: Core.Env, st: Core.CoreState, group: Group, now: uint64, j: nat)
    requires j < |group| && Core.After(env, st, group, now, j).Some? && Core.After(env, st, group, now, j + 1).Some?
    requires group[j].Calls(env.app.id) && group[j].onCompletion == NoOp && group[j].Arg(0) == Some(VERIFY_VAA)
    ensures Core.After(env, st, group, now, j + 1).value.0 == Core.After(env, st, group, now, j).value.0
  {
    hide VerifyVAA;
  }

  /** What governs the bridge was signed by the current set: the index it reads from the core
      contract's state is that of the last set installed, a set in its day of grace will not
      do. */
  lemma BridgeGovernedByCurrent(cenv: Core.Env, blocks: seq<Core.Block>, now: uint64, env: TokenBridge.Env, st: TokenBridge.BridgeState,
                                group: Group, t: nat, out: TokenBridge.Outside)
    requires IsDeployed(cenv) && GoodRun(cenv, blocks) && GoodGroup(cenv, group) && Authorised(cenv.crypto, cenv.verifier, group)
    requires Core.After(cenv, Core.Run(cenv, blocks).0, group, now, |group|).Some?
    requires 0 < t < |group| && env.coreId == cenv.app.id && TokenBridge.Governance(env, st, group, t, out).Some?
    requires Core.After(cenv, Core.Run(cenv, blocks).0, group, now, t).Some?
    requires out.guardianSet == Some(Core.After(cenv, Core.Run(cenv, blocks).0, group, now, t).value.0.setIndex)
    ensures |group[t].args| > 1 && Core.After(cenv, Core.Run(cenv, blocks).0, group, now, t - 1).Some?
    ensures
      var sets := Line(TraceBefore(cenv, blocks, group, now, t - 1));
      sets != [] && QuorumSigned(cenv.crypto, sets[|sets| - 1].keys, group[t].args[1])
  {
    hide GoodRun, GoodGroup, Authorised, Core.After, Core.Run, TraceBefore, TokenBridge.Governance, Rel, Replayed, QuorumSigned;
    var j, cst := t - 1, Core.Run(cenv, blocks).0;
    BridgeNeedsQuorum(cenv, blocks, now, env, st, group, t, out, j);
    ActsOnVerified(env, st, group, t, out, j);
    GovernanceNames(env, st, group, t, out);
    AfterEarlier(cenv, cst, group, now, t, |group|);
    VerifyKeepsState(cenv, cst, group, now, j);
    var p := CoreStateBefore(cenv, blocks, group, now, j);
    IndexIsCurrent(cenv, Core.After(cenv, cst, group, now, j).value.0, p, TraceBefore(cenv, blocks, group, now, j));
  }
}
