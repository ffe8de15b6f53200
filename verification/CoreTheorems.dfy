/** What the refinement means for users of the core contract, over every run, with accounts at
    the addresses the template gives them. */
module CoreTheorems {
  import opened Teal
  import opened Transactions
  import opened VerifyVaa
  import opened Template
  import opened LocalBlob
  import opened Replay
  import opened Protocol
  import opened Core
  import opened CoreRefinement
  import opened CoreEffects

  /** The deployed contract: storage accounts are found through the template. */
  function Deployed(crypto: Crypto, app: App, creator: bytes, verifier: bytes, seed: uint64): Env {
    Env(crypto, LocatorOf(app), app, creator, verifier, seed)
  }

  ghost predicate IsDeployed(env: Env) {
    env == Deployed(env.crypto, env.app, env.creator, env.verifier, env.seed)
  }

  lemma RefinesDeployed(env: Env, blocks: seq<Block>) returns (p: Protocol)
    requires IsDeployed(env) && GoodRun(env, blocks)
    ensures Injective(env.at)
    ensures Replayed(env.crypto, START, Run(env, blocks).1) == Some(p) && Rel(env, Run(env, blocks).0, p)
  {
    LocatorInjective(env.app);
    p := CoreRefinesProtocol(env, blocks);
  }

  lemma EffectsDeployed(env: Env, blocks: seq<Block>) returns (fx: seq<Effect>)
    requires IsDeployed(env)
    ensures Injective(env.at)
    ensures Applied(env.at, map[], fx) == Some(Run(env, blocks).0.cells) && Run(env, blocks).1 == Events(fx)
    ensures AddressedRun(env, blocks) ==> Addressable(fx)
    ensures SparingRun(env, blocks) ==> Spares(env.at, fx)
  {
    hide Injective, AddressedRun, SparingRun, Applied, Events, Addressable, Spares;
    LocatorInjective(env.app);
    assert [] + blocks == blocks;
    fx := RunEffects(env, [], blocks);
    assert [] + Events(fx) == Events(fx);
  }

  /** Replay safety: no message is accepted twice, and an account bit is set exactly for the
      messages accepted so far. The boot must not date a replay account; nothing is asked of
      guardian sets. */
  lemma ReplaySafety(env: Env, blocks: seq<Block>)
    requires IsDeployed(env) && AddressedRun(env, blocks) && SparingRun(env, blocks)
    ensures
      var r := Run(env, blocks);
      && (forall i, j | 0 <= i < j < |r.1| && r.1[i].Accepted? :: r.1[i] != r.1[j])
      && (forall m: Message | |m.emitter| == 34 :: Seen(env.at, r.0.cells, m) <==> Accepted(m) in r.1)
  {
    hide Injective, Run, Applied, Events, Addressable, Spares, AddressedRun, SparingRun, Seen;
    var fx := EffectsDeployed(env, blocks);
    SeenAfterAll(env.at, fx);
  }

  /** Accepting messages never blocks another: one that was not accepted can still be,
      whatever else the run did, once its storage account is opted in and passed along. */
  lemma NeverBlocked(env: Env, blocks: seq<Block>, tx: Txn, m: Message)
    requires IsDeployed(env) && AddressedRun(env, blocks) && SparingRun(env, blocks)
    requires |tx.args| > 1 && MessageOf(tx.args[1]) == Some(m)
    requires tx.Account(1) == Some(env.at(SlotOf(m.sequence).block, m.emitter))
    requires env.at(SlotOf(m.sequence).block, m.emitter) in Run(env, blocks).0.cells
    ensures CheckForDuplicate(env, Run(env, blocks).0.cells, tx).Some? <==> Accepted(m) !in Run(env, blocks).1
  {
    hide Run, Seen, Injective, AddressedRun, SparingRun, MessageOf;
    MessageEmitter(tx.args[1], m);
    ReplaySafety(env, blocks);
    LocatorInjective(env.app);
    var a := env.at(SlotOf(m.sequence).block, m.emitter);
    MarkEffect(env.at, Run(env, blocks).0.cells, tx.args[1], a, m);
  }

  lemma MessageEmitter(vaa: bytes, m: Message)
    requires MessageOf(vaa) == Some(m)
    ensures |m.emitter| == 34
  {
  }

  /** The k-th message a sender publishes is logged with number k, whatever happens between:
      boots, governance and guardian sets of any kind. */
  lemma EmitterSequence(env: Env, blocks: seq<Block>)
    requires IsDeployed(env) && AddressedRun(env, blocks)
    ensures
      var trace := Run(env, blocks).1;
      forall i | 0 <= i < |trace| && trace[i].Published? :: trace[i].sequence == PublishedBy(trace[..i], trace[i].sender) + 1
  {
    hide Injective, Run, Applied, Events, Addressable, AddressedRun, SparingRun, PublishedBy, Counter;
    var fx := EffectsDeployed(env, blocks);
    CountsAfter(env.at, fx);
  }

  /** Role separation: an account's tag, once written, is there at the end of every longer
      run. */
  lemma TagsAreForever(env: Env, blocks: seq<Block>, more: seq<Block>)
    requires IsDeployed(env) && AddressedRun(env, blocks + more)
    ensures TagsKept(Run(env, blocks).0.cells, Run(env, blocks + more).0.cells)
    ensures RolesKept(env.at, Run(env, blocks + more).0.cells)
  {
    hide Injective, Run, Applied, Events, Addressable, AddressedRun, SparingRun, RolesKept, TagsKept;
    assert (blocks + more)[..|blocks|] == blocks;
    PrefixHypotheses(env, blocks + more, |blocks|);
    var fx := EffectsDeployed(env, blocks);
    NothingShown(env.at);
    RolesAfter(env.at, map[], fx);
    var gx := RunEffects(env, blocks, more);
    RolesAfter(env.at, Run(env, blocks).0.cells, gx);
  }

  /** The accounts tagged as guardian sets are those of this line of sets, and hold them. */
  ghost predicate Shows(at: Locator, cells: Cells, first: nat, sets: seq<GuardianSet>) {
    && (forall i: nat :: Tagged(cells, at(i, GUARDIAN), GUARDIAN) <==> first <= i < first + |sets|)
    && (forall i: nat | first <= i < first + |sets| :: Holds(cells[at(i, GUARDIAN)], sets[i - first]))
  }

  lemma RelShows(env: Env, st: CoreState, p: Protocol)
    requires Rel(env, st, p)
    ensures Shows(env.at, st.cells, p.first, p.sets)
    ensures p.sets != [] ==> st.setIndex == p.first + |p.sets| - 1
  {
  }

  /** Guardian rotation: the current index is the boot index plus the number of upgrades, and
      the accounts hold the sets the trace installed, the last without an expiry and every
      earlier one with its keys and its retirement time plus a day. */
  lemma GuardianRotation(env: Env, blocks: seq<Block>)
    requires IsDeployed(env) && GoodRun(env, blocks)
    ensures
      var st, trace := Run(env, blocks).0, Run(env, blocks).1;
      && (Line(trace) != [] ==> st.setIndex == BootIndex(trace) + Upgrades(trace))
      && Shows(env.at, st.cells, BootIndex(trace), Line(trace))
      && OnlyLastRules(Line(trace))
  {
    var p := RefinesDeployed(env, blocks);
    RelShows(env, Run(env, blocks).0, p);
    Rotation(env.crypto, Run(env, blocks).1);
  }

  /** A VAA that `verifyVAA` passed carries a quorum of the set it names, and that set was the
      current one or still in its day of grace. */
  lemma OnlyLiveSetsVerify(env: Env, blocks: seq<Block>)
    requires IsDeployed(env) && GoodRun(env, blocks)
    ensures
      var trace := Run(env, blocks).1;
      forall i | 0 <= i < |trace| && trace[i].Verified? ::
        SignedInForce(env.crypto, trace[..i], trace[i].vaa, trace[i].index, trace[i].time)
  {
    hide *;
    var p := RefinesDeployed(env, blocks);
    var trace := Run(env, blocks).1;
    forall i | 0 <= i < |trace| && trace[i].Verified?
      ensures SignedInForce(env.crypto, trace[..i], trace[i].vaa, trace[i].index, trace[i].time)
    {
      VerifiedWhileInForce(env.crypto, trace, i);
    }
  }

  /** Every rotation was ordered by a quorum of the set it replaced. */
  lemma RotationAuthorised(env: Env, blocks: seq<Block>)
    requires IsDeployed(env) && GoodRun(env, blocks)
    ensures
      var trace := Run(env, blocks).1;
      forall i | 0 <= i < |trace| && trace[i].Upgraded? ::
        ReplacedByOwnQuorum(env.crypto, trace[..i], trace[..i + 1], trace[i].vaa, trace[i].keys, trace[i].time)
  {
    hide *;
    var p := RefinesDeployed(env, blocks);
    var trace := Run(env, blocks).1;
    forall i | 0 <= i < |trace| && trace[i].Upgraded?
      ensures ReplacedByOwnQuorum(env.crypto, trace[..i], trace[..i + 1], trace[i].vaa, trace[i].keys, trace[i].time)
    {
      UpgradedByCurrent(env.crypto, trace, i);
    }
  }
}
