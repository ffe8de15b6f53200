/** Runs in which other applications call the core contract from inside a transaction, as the
    token bridge does to publish. What needs only the elementary writes of `CoreEffects` holds
    of them too, so the bridge's own messages are numbered like everybody's. */
module CoreInner {
  import opened Teal
  import opened Transactions
  import opened VaaVerify
  import opened VerifyVaa
  import opened Template
  import opened LocalBlob
  import opened Replay
  import opened Protocol
  import opened Core
  import opened CoreRefinement
  import opened CoreEffects
  import CoreTheorems

  /** A group and, for each of its transactions, the groups submitted from inside it. */
  datatype Outer = Outer(group: Group, inner: nat -> seq<Group>, now: uint64)

  /** An application cannot be entered again from inside a call to it. */
  function InnerOf(env: Env, o: Outer, t: nat): seq<Group>
    requires t < |o.group|
  {
    if o.group[t].Calls(env.app.id) then [] else o.inner(t)
  }

  /** The first `n` inner groups of a transaction, each whole. */
  function Nested(env: Env, st: CoreState, groups: seq<Group>, now: uint64, n: nat): Option<(CoreState, seq<Event>)>
    requires n <= |groups|
  {
    if n == 0 then Some((st, []))
    else
      var before :- Nested(env, st, groups, now, n - 1);
      var step :- After(env, before.0, groups[n - 1], now, |groups[n - 1]|);
      Some((step.0, before.1 + step.1))
  }

  /** One transaction and what it calls. */
  function Whole(env: Env, st: CoreState, o: Outer, t: nat): Option<(CoreState, seq<Event>)>
    requires t < |o.group|
  {
    var outer :- Call(env, st, o.group, t, o.now);
    var inner :- Nested(env, outer.0, InnerOf(env, o, t), o.now, |InnerOf(env, o, t)|);
    Some((inner.0, outer.1 + inner.1))
  }

  function AfterAll(env: Env, st: CoreState, o: Outer, k: nat): Option<(CoreState, seq<Event>)>
    requires k <= |o.group|
  {
    if k == 0 then Some((st, []))
    else
      var before :- AfterAll(env, st, o, k - 1);
      var step :- Whole(env, before.0, o, k - 1);
      Some((step.0, before.1 + step.1))
  }

  ghost predicate CommitsAll(env: Env, st: CoreState, o: Outer) {
    Authorised(env.crypto, env.verifier, o.group) && AfterAll(env, st, o, |o.group|).Some?
  }

  ghost function RunAll(env: Env, outers: seq<Outer>): (CoreState, seq<Event>) {
    if outers == [] then (CREATED, [])
    else
      var n := |outers| - 1;
      var before := RunAll(env, outers[..n]);
      if CommitsAll(env, before.0, outers[n]) then
        var step := AfterAll(env, before.0, outers[n], |outers[n].group|).value;
        (step.0, before.1 + step.1)
      else before
  }

  ghost predicate CommittedAll(env: Env, outers: seq<Outer>, i: nat) {
    i < |outers| && CommitsAll(env, RunAll(env, outers[..i]).0, outers[i])
  }

  // ---------- without inner calls ----------

  function Plain(b: Block): Outer {
    Outer(b.group, _ => [], b.now)
  }

  lemma {:induction false} PlainAfter(env: Env, st: CoreState, b: Block, k: nat)
    requires k <= |b.group|
    ensures AfterAll(env, st, Plain(b), k) == After(env, st, b.group, b.now, k)
  {
    hide Call;
    if k > 0 {
      PlainAfter(env, st, b, k - 1);
      var before := After(env, st, b.group, b.now, k - 1);
      if before.Some? {
        assert InnerOf(env, Plain(b), k - 1) == [];
        var step := Call(env, before.value.0, b.group, k - 1, b.now);
        if step.Some? { assert step.value.1 + [] == step.value.1; }
      }
    }
  }

  function Plains(blocks: seq<Block>): (r: seq<Outer>)
    ensures |r| == |blocks|
  {
    if blocks == [] then [] else Plains(blocks[..|blocks| - 1]) + [Plain(blocks[|blocks| - 1])]
  }

  /** Runs without inner calls are the runs of `Core`. */
  lemma {:induction false} PlainRun(env: Env, blocks: seq<Block>)
    ensures RunAll(env, Plains(blocks)) == Run(env, blocks)
  {
    hide After, AfterAll, Plain;
    if blocks != [] {
      var n := |blocks| - 1;
      var outers := Plains(blocks);
      assert outers[..n] == Plains(blocks[..n]) && outers[n] == Plain(blocks[n]);
      PlainRun(env, blocks[..n]);
      PlainParts(blocks[n]);
      PlainAfter(env, Run(env, blocks[..n]).0, blocks[n], |blocks[n].group|);
      var r := Run(env, blocks[..n]);
      assert r.1 + [] == r.1;
    }
  }

  lemma PlainParts(b: Block)
    ensures Plain(b).group == b.group && Plain(b).now == b.now
  {
  }

  // ---------- effects ----------

  ghost predicate AllAddressed(env: Env, o: Outer) {
    && Addressed(o.group)
    && forall t: nat, j: nat | t < |o.group| && j < |InnerOf(env, o, t)| :: Addressed(InnerOf(env, o, t)[j])
  }

  ghost predicate AllSpare(env: Env, o: Outer) {
    && GroupSpares(env, o.group)
    && forall t: nat, j: nat | t < |o.group| && j < |InnerOf(env, o, t)| :: GroupSpares(env, InnerOf(env, o, t)[j])
  }

  lemma {:induction false} NestedEffects(env: Env, st: CoreState, groups: seq<Group>, now: uint64, n: nat) returns (fx: seq<Effect>)
    requires Injective(env.at) && n <= |groups| && Nested(env, st, groups, now, n).Some?
    ensures
      var r := Nested(env, st, groups, now, n).value;
      Applied(env.at, st.cells, fx) == Some(r.0.cells) && Events(fx) == r.1
    ensures (forall j: nat | j < |groups| :: Addressed(groups[j])) ==> Addressable(fx)
    ensures (forall j: nat | j < |groups| :: GroupSpares(env, groups[j])) ==> Spares(env.at, fx)
  {
    hide Injective, After, IsReplayAccount, IsAddress, ApplyEffect, EventOf, Addressed, GroupSpares;
    if n == 0 {
      fx := [];
    } else {
      var before := Nested(env, st, groups, now, n - 1).value;
      var fx0 := NestedEffects(env, st, groups, now, n - 1);
      var gx := AfterEffects(env, before.0, groups[n - 1], now, |groups[n - 1]|);
      AppliedAppend(env.at, st.cells, fx0, gx);
      fx := fx0 + gx;
    }
  }

  /** Between a `verifyVAA` call and the next transaction nothing happens. */
  lemma AllInFront(env: Env, st: CoreState, o: Outer, t: nat)
    requires t < |o.group| && AfterAll(env, st, o, t).Some?
    ensures InFront(env, AfterAll(env, st, o, t).value.0, o.group, o.now, t)
  {
    hide VerifyVAA;
    if t > 0 && VerifiesVaa(env, o.group[t - 1]) {
      var before := AfterAll(env, st, o, t - 1).value;
      assert InnerOf(env, o, t - 1) == [];
      CallKeeps(env, before.0, o.group, t - 1, o.now);
    }
  }

  lemma CallKeeps(env: Env, st: CoreState, group: Group, t: nat, now: uint64)
    requires t < |group| && VerifiesVaa(env, group[t]) && Call(env, st, group, t, now).Some?
    ensures Call(env, st, group, t, now).value.0 == st
    ensures VerifyVAA(env.crypto, env.at, st.cells, st.vphash, group, t, now).Some?
  {
    hide VerifyVAA;
  }

  lemma {:induction false} AllEffects(env: Env, st: CoreState, o: Outer, k: nat) returns (fx: seq<Effect>)
    requires Injective(env.at) && k <= |o.group| && AfterAll(env, st, o, k).Some?
    ensures
      var r := AfterAll(env, st, o, k).value;
      Applied(env.at, st.cells, fx) == Some(r.0.cells) && Events(fx) == r.1
    ensures AllAddressed(env, o) ==> Addressable(fx)
    ensures AllSpare(env, o) ==> Spares(env.at, fx)
  {
    hide Injective, Call, Nested, IsReplayAccount, BootSpares, IsAddress, ApplyEffect, EventOf, InFront, InnerOf;
    if k == 0 {
      fx := [];
    } else {
      var before := AfterAll(env, st, o, k - 1).value;
      var outer := Call(env, before.0, o.group, k - 1, o.now).value;
      var fx0 := AllEffects(env, st, o, k - 1);
      AllInFront(env, st, o, k - 1);
      var gx := CallEffects(env, before.0, o.group, o.now, k - 1, outer);
      var hx := NestedEffects(env, outer.0, InnerOf(env, o, k - 1), o.now, |InnerOf(env, o, k - 1)|);
      AppliedAppend(env.at, before.0.cells, gx, hx);
      AppliedAppend(env.at, st.cells, fx0, gx + hx);
      fx := fx0 + (gx + hx);
    }
  }

  // ---------- runs ----------

  ghost predicate AddressedAll(env: Env, outers: seq<Outer>) {
    forall i: nat | CommittedAll(env, outers, i) :: AllAddressed(env, outers[i])
  }

  ghost predicate SparingAll(env: Env, outers: seq<Outer>) {
    forall i: nat | CommittedAll(env, outers, i) :: AllSpare(env, outers[i])
  }

  lemma PrefixAll(env: Env, outers: seq<Outer>, n: nat)
    requires n <= |outers|
    ensures AddressedAll(env, outers) ==> AddressedAll(env, outers[..n])
    ensures SparingAll(env, outers) ==> SparingAll(env, outers[..n])
    ensures n < |outers| && CommitsAll(env, RunAll(env, outers[..n]).0, outers[n]) ==>
      (AddressedAll(env, outers) ==> AllAddressed(env, outers[n])) && (SparingAll(env, outers) ==> AllSpare(env, outers[n]))
  {
    hide CommitsAll, RunAll, AllAddressed, AllSpare;
    forall i: nat | CommittedAll(env, outers[..n], i)
      ensures i < n && CommittedAll(env, outers, i) && outers[..n][i] == outers[i]
    {
      assert outers[..n][..i] == outers[..i];
    }
    if n < |outers| && CommitsAll(env, RunAll(env, outers[..n]).0, outers[n]) {
      assert CommittedAll(env, outers, n);
    }
  }

  lemma {:induction false} RunAllEffects(env: Env, outers: seq<Outer>) returns (fx: seq<Effect>)
    requires Injective(env.at)
    ensures Applied(env.at, map[], fx) == Some(RunAll(env, outers).0.cells) && RunAll(env, outers).1 == Events(fx)
    ensures AddressedAll(env, outers) ==> Addressable(fx)
    ensures SparingAll(env, outers) ==> Spares(env.at, fx)
  {
    hide Injective, AfterAll, CommitsAll, AddressedAll, SparingAll, ApplyEffect, EventOf, IsReplayAccount, AllAddressed, AllSpare;
    if outers == [] {
      fx := [];
    } else {
      var n := |outers| - 1;
      var before := RunAll(env, outers[..n]);
      PrefixAll(env, outers, n);
      fx := RunAllEffects(env, outers[..n]);
      if CommitsAll(env, before.0, outers[n]) {
        CommitsParts(env, before.0, outers[n]);
        var gx := AllEffects(env, before.0, outers[n], |outers[n].group|);
        AppliedAppend(env.at, map[], fx, gx);
        fx := fx + gx;
      }
    }
  }

  lemma CommitsParts(env: Env, st: CoreState, o: Outer)
    requires CommitsAll(env, st, o)
    ensures AfterAll(env, st, o, |o.group|).Some?
  {
  }

  /** The k-th message a sender publishes has number k, whether it calls from a group of its
      own or from inside another application's transaction. */
  lemma AllNumbered(env: Env, outers: seq<Outer>)
    requires CoreTheorems.IsDeployed(env) && AddressedAll(env, outers)
    ensures
      var trace := RunAll(env, outers).1;
      forall i | 0 <= i < |trace| && trace[i].Published? :: trace[i].sequence == PublishedBy(trace[..i], trace[i].sender) + 1
  {
    hide Injective, RunAll, Applied, Events, Addressable, AddressedAll, SparingAll, PublishedBy, Counter;
    LocatorInjective(env.app);
    var fx := RunAllEffects(env, outers);
    CountsAfter(env.at, fx);
  }

  /** Nor does a call from inside let a message be accepted twice. */
  lemma AllAcceptedOnce(env: Env, outers: seq<Outer>)
    requires CoreTheorems.IsDeployed(env) && AddressedAll(env, outers) && SparingAll(env, outers)
    ensures
      var r := RunAll(env, outers);
      && (forall i, j | 0 <= i < j < |r.1| && r.1[i].Accepted? :: r.1[i] != r.1[j])
      && (forall m: Message | |m.emitter| == 34 :: Seen(env.at, r.0.cells, m) <==> Accepted(m) in r.1)
  {
    hide Injective, RunAll, Applied, Events, Addressable, Spares, AddressedAll, SparingAll, Seen;
    LocatorInjective(env.app);
    var fx := RunAllEffects(env, outers);
    SeenAfterAll(env.at, fx);
  }
}
