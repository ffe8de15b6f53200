/** What calls of the core contract do to storage accounts, as a list of elementary effects.
    Properties of the accounts that need little are proved here over the list, each under the
    hypotheses it uses and no other. */
module CoreEffects {
  import opened Teal
  import opened Transactions
  import opened VerifyVaa
  import opened Template
  import opened LocalBlob
  import opened Replay
  import opened Protocol
  import opened Core
  import opened CoreRefinement

  datatype Effect =
    | Joined(acct: bytes)
    | Marked(msg: Message)
    | Counted(sender: bytes, n: uint64)
    | Stored(index: nat, record: bytes)
    | Dated(acct: bytes, expiry: uint64)
    | Noted(event: Event)

  function ApplyEffect(at: Locator, cells: Cells, e: Effect): Option<Cells> {
    match e
    case Joined(acct) => if acct in cells then None else Some(cells[acct := EMPTY_CELL])
    case Marked(m) =>
      var s := SlotOf(m.sequence);
      var a := at(s.block, m.emitter);
      if |m.emitter| == 34 && a in cells && !Bit(cells[a].flat[s.byteAt], s.bit)
      then Some(cells[a := MarkBit(cells[a], s).(tag := Some(DUPLICATE))]) else None
    case Counted(sender, n) =>
      var a := at(0, sender);
      if a in cells && Counter(at, cells, sender) + 1 == n
      then Some(cells[a := Cell(Splice(cells[a].flat, 0, Itob(n)), Some(PUBLISH_MESSAGE))]) else None
    case Stored(index, record) =>
      var a := at(index, GUARDIAN);
      if a in cells && |record| <= MAX_BYTES
      then Some(cells[a := Cell(Splice(cells[a].flat, 0, record), Some(GUARDIAN))]) else None
    case Dated(acct, expiry) =>
      if acct in cells then Some(cells[acct := cells[acct].(flat := Splice(cells[acct].flat, 1000, Itob(expiry)))]) else None
    case Noted(event) => if event.Accepted? || event.Published? then None else Some(cells)
  }

  function Applied(at: Locator, cells: Cells, fx: seq<Effect>): Option<Cells> {
    if fx == [] then Some(cells)
    else
      var before :- Applied(at, cells, fx[..|fx| - 1]);
      ApplyEffect(at, before, fx[|fx| - 1])
  }

  function EventOf(e: Effect): seq<Event> {
    match e
    case Marked(m) => [Accepted(m)]
    case Counted(sender, n) => [Published(sender, n)]
    case Noted(event) => [event]
    case _ => []
  }

  function Events(fx: seq<Effect>): seq<Event> {
    if fx == [] then [] else Events(fx[..|fx| - 1]) + EventOf(fx[|fx| - 1])
  }

  lemma {:induction false} AppliedAppend(at: Locator, cells: Cells, fx: seq<Effect>, gx: seq<Effect>)
    requires Applied(at, cells, fx).Some?
    ensures Applied(at, cells, fx + gx) == Applied(at, Applied(at, cells, fx).value, gx)
    ensures Events(fx + gx) == Events(fx) + Events(gx)
  {
    hide ApplyEffect, EventOf;
    if gx == [] {
      assert fx + gx == fx;
    } else {
      assert (fx + gx)[..|fx + gx| - 1] == fx + gx[..|gx| - 1];
      AppliedAppend(at, cells, fx, gx[..|gx| - 1]);
    }
  }

  lemma OneEffect(at: Locator, cells: Cells, e: Effect)
    ensures Applied(at, cells, [e]) == ApplyEffect(at, cells, e) && Events([e]) == EventOf(e)
  {
    hide ApplyEffect, EventOf;
    assert [e][..0] == [];
    assert Events([e]) == [] + EventOf(e);
  }

  /** One more effect. */
  lemma Then(at: Locator, cells: Cells, fx: seq<Effect>, e: Effect)
    requires Applied(at, cells, fx).Some?
    ensures Applied(at, cells, fx + [e]) == ApplyEffect(at, Applied(at, cells, fx).value, e)
    ensures Events(fx + [e]) == Events(fx) + EventOf(e)
  {
    hide ApplyEffect, EventOf;
    assert (fx + [e])[..|fx|] == fx;
  }

  // ---------- what calls do ----------

  /** Everybody who publishes has an address. */
  ghost predicate Addressable(fx: seq<Effect>) {
    forall e | e in fx && e.Counted? :: IsAddress(e.sender)
  }

  /** An account that holds bits of messages at the place where an expiry is written. */
  ghost predicate IsReplayAccount(at: Locator, a: bytes) {
    exists block: nat, e: bytes :: |e| == 34 && MAX_BITS * (block + 1) <= U64 && a == at(block, e)
  }

  /** No expiry lands in a replay account. */
  ghost predicate Spares(at: Locator, fx: seq<Effect>) {
    forall e | e in fx && e.Dated? :: !IsReplayAccount(at, e.acct)
  }

  ghost predicate Addressed(group: Group) {
    forall i | 0 <= i < |group| :: IsAddress(group[i].sender)
  }

  /** A boot does not pass a replay account for the set it replaces. */
  ghost predicate BootSpares(env: Env, t: Txn) {
    t.Calls(env.app.id) && t.Arg(0) == Some(INIT) && t.Account(2).Some? ==>
      t.Account(2) == t.Account(3) || !IsReplayAccount(env.at, t.Account(2).value)
  }

  ghost predicate GroupSpares(env: Env, group: Group) {
    forall i | 0 <= i < |group| :: BootSpares(env, group[i])
  }

  /** Both writes of a guardian set. */
  lemma InstallParts(env: Env, st: CoreState, vaa: bytes, off: nat, tx: Txn, isBoot: bool, now: uint64, g: (CoreState, seq<Event>))
    returns (idx: nat, record: bytes, a2: bytes)
    requires InstallSet(env, st, vaa, off, tx, isBoot, now) == Some(g)
    ensures tx.Account(2) == Some(a2) && tx.Account(3) == Some(env.at(idx, GUARDIAN)) && SetRecord(vaa) == Some(record)
    ensures ReadInt(vaa, off + 3, 4) == Some(idx) && |record| > 1 && |record| <= MAX_BYTES
    ensures g.1 == [if isBoot then Booted(idx, record[1..]) else Upgraded(vaa, record[1..], now)]
    ensures
      var a3 := env.at(idx, GUARDIAN);
      && a3 in st.cells
      && var stored := st.cells[a3 := Cell(Splice(st.cells[a3].flat, 0, record), Some(GUARDIAN))];
         (a2 != a3 ==> a2 in st.cells && now + GRACE < U64)
         && g.0 == st.(setIndex := idx, cells :=
              if a2 == a3 then stored else stored[a2 := st.cells[a2].(flat := Splice(st.cells[a2].flat, 1000, Itob(now + GRACE)))])
  {
    hide FromBE, Itob, SetRecord;
    idx := ReadInt(vaa, off + 3, 4).value;
    record := SetRecord(vaa).value;
    a2 := tx.Account(2).value;
    RecordLength(vaa);
    StoredParts(st.cells, a2, env.at(idx, GUARDIAN), record, now);
  }

  lemma RecordLength(vaa: bytes)
    requires SetRecord(vaa).Some?
    ensures |SetRecord(vaa).value| > 1
  {
  }

  lemma StoredParts(cells: Cells, a2: bytes, a3: bytes, record: bytes, now: uint64)
    requires StoreSet(cells, a2, a3, record, now).Some?
    ensures a3 in cells && |record| <= MAX_BYTES && (a2 != a3 ==> a2 in cells && now + GRACE < U64)
    ensures
      var stored := cells[a3 := Cell(Splice(cells[a3].flat, 0, record), Some(GUARDIAN))];
      StoreSet(cells, a2, a3, record, now).value
        == if a2 == a3 then stored else stored[a2 := cells[a2].(flat := Splice(cells[a2].flat, 1000, Itob(now + GRACE)))]
  {
    hide Itob;
    var c := cells[a3].(flat := Splice(cells[a3].flat, 0, record));
    var tagged := c.(tag := Some(GUARDIAN));
    if a2 == a3 {
      assert cells[a3 := c][a3 := tagged] == cells[a3 := tagged];
    } else {
      var e := cells[a2].(flat := Splice(cells[a2].flat, 1000, Itob(now + GRACE)));
      assert cells[a3 := c][a2 := e][a3 := tagged] == cells[a3 := tagged][a2 := e];
    }
  }

  lemma InstallEffects(env: Env, st: CoreState, vaa: bytes, off: nat, tx: Txn, isBoot: bool, now: uint64, g: (CoreState, seq<Event>))
    returns (fx: seq<Effect>)
    requires InstallSet(env, st, vaa, off, tx, isBoot, now) == Some(g)
    ensures Applied(env.at, st.cells, fx) == Some(g.0.cells) && Events(fx) == g.1
    ensures Addressable(fx)
    ensures tx.Account(2) == tx.Account(3) || (tx.Account(2).Some? && !IsReplayAccount(env.at, tx.Account(2).value)) ==> Spares(env.at, fx)
  {
    hide InstallSet, Splice, Itob, SetRecord, FromBE, IsReplayAccount, Applied, Events, ReadInt;
    var idx, record, a2 := InstallParts(env, st, vaa, off, tx, isBoot, now, g);
    var at := env.at;
    var stored := Stored(idx, record);
    OneEffect(at, st.cells, stored);
    fx := [stored];
    if a2 != at(idx, GUARDIAN) {
      Then(at, st.cells, fx, Dated(a2, now + GRACE));
      fx := fx + [Dated(a2, now + GRACE)];
    }
    Then(at, st.cells, fx, Noted(g.1[0]));
    fx := fx + [Noted(g.1[0])];
    assert [] + [] + [g.1[0]] == g.1;
  }

  lemma GovernanceEffects(env: Env, st: CoreState, tx: Txn, isBoot: bool, now: uint64, g: (CoreState, seq<Event>)) returns (fx: seq<Effect>)
    requires HandleGovernance(env, st, tx, isBoot, now) == Some(g)
    ensures Applied(env.at, st.cells, fx) == Some(g.0.cells) && Events(fx) == g.1
    ensures Addressable(fx)
    ensures tx.Account(2) == tx.Account(3) || (tx.Account(2).Some? && !IsReplayAccount(env.at, tx.Account(2).value)) ==> Spares(env.at, fx)
  {
    hide HandleGovernance, InstallSet, IsReplayAccount;
    OtherActions(env, st, tx, isBoot, now, g);
    var vaa := tx.args[1];
    if vaa[ActionOffset(vaa[5])] == 2 {
      fx := InstallEffects(env, st, vaa, ActionOffset(vaa[5]), tx, isBoot, now, g);
    } else {
      fx := [];
    }
  }

  lemma DuplicateEffect(env: Env, cells: Cells, tx: Txn, d: (Cells, seq<Event>)) returns (m: Message)
    requires CheckForDuplicate(env, cells, tx) == Some(d)
    ensures |tx.args| > 1 && MessageOf(tx.args[1]) == Some(m)
    ensures Applied(env.at, cells, [Marked(m)]) == Some(d.0) && Events([Marked(m)]) == d.1 == [Accepted(m)]
  {
    var c;
    m, c := DuplicateCell(env, cells, tx, d);
    OneEffect(env.at, cells, Marked(m));
  }

  lemma PublishEffect(env: Env, st: CoreState, group: Group, t: nat, r: (CoreState, seq<Event>)) returns (n: uint64)
    requires t < |group| && PublishMessage(env, st, group, t) == Some(r)
    ensures Applied(env.at, st.cells, [Counted(group[t].sender, n)]) == Some(r.0.cells)
    ensures Events([Counted(group[t].sender, n)]) == r.1
  {
    var a := env.at(0, group[t].sender);
    n := Counter(env.at, st.cells, group[t].sender) + 1;
    OneEffect(env.at, st.cells, Counted(group[t].sender, n));
    var c := Cell(Splice(st.cells[a].flat, 0, Itob(n)), Some(PUBLISH_MESSAGE));
    assert st.cells[a := c.(tag := st.cells[a].tag)][a := c] == st.cells[a := c];
  }

  /** A guardian account holds no replay marks. */
  lemma GuardianSpared(at: Locator, idx: nat)
    requires Injective(at)
    ensures !IsReplayAccount(at, at(idx, GUARDIAN))
  {
  }

  /** Marking and then governing. */
  lemma Combine(env: Env, cells: Cells, m: Message, d: (Cells, seq<Event>), g: (Cells, seq<Event>), gx: seq<Effect>)
    requires Applied(env.at, cells, [Marked(m)]) == Some(d.0) && Events([Marked(m)]) == d.1
    requires Applied(env.at, d.0, gx) == Some(g.0) && Events(gx) == g.1
    ensures Applied(env.at, cells, [Marked(m)] + gx) == Some(g.0) && Events([Marked(m)] + gx) == d.1 + g.1
  {
    AppliedAppend(env.at, cells, [Marked(m)], gx);
  }

  lemma InitEffects(env: Env, st: CoreState, tx: Txn, now: uint64, r: (CoreState, seq<Event>)) returns (fx: seq<Effect>)
    requires Init(env, st, tx, now) == Some(r)
    ensures Applied(env.at, st.cells, fx) == Some(r.0.cells) && Events(fx) == r.1
    ensures Addressable(fx)
    ensures tx.Account(2) == tx.Account(3) || (tx.Account(2).Some? && !IsReplayAccount(env.at, tx.Account(2).value)) ==> Spares(env.at, fx)
  {
    hide CheckForDuplicate, HandleGovernance, IsReplayAccount;
    var d := CheckForDuplicate(env, st.cells, tx).value;
    var st1 := st.(vphash := tx.args[2], booted := true, cells := d.0);
    var g := HandleGovernance(env, st1, tx, true, now).value;
    var m := DuplicateEffect(env, st.cells, tx, d);
    var gx := GovernanceEffects(env, st1, tx, true, now, g);
    Combine(env, st.cells, m, d, (g.0.cells, g.1), gx);
    fx := [Marked(m)] + gx;
  }

  /** `governance` relies on the account the `verifyVAA` call in front has checked. */
  lemma LaterEffects(env: Env, st: CoreState, group: Group, t: nat, now: uint64, r: (CoreState, seq<Event>)) returns (fx: seq<Effect>)
    requires 0 < t < |group| && Governance(env, st, group, t, now) == Some(r)
    requires VerifyVAA(env.crypto, env.at, st.cells, st.vphash, group, t - 1, now).Some?
    ensures Applied(env.at, st.cells, fx) == Some(r.0.cells) && Events(fx) == r.1
    ensures Addressable(fx)
    ensures Injective(env.at) ==> Spares(env.at, fx)
  {
    hide CheckForDuplicate, HandleGovernance, Governance, VerifyVAA, IsReplayAccount, Injective;
    var d, g := GovernanceParts(env, st, group, t, now, r);
    NamedSet(env.crypto, env.at, st.cells, st.vphash, group, t - 1, now);
    if Injective(env.at) { GuardianSpared(env.at, FromBE(group[t - 1].args[1][1..5])); }
    var m := DuplicateEffect(env, st.cells, group[t], d);
    var gx := GovernanceEffects(env, st.(cells := d.0), group[t], false, now, g);
    Combine(env, st.cells, m, d, (g.0.cells, g.1), gx);
    fx := [Marked(m)] + gx;
  }

  predicate VerifiesVaa(env: Env, tx: Txn) {
    tx.Calls(env.app.id) && tx.onCompletion == NoOp && tx.Arg(0) == Some(VERIFY_VAA)
  }

  /** A `verifyVAA` call just in front was made in this state. */
  predicate InFront(env: Env, st: CoreState, group: Group, now: uint64, t: nat)
    requires t < |group|
  {
    t > 0 && VerifiesVaa(env, group[t - 1]) ==> VerifyVAA(env.crypto, env.at, st.cells, st.vphash, group, t - 1, now).Some?
  }

  lemma CallEffects(env: Env, st: CoreState, group: Group, now: uint64, t: nat, r: (CoreState, seq<Event>)) returns (fx: seq<Effect>)
    requires Injective(env.at) && t < |group| && InFront(env, st, group, now, t)
    requires Call(env, st, group, t, now) == Some(r)
    ensures Applied(env.at, st.cells, fx) == Some(r.0.cells) && Events(fx) == r.1
    ensures IsAddress(group[t].sender) ==> Addressable(fx)
    ensures BootSpares(env, group[t]) ==> Spares(env.at, fx)
  {
    hide Injective, PublishMessage, Init, Governance, VerifyVAA, IsReplayAccount, ApplyEffect;
    var tx := group[t];
    fx := [];
    if tx.Calls(env.app.id) {
      if tx.onCompletion == OptIn {
        OneEffect(env.at, st.cells, Joined(tx.sender));
        JoinEffect(env, st, group, t, r);
        fx := [Joined(tx.sender)];
      } else {
        var m := tx.args[0];
        if m == PUBLISH_MESSAGE {
          var n := PublishEffect(env, st, group, t, r);
          fx := [Counted(tx.sender, n)];
        } else if m == INIT {
          fx := InitEffects(env, st, tx, now, r);
        } else if m == VERIFY_VAA {
          OneEffect(env.at, st.cells, Noted(r.1[0]));
          NotedEffect(env.at, st.cells, r.1[0]);
          fx := [Noted(r.1[0])];
        } else if m == GOVERNANCE {
          NotFirst(env, st, group, t, now, r);
          VerifiedBefore(env, st, group, t, now, r);
          fx := LaterEffects(env, st, group, t, now, r);
        }
      }
    }
  }

  lemma JoinEffect(env: Env, st: CoreState, group: Group, t: nat, r: (CoreState, seq<Event>))
    requires t < |group| && JoinStorage(env, st, group, t) == Some(r)
    ensures ApplyEffect(env.at, st.cells, Joined(group[t].sender)) == Some(r.0.cells) && r.1 == []
  {
  }

  lemma NotedEffect(at: Locator, cells: Cells, ev: Event)
    requires !ev.Accepted? && !ev.Published?
    ensures ApplyEffect(at, cells, Noted(ev)) == Some(cells)
  {
  }

  lemma NotFirst(env: Env, st: CoreState, group: Group, t: nat, now: uint64, r: (CoreState, seq<Event>))
    requires t < |group| && Governance(env, st, group, t, now) == Some(r)
    ensures t > 0
  {
    hide CheckForDuplicate, HandleGovernance;
  }

  lemma VerifiedBefore(env: Env, st: CoreState, group: Group, t: nat, now: uint64, r: (CoreState, seq<Event>))
    requires 0 < t < |group| && Governance(env, st, group, t, now) == Some(r) && group[t].Calls(env.app.id)
    ensures group[t - 1].Calls(env.app.id) && group[t - 1].onCompletion == NoOp && group[t - 1].Arg(0) == Some(VERIFY_VAA)
  {
    hide CheckForDuplicate, HandleGovernance;
  }

  lemma GroupInFront(env: Env, st: CoreState, group: Group, now: uint64, t: nat)
    requires t < |group| && After(env, st, group, now, t).Some?
    ensures InFront(env, After(env, st, group, now, t).value.0, group, now, t)
  {
    hide VerifyVAA, After;
    if t > 0 && VerifiesVaa(env, group[t - 1]) { VerifiedJustBefore(env, st, group, now, t); }
  }

  lemma {:induction false} AfterEffects(env: Env, st: CoreState, group: Group, now: uint64, k: nat) returns (fx: seq<Effect>)
    requires Injective(env.at) && k <= |group| && After(env, st, group, now, k).Some?
    ensures
      var r := After(env, st, group, now, k).value;
      Applied(env.at, st.cells, fx) == Some(r.0.cells) && Events(fx) == r.1
    ensures Addressed(group) ==> Addressable(fx)
    ensures GroupSpares(env, group) ==> Spares(env.at, fx)
  {
    hide Injective, Call, IsReplayAccount, BootSpares, IsAddress, ApplyEffect, EventOf, InFront;
    if k == 0 {
      fx := [];
    } else {
      var before := After(env, st, group, now, k - 1).value;
      var step := Call(env, before.0, group, k - 1, now).value;
      var fx0 := AfterEffects(env, st, group, now, k - 1);
      GroupInFront(env, st, group, now, k - 1);
      var gx := CallEffects(env, before.0, group, now, k - 1, step);
      AppliedAppend(env.at, st.cells, fx0, gx);
      fx := fx0 + gx;
    }
  }

  // ---------- runs ----------

  ghost predicate AddressedRun(env: Env, blocks: seq<Block>) {
    forall i: nat | Committed(env, blocks, i) :: Addressed(blocks[i].group)
  }

  ghost predicate SparingRun(env: Env, blocks: seq<Block>) {
    forall i: nat | Committed(env, blocks, i) :: GroupSpares(env, blocks[i].group)
  }

  lemma PrefixHypotheses(env: Env, blocks: seq<Block>, n: nat)
    requires n <= |blocks|
    ensures AddressedRun(env, blocks) ==> AddressedRun(env, blocks[..n])
    ensures SparingRun(env, blocks) ==> SparingRun(env, blocks[..n])
  {
    hide Committed, Addressed, GroupSpares;
    forall i: nat | Committed(env, blocks[..n], i)
      ensures i < n && Committed(env, blocks, i) && blocks[..n][i] == blocks[i]
    {
      CommittedInside(env, blocks[..n], i);
      CommittedPrefix(env, blocks, n, i);
    }
  }

  lemma LastHypotheses(env: Env, blocks: seq<Block>, i: nat)
    requires Committed(env, blocks, i)
    ensures i < |blocks|
    ensures AddressedRun(env, blocks) ==> Addressed(blocks[i].group)
    ensures SparingRun(env, blocks) ==> GroupSpares(env, blocks[i].group)
  {
    hide Addressed, GroupSpares;
    CommittedInside(env, blocks, i);
  }

  /** The effects of the rest of a run. */
  lemma {:induction false} RunEffects(env: Env, blocks: seq<Block>, more: seq<Block>) returns (fx: seq<Effect>)
    requires Injective(env.at)
    ensures Applied(env.at, Run(env, blocks).0.cells, fx) == Some(Run(env, blocks + more).0.cells)
    ensures Run(env, blocks + more).1 == Run(env, blocks).1 + Events(fx)
    ensures AddressedRun(env, blocks + more) ==> Addressable(fx)
    ensures SparingRun(env, blocks + more) ==> Spares(env.at, fx)
  {
    hide Injective, Submit, After, AddressedRun, SparingRun, ApplyEffect, EventOf, IsReplayAccount, Run, Committed;
    if more == [] {
      assert blocks + more == blocks;
      fx := [];
    } else {
      var all, n := blocks + more, |blocks + more| - 1;
      assert all[..n] == blocks + more[..|more| - 1];
      PrefixHypotheses(env, all, n);
      var fx0 := RunEffects(env, blocks, more[..|more| - 1]);
      RunLast(env, all);
      var b, before := all[n], Run(env, all[..n]);
      if Committed(env, all, n) {
        var gx := AfterEffects(env, before.0, b.group, b.now, |b.group|);
        LastHypotheses(env, all, n);
        AppliedAppend(env.at, Run(env, blocks).0.cells, fx0, gx);
        fx := fx0 + gx;
      } else {
        fx := fx0;
      }
    }
  }

  // ---------- counters ----------

  lemma PublishedAppend(trace: seq<Event>, ev: Event, w: bytes)
    ensures PublishedBy(trace + [ev], w) == PublishedBy(trace, w) + (if ev.Published? && ev.sender == w then 1 else 0)
  {
    assert (trace + [ev])[..|trace|] == trace;
  }

  ghost predicate Numbered(trace: seq<Event>) {
    forall i | 0 <= i < |trace| && trace[i].Published? :: trace[i].sequence == PublishedBy(trace[..i], trace[i].sender) + 1
  }

  ghost predicate CountsShown(at: Locator, cells: Cells, trace: seq<Event>) {
    && (forall w | IsAddress(w) :: Counter(at, cells, w) == PublishedBy(trace, w))
    && Numbered(trace)
  }

  lemma NumberedAppend(trace: seq<Event>, ev: Event)
    requires Numbered(trace) && (ev.Published? ==> ev.sequence == PublishedBy(trace, ev.sender) + 1)
    ensures Numbered(trace + [ev])
  {
    hide PublishedBy;
    var t := trace + [ev];
    forall i | 0 <= i < |t| && t[i].Published? ensures t[i].sequence == PublishedBy(t[..i], t[i].sender) + 1 {
      if i < |trace| {
        assert t[..i] == trace[..i];
      } else {
        assert t[..i] == trace;
      }
    }
  }

  lemma CounterAfter(at: Locator, cells: Cells, e: Effect, cells': Cells, w: bytes)
    requires Injective(at) && ApplyEffect(at, cells, e) == Some(cells') && IsAddress(w) && (e.Counted? ==> IsAddress(e.sender))
    ensures Counter(at, cells', w) == Counter(at, cells, w) + (if e.Counted? && e.sender == w then 1 else 0)
  {
    hide Bit, MarkBit, FromBE, Itob;
    match e
    case Joined(acct) =>
      BlankCounter();
    case Marked(m) =>
      assert at(SlotOf(m.sequence).block, m.emitter) != at(0, w);
    case Counted(sender, n) =>
      ItobBtoi(n);
      if sender == w {
        assert cells'[at(0, w)].flat[0..8] == Itob(n);
      } else {
        assert at(0, sender) != at(0, w);
      }
    case Stored(index, record) =>
      assert at(index, GUARDIAN) != at(0, w);
    case Dated(acct, expiry) =>
      if acct == at(0, w) { assert cells'[acct].flat[0..8] == cells[acct].flat[0..8]; }
    case Noted(_) =>
  }

  lemma BlankCounter()
    ensures FromBE(EMPTY_CELL.flat[0..8]) == 0
  {
    FromBEZeros(8);
    assert EMPTY_CELL.flat[0..8] == Zeros(8);
  }

  lemma CountsStep(at: Locator, cells: Cells, trace: seq<Event>, e: Effect, cells': Cells)
    requires Injective(at) && CountsShown(at, cells, trace) && ApplyEffect(at, cells, e) == Some(cells')
    requires e.Counted? ==> IsAddress(e.sender)
    ensures CountsShown(at, cells', trace + EventOf(e))
  {
    hide Injective, Numbered, PublishedBy;
    if e.Counted? { NextNumber(at, cells, e, cells'); }
    hide ApplyEffect, Counter;
    forall w | IsAddress(w) ensures Counter(at, cells', w) == PublishedBy(trace + EventOf(e), w) {
      CounterAfter(at, cells, e, cells', w);
      if EventOf(e) == [] {
        assert trace + EventOf(e) == trace;
      } else {
        PublishedAppend(trace, EventOf(e)[0], w);
      }
    }
    if EventOf(e) == [] {
      assert trace + EventOf(e) == trace;
    } else {
      NumberedAppend(trace, EventOf(e)[0]);
    }
  }

  lemma NextNumber(at: Locator, cells: Cells, e: Effect, cells': Cells)
    requires e.Counted? && ApplyEffect(at, cells, e) == Some(cells')
    ensures e.n == Counter(at, cells, e.sender) + 1
  {
  }

  lemma {:induction false} CountsAfter(at: Locator, fx: seq<Effect>)
    requires Injective(at) && Addressable(fx) && Applied(at, map[], fx).Some?
    ensures CountsShown(at, Applied(at, map[], fx).value, Events(fx))
  {
    hide Injective, CountsShown, ApplyEffect, EventOf, IsAddress;
    if fx == [] {
      NothingShown(at);
    } else {
      var init, e := fx[..|fx| - 1], fx[|fx| - 1];
      CountsAfter(at, init);
      CountsStep(at, Applied(at, map[], init).value, Events(init), e, Applied(at, map[], fx).value);
    }
  }

  lemma NothingShown(at: Locator)
    ensures CountsShown(at, map[], []) && SeenShown(at, map[], []) && RolesKept(at, map[])
  {
  }

  // ---------- marks ----------

  /** The bits show what was accepted, and nothing was accepted twice. */
  ghost predicate SeenShown(at: Locator, cells: Cells, trace: seq<Event>) {
    && (forall m: Message | |m.emitter| == 34 :: Seen(at, cells, m) <==> Accepted(m) in trace)
    && (forall i, j | 0 <= i < j < |trace| && trace[i].Accepted? :: trace[i] != trace[j])
  }

  /** What one effect does to a message's bit. */
  lemma SeenAfter(at: Locator, cells: Cells, e: Effect, cells': Cells, m: Message)
    requires Injective(at) && ApplyEffect(at, cells, e) == Some(cells') && |m.emitter| == 34
    requires e.Counted? ==> IsAddress(e.sender)
    requires e.Dated? ==> !IsReplayAccount(at, e.acct)
    ensures Seen(at, cells', m) <==> Seen(at, cells, m) || e == Marked(m)
  {
    hide FromBE, Itob, MarkBit, Bit;
    var s := SlotOf(m.sequence);
    var a := at(s.block, m.emitter);
    match e
    case Joined(acct) =>
      ZeroHasNoBits(s.bit);
    case Marked(m') =>
      MarkedBit(at, cells, m', m);
    case Counted(sender, n) =>
      assert at(0, sender) != a;
    case Stored(index, record) =>
      assert at(index, GUARDIAN) != a;
    case Dated(acct, expiry) =>
      if acct == a {
        LastBlock(m.sequence);
      }
    case Noted(_) =>
  }

  /** Beyond the last whole block of sequence numbers only the first bytes hold messages. */
  lemma LastBlock(sequence: uint64)
    ensures MAX_BITS * (SlotOf(sequence).block + 1) > U64 ==> SlotOf(sequence).byteAt < 1000
  {
    var s := SlotOf(sequence);
    SlotBijection(sequence, s);
    if MAX_BITS * (s.block + 1) > U64 {
      assert s.block >= 1210416277802464;
      assert 8 * s.byteAt <= sequence - MAX_BITS * s.block;
    }
  }

  lemma MarkedBit(at: Locator, cells: Cells, m': Message, m: Message)
    requires Injective(at) && ApplyEffect(at, cells, Marked(m')).Some?
    ensures Seen(at, ApplyEffect(at, cells, Marked(m')).value, m) <==> Seen(at, cells, m) || m == m'
  {
    var s', s := SlotOf(m'.sequence), SlotOf(m.sequence);
    var a := at(s'.block, m'.emitter);
    MarkBitEffect(cells[a], s', s);
    SlotBijection(m'.sequence, s');
    SlotBijection(m.sequence, s);
    hide Bit, MarkBit;
    if at(s.block, m.emitter) == a {
      assert s.block == s'.block && m.emitter == m'.emitter;
    }
  }

  lemma SeenStep(at: Locator, cells: Cells, trace: seq<Event>, e: Effect, cells': Cells)
    requires Injective(at) && SeenShown(at, cells, trace) && ApplyEffect(at, cells, e) == Some(cells')
    requires e.Counted? ==> IsAddress(e.sender)
    requires e.Dated? ==> !IsReplayAccount(at, e.acct)
    ensures SeenShown(at, cells', trace + EventOf(e))
  {
    if e.Marked? { NewMark(at, cells, e, cells'); }
    NotedKind(at, cells, e, cells');
    hide Injective, Seen, ApplyEffect, IsReplayAccount;
    var trace' := trace + EventOf(e);
    forall m: Message | |m.emitter| == 34 ensures Seen(at, cells', m) <==> Accepted(m) in trace' {
      SeenAfter(at, cells, e, cells', m);
      assert Accepted(m) in trace' <==> Accepted(m) in trace || e == Marked(m);
    }
    forall i, j | 0 <= i < j < |trace'| && trace'[i].Accepted? ensures trace'[i] != trace'[j] {
      if j == |trace| && e.Marked? {
        assert trace'[i] == trace[i] && trace[i] in trace;
      }
    }
  }

  lemma NewMark(at: Locator, cells: Cells, e: Effect, cells': Cells)
    requires e.Marked? && ApplyEffect(at, cells, e) == Some(cells')
    ensures |e.msg.emitter| == 34 && !Seen(at, cells, e.msg)
  {
  }

  lemma NotedKind(at: Locator, cells: Cells, e: Effect, cells': Cells)
    requires ApplyEffect(at, cells, e) == Some(cells')
    ensures e.Noted? ==> !e.event.Accepted? && !e.event.Published?
  {
  }

  lemma {:induction false} SeenAfterAll(at: Locator, fx: seq<Effect>)
    requires Injective(at) && Addressable(fx) && Spares(at, fx) && Applied(at, map[], fx).Some?
    ensures SeenShown(at, Applied(at, map[], fx).value, Events(fx))
  {
    hide Injective, SeenShown, ApplyEffect, EventOf, IsAddress, IsReplayAccount;
    if fx == [] {
      NothingShown(at);
    } else {
      var init, e := fx[..|fx| - 1], fx[|fx| - 1];
      SeenAfterAll(at, init);
      SeenStep(at, Applied(at, map[], init).value, Events(init), e, Applied(at, map[], fx).value);
    }
  }

  // ---------- tags ----------

  /** A tagged account carries the tag of its owner's role. */
  ghost predicate RolesKept(at: Locator, cells: Cells) {
    forall i, e :: at(i, e) in cells && cells[at(i, e)].tag.Some? ==> cells[at(i, e)].tag == Some(RoleTag(e))
  }

  lemma RolesStep(at: Locator, cells: Cells, e: Effect, cells': Cells)
    requires Injective(at) && RolesKept(at, cells) && ApplyEffect(at, cells, e) == Some(cells')
    requires e.Counted? ==> IsAddress(e.sender)
    ensures RolesKept(at, cells') && TagsKept(cells, cells')
  {
    hide Bit, MarkBit, Itob, Splice, FromBE;
    match e
    case Joined(_) =>
    case Marked(m) => RoleWritten(at, cells, SlotOf(m.sequence).block, m.emitter, cells'[at(SlotOf(m.sequence).block, m.emitter)]);
    case Counted(sender, _) => RoleWritten(at, cells, 0, sender, cells'[at(0, sender)]);
    case Stored(index, _) => RoleWritten(at, cells, index, GUARDIAN, cells'[at(index, GUARDIAN)]);
    case Dated(_, _) =>
    case Noted(_) =>
  }

  lemma RoleWritten(at: Locator, cells: Cells, i: nat, owner: bytes, c: Cell)
    requires Injective(at) && RolesKept(at, cells) && c.tag == Some(RoleTag(owner))
    ensures RolesKept(at, cells[at(i, owner) := c]) && TagsKept(cells, cells[at(i, owner) := c])
  {
    var cells' := cells[at(i, owner) := c];
    forall k, f | at(k, f) in cells' && cells'[at(k, f)].tag.Some? ensures cells'[at(k, f)].tag == Some(RoleTag(f)) {
      if at(k, f) == at(i, owner) { assert f == owner; }
    }
  }

  lemma {:induction false} RolesAfter(at: Locator, cells: Cells, fx: seq<Effect>)
    requires Injective(at) && RolesKept(at, cells) && Addressable(fx) && Applied(at, cells, fx).Some?
    ensures RolesKept(at, Applied(at, cells, fx).value) && TagsKept(cells, Applied(at, cells, fx).value)
  {
    hide Injective, RolesKept, ApplyEffect, IsAddress;
    if fx != [] {
      var init, e := fx[..|fx| - 1], fx[|fx| - 1];
      RolesAfter(at, cells, init);
      RolesStep(at, Applied(at, cells, init).value, e, Applied(at, cells, fx).value);
    }
  }
}
