/** The core contract implements the protocol: every run of transaction groups leaves a trace
    the protocol allows, and the storage accounts always show the protocol's state. */
module CoreRefinement {
  import opened Teal
  import opened Transactions
  import opened VaaVerify
  import opened VerifyVaa
  import opened Template
  import opened LocalBlob
  import opened Replay
  import opened Protocol
  import opened Core

  // ---------- how accounts show the protocol state ----------

  /** Who can send a transaction: a 32-byte address, or the program a storage account's
      address stands for. */
  predicate IsAddress(a: bytes) {
    |a| == 32 || |a| > 34
  }

  lemma ProgramIsAddress(app: App, idx: nat, owner: bytes)
    ensures IsAddress(SigProgram(app, idx, owner))
  {
    assert |GetBytecodeChunk(SRC, LABELS, 4)| == 21 && |GetBytecodeChunk(SRC, LABELS, 2)| == 15;
  }

  ghost predicate SeenRel(at: Locator, cells: Cells, seen: set<Message>) {
    && (forall m: Message | |m.emitter| == 34 :: Seen(at, cells, m) <==> m in seen)
    && (forall m | m in seen :: |m.emitter| == 34)
  }

  function Counter(at: Locator, cells: Cells, sender: bytes): nat {
    if at(0, sender) in cells then FromBE(cells[at(0, sender)].flat[0..8]) else 0
  }

  ghost predicate CountRel(at: Locator, cells: Cells, p: Protocol) {
    forall w | IsAddress(w) :: Counter(at, cells, w) == p.Count(w)
  }

  /** The account holds exactly this guardian set. */
  predicate Holds(c: Cell, s: GuardianSet) {
    && ProperKeys(s.keys)
    && c.flat[0] == |s.keys| / 20
    && c.flat[1..1 + |s.keys|] == s.keys
    && c.flat[1000..1008] == Itob(s.expiry)
  }

  predicate Tagged(cells: Cells, a: bytes, tag: bytes) {
    a in cells && cells[a].tag == Some(tag)
  }

  ghost predicate SetsRel(at: Locator, cells: Cells, p: Protocol) {
    && (forall i: nat :: Tagged(cells, at(i, GUARDIAN), GUARDIAN) <==> p.first <= i < p.first + |p.sets|)
    && (forall i: nat | p.first <= i < p.first + |p.sets| :: Holds(cells[at(i, GUARDIAN)], p.sets[i - p.first]))
    && OnlyLastRules(p.sets)
  }

  /** The tag that goes with the owner field of an account's address. */
  function RoleTag(owner: bytes): bytes {
    if |owner| == 34 then DUPLICATE else if owner == GUARDIAN then GUARDIAN else PUBLISH_MESSAGE
  }

  ghost predicate TagsRel(at: Locator, cells: Cells) {
    && (forall i, e :: at(i, e) in cells && cells[at(i, e)].tag.Some? ==> cells[at(i, e)].tag == Some(RoleTag(e)))
    && (forall a | a in cells :: cells[a].tag.None? ==> cells[a] == EMPTY_CELL)
  }

  /** No account disappears, and no tag is lost or replaced. */
  ghost predicate TagsKept(cells: Cells, cells': Cells) {
    forall a | a in cells && cells[a].tag.Some? :: a in cells' && cells'[a].tag == cells[a].tag
  }

  ghost predicate GlobalsRel(env: Env, st: CoreState, p: Protocol) {
    if p.Booted() then st.booted && st.setIndex == p.Current() && st.vphash == env.verifier else st.setIndex == 0
  }

  ghost predicate Rel(env: Env, st: CoreState, p: Protocol) {
    && SeenRel(env.at, st.cells, p.seen)
    && CountRel(env.at, st.cells, p)
    && SetsRel(env.at, st.cells, p)
    && TagsRel(env.at, st.cells)
    && GlobalsRel(env, st, p)
  }

  // ---------- what the environment is assumed to do ----------

  /** A guardian-set message whose record stays below the expiry field. */
  predicate SmallSet(vaa: bytes) {
    SetRecord(vaa).Some? && ActionOffset(vaa[5]) < |vaa| && vaa[ActionOffset(vaa[5])] == 2 ==> |SetRecord(vaa).value| <= 1 + 20 * 49
  }

  /** The deployer boots with accounts 2 and 3 equal and the stateless program's address, as
      the administration script does; guardian sets have at most 49 members. */
  predicate GoodCall(env: Env, t: Txn) {
    && IsAddress(t.sender)
    && (t.Calls(env.app.id) && |t.args| > 1 ==>
      && (t.args[0] == INIT ==> t.Account(2) == t.Account(3) && t.Arg(2) == Some(env.verifier))
      && (t.args[0] == INIT || t.args[0] == GOVERNANCE ==> SmallSet(t.args[1])))
  }

  ghost predicate GoodGroup(env: Env, group: Group) {
    forall i | 0 <= i < |group| :: GoodCall(env, group[i])
  }

  // ---------- frames: one account changes, the other roles do not notice ----------

  lemma SeenFrame(at: Locator, cells: Cells, seen: set<Message>, i: nat, e: bytes, c: Cell)
    requires Injective(at) && SeenRel(at, cells, seen) && |e| != 34
    ensures SeenRel(at, cells[at(i, e) := c], seen)
  {
    var cells' := cells[at(i, e) := c];
    forall m: Message | |m.emitter| == 34 ensures Seen(at, cells', m) <==> m in seen {
      assert at(SlotOf(m.sequence).block, m.emitter) != at(i, e);
      assert Seen(at, cells', m) <==> Seen(at, cells, m);
    }
  }

  lemma CountFrame(at: Locator, cells: Cells, p: Protocol, i: nat, e: bytes, c: Cell)
    requires Injective(at) && CountRel(at, cells, p) && !IsAddress(e)
    ensures CountRel(at, cells[at(i, e) := c], p)
  {
    var cells' := cells[at(i, e) := c];
    forall w | IsAddress(w) ensures Counter(at, cells', w) == p.Count(w) {
      assert at(0, w) != at(i, e);
      assert Counter(at, cells', w) == Counter(at, cells, w);
    }
  }

  lemma SetsFrame(at: Locator, cells: Cells, p: Protocol, i: nat, e: bytes, c: Cell)
    requires Injective(at) && SetsRel(at, cells, p) && e != GUARDIAN
    ensures SetsRel(at, cells[at(i, e) := c], p)
  {
    var cells' := cells[at(i, e) := c];
    forall k: nat ensures at(k, GUARDIAN) != at(i, e) {}
    assert forall k: nat :: Tagged(cells', at(k, GUARDIAN), GUARDIAN) <==> Tagged(cells, at(k, GUARDIAN), GUARDIAN);
  }

  lemma TagsFrame(at: Locator, cells: Cells, i: nat, e: bytes, c: Cell)
    requires Injective(at) && TagsRel(at, cells) && c.tag == Some(RoleTag(e))
    ensures TagsRel(at, cells[at(i, e) := c])
    ensures TagsKept(cells, cells[at(i, e) := c])
  {
    var cells' := cells[at(i, e) := c];
    forall k, f | at(k, f) in cells' && cells'[at(k, f)].tag.Some? ensures cells'[at(k, f)].tag == Some(RoleTag(f)) {
      if at(k, f) == at(i, e) { assert f == e; }
    }
  }

  // ---------- accepting a message ----------

  /** The two account updates of `checkForDuplicate` as one. */
  lemma DuplicateCell(env: Env, cells: Cells, tx: Txn, d: (Cells, seq<Event>)) returns (m: Message, c: Cell)
    requires CheckForDuplicate(env, cells, tx) == Some(d)
    ensures |m.emitter| == 34 && |tx.args| > 1 && MessageOf(tx.args[1]) == Some(m)
    ensures
      var a := env.at(SlotOf(m.sequence).block, m.emitter);
      && a in cells
      && c == MarkBit(cells[a], SlotOf(m.sequence)).(tag := Some(DUPLICATE))
      && Mark(env.at, cells, tx.args[1], a) == Some(cells[a := MarkBit(cells[a], SlotOf(m.sequence))])
      && d == (cells[a := c], [Accepted(m)])
  {
    m := MessageOf(tx.args[1]).value;
    var a := env.at(SlotOf(m.sequence).block, m.emitter);
    c := MarkBit(cells[a], SlotOf(m.sequence)).(tag := Some(DUPLICATE));
    assert cells[a := MarkBit(cells[a], SlotOf(m.sequence))][a := c] == cells[a := c];
  }

  lemma AcceptSeen(at: Locator, cells: Cells, seen: set<Message>, vaa: bytes, m: Message, c: Cell)
    requires Injective(at) && SeenRel(at, cells, seen) && |m.emitter| == 34 && MessageOf(vaa) == Some(m)
    requires
      var a := at(SlotOf(m.sequence).block, m.emitter);
      && a in cells
      && c.flat == MarkBit(cells[a], SlotOf(m.sequence)).flat
      && Mark(at, cells, vaa, a) == Some(cells[a := MarkBit(cells[a], SlotOf(m.sequence))])
    ensures m !in seen
    ensures SeenRel(at, cells[at(SlotOf(m.sequence).block, m.emitter) := c], seen + {m})
  {
    var a := at(SlotOf(m.sequence).block, m.emitter);
    MarkEffect(at, cells, vaa, a, m);
    var marked, cells' := cells[a := MarkBit(cells[a], SlotOf(m.sequence))], cells[a := c];
    forall m': Message | |m'.emitter| == 34 ensures Seen(at, cells', m') <==> m' in seen + {m} {
      assert Seen(at, cells', m') <==> Seen(at, marked, m');
    }
  }

  lemma AcceptSim(env: Env, st: CoreState, p: Protocol, tx: Txn, d: (Cells, seq<Event>)) returns (q: Protocol)
    requires Injective(env.at) && Rel(env, st, p)
    requires CheckForDuplicate(env, st.cells, tx) == Some(d)
    ensures Replayed(env.crypto, p, d.1) == Some(q) && q.sets == p.sets && q.first == p.first
    ensures Rel(env, st.(cells := d.0), q) && TagsKept(st.cells, d.0)
  {
    hide Injective, CheckForDuplicate, SeenRel, CountRel, SetsRel, TagsRel, TagsKept;
    var m, c := DuplicateCell(env, st.cells, tx, d);
    var block := SlotOf(m.sequence).block;
    q := p.(seen := p.seen + {m});
    AcceptSeen(env.at, st.cells, p.seen, tx.args[1], m, c);
    OneEvent(env.crypto, p, Accepted(m));
    CountFrame(env.at, st.cells, p, block, m.emitter, c);
    SetsFrame(env.at, st.cells, p, block, m.emitter, c);
    TagsFrame(env.at, st.cells, block, m.emitter, c);
    SameCounts(env.at, d.0, p, q);
    SameSets(env.at, d.0, p, q);
  }

  lemma SameCounts(at: Locator, cells: Cells, p: Protocol, q: Protocol)
    requires CountRel(at, cells, p) && q.counters == p.counters
    ensures CountRel(at, cells, q)
  {
    assert forall w :: q.Count(w) == p.Count(w);
  }

  lemma SameSets(at: Locator, cells: Cells, p: Protocol, q: Protocol)
    requires SetsRel(at, cells, p) && q.first == p.first && q.sets == p.sets
    ensures SetsRel(at, cells, q)
  {
  }

  lemma OneEvent(crypto: Crypto, p: Protocol, ev: Event)
    ensures Replayed(crypto, p, [ev]) == Apply(crypto, p, ev)
  {
    assert [ev][..0] == [];
  }

  // ---------- publishing ----------

  lemma PublishCount(at: Locator, cells: Cells, p: Protocol, w: bytes, n: uint64, c: Cell)
    requires Injective(at) && CountRel(at, cells, p) && c.flat[0..8] == Itob(n)
    ensures CountRel(at, cells[at(0, w) := c], p.(counters := p.counters[w := n]))
  {
    var cells', q := cells[at(0, w) := c], p.(counters := p.counters[w := n]);
    forall v | IsAddress(v) ensures Counter(at, cells', v) == q.Count(v) {
      if v == w {
        ItobBtoi(n);
      } else {
        assert at(0, v) != at(0, w);
        assert Counter(at, cells', v) == Counter(at, cells, v);
      }
    }
  }

  /** The account updates of `publishMessage` as one. */
  lemma PublishedCell(env: Env, st: CoreState, group: Group, t: nat, r: (CoreState, seq<Event>)) returns (n: uint64, c: Cell)
    requires t < |group| && PublishMessage(env, st, group, t) == Some(r)
    ensures
      var w := group[t].sender;
      && n == Counter(env.at, st.cells, w) + 1
      && r == (st.(cells := st.cells[env.at(0, w) := c]), [Published(w, n)])
    ensures c.tag == Some(PUBLISH_MESSAGE) && c.flat[0..8] == Itob(n)
  {
    var a := env.at(0, group[t].sender);
    n := FromBE(st.cells[a].flat[0..8]) + 1;
    c := Cell(Splice(st.cells[a].flat, 0, Itob(n)), Some(PUBLISH_MESSAGE));
    assert st.cells[a := c.(tag := st.cells[a].tag)][a := c] == st.cells[a := c];
  }

  lemma CounterIs(at: Locator, cells: Cells, p: Protocol, w: bytes)
    requires CountRel(at, cells, p) && IsAddress(w)
    ensures Counter(at, cells, w) == p.Count(w)
  {
  }

  lemma PublishSim(env: Env, st: CoreState, p: Protocol, group: Group, t: nat, r: (CoreState, seq<Event>)) returns (q: Protocol)
    requires Injective(env.at) && Rel(env, st, p) && t < |group| && IsAddress(group[t].sender)
    requires PublishMessage(env, st, group, t) == Some(r)
    ensures Replayed(env.crypto, p, r.1) == Some(q) && Rel(env, r.0, q) && TagsKept(st.cells, r.0.cells)
  {
    hide PublishMessage, Injective, SeenRel, CountRel, TagsRel, TagsKept, SetsRel;
    var w := group[t].sender;
    var n, c := PublishedCell(env, st, group, t, r);
    CounterIs(env.at, st.cells, p, w);
    q := p.(counters := p.counters[w := n]);
    OneEvent(env.crypto, p, Published(w, n));
    PublishCount(env.at, st.cells, p, w, n, c);
    SeenFrame(env.at, st.cells, p.seen, 0, w, c);
    SetsFrame(env.at, st.cells, p, 0, w, c);
    SameSets(env.at, r.0.cells, p, q);
    TagsFrame(env.at, st.cells, 0, w, c);
  }

  // ---------- opting in ----------

  lemma JoinSim(env: Env, st: CoreState, p: Protocol, group: Group, t: nat, r: (CoreState, seq<Event>))
    requires Rel(env, st, p) && t < |group|
    requires JoinStorage(env, st, group, t) == Some(r)
    ensures r.1 == [] && Rel(env, r.0, p) && TagsKept(st.cells, r.0.cells)
  {
    var a, cells, cells' := group[t].sender, st.cells, r.0.cells;
    forall m: Message | |m.emitter| == 34 ensures Seen(env.at, cells', m) <==> m in p.seen {
      ZeroHasNoBits(SlotOf(m.sequence).bit);
      assert Seen(env.at, cells', m) <==> Seen(env.at, cells, m);
    }
    forall w | IsAddress(w) ensures Counter(env.at, cells', w) == p.Count(w) {
      FromBEZeros(8);
      assert EMPTY_CELL.flat[0..8] == Zeros(8);
      assert Counter(env.at, cells', w) == Counter(env.at, cells, w);
    }
    assert forall k: nat :: Tagged(cells', env.at(k, GUARDIAN), GUARDIAN) <==> Tagged(cells, env.at(k, GUARDIAN), GUARDIAN);
  }

  // ---------- guardian sets ----------

  /** A stored set as `verifyVAA` reads it. */
  lemma HoldsLoad(c: Cell, s: GuardianSet)
    requires Holds(c, s)
    ensures LoadSet(c) == Some(StoredSet(|s.keys| / 20, s.keys, s.expiry))
  {
    assert 1 + 20 * (|s.keys| / 20) == 1 + |s.keys|;
    ItobBtoi(s.expiry);
  }

  /** A size byte and that many keys. */
  predicate ProperRecord(record: bytes) {
    |record| > 1 && var n: nat := record[0]; |record| == 1 + 20 * n && n <= 49
  }

  /** Writing a small record over a blank account stores the set without an expiry. */
  lemma InstallHolds(record: bytes, s: GuardianSet)
    requires ProperRecord(record)
    requires s == GuardianSet(record[1..], 0)
    ensures Holds(Cell(Splice(EMPTY_CELL.flat, 0, record), Some(GUARDIAN)), s)
  {
    var f := Splice(EMPTY_CELL.flat, 0, record);
    assert f[1000..1008] == Zeros(8);
    assert Itob(0) == Zeros(8) by {
      ItobBtoi(0);
      FromBEZeros(8);
      FromBEInjective(Itob(0), Zeros(8));
    }
    assert f[1..1 + |s.keys|] == s.keys;
  }

  lemma RetireHolds(c: Cell, s: GuardianSet, expiry: uint64)
    requires Holds(c, s)
    ensures Holds(c.(flat := Splice(c.flat, 1000, Itob(expiry))), s.(expiry := expiry))
  {
    var f := Splice(c.flat, 1000, Itob(expiry));
    assert f[1..1 + |s.keys|] == c.flat[1..1 + |s.keys|];
    assert f[1000..1008] == Itob(expiry);
  }

  lemma VerifiedSim(env: Env, st: CoreState, p: Protocol, group: Group, t: nat, now: uint64)
    returns (idx: nat, keys: bytes)
    requires Rel(env, st, p) && t < |group| && Authorised(env.crypto, env.verifier, group)
    requires VerifyVAA(env.crypto, env.at, st.cells, st.vphash, group, t, now).Some?
    ensures |group[t].args| > 1 && |group[t].args[1]| >= 6 && idx == FromBE(group[t].args[1][1..5])
    ensures group[t].Account(2) == Some(env.at(idx, GUARDIAN))
    ensures p.Booted() && p.first <= idx <= p.Current()
    ensures keys == p.sets[idx - p.first].keys && QuorumSigned(env.crypto, keys, group[t].args[1])
    ensures Apply(env.crypto, p, Verified(group[t].args[1], idx, now)) == Some(p)
  {
    hide VerifyVAA, QuorumSigned, LoadSet, Authorised, SeenRel, CountRel, TagsRel, OnlyLastRules, Holds;
    NamedSet(env.crypto, env.at, st.cells, st.vphash, group, t, now);
    idx := FromBE(group[t].args[1][1..5]);
    var a := env.at(idx, GUARDIAN);
    assert Tagged(st.cells, a, GUARDIAN);
    QuorumSoundness(env.crypto, env.at, st.cells, env.verifier, group, t, now);
    var s := p.sets[idx - p.first];
    keys := s.keys;
    HoldsLoad(st.cells[a], s);
  }

  lemma BlankGuardian(at: Locator, cells: Cells, p: Protocol, idx: nat)
    requires SetsRel(at, cells, p) && TagsRel(at, cells) && !p.Booted() && at(idx, GUARDIAN) in cells
    ensures cells[at(idx, GUARDIAN)] == EMPTY_CELL
  {
    assert !Tagged(cells, at(idx, GUARDIAN), GUARDIAN);
    assert RoleTag(GUARDIAN) == GUARDIAN;
  }

  lemma FirstSet(at: Locator, cells: Cells, p: Protocol, idx: nat, c: Cell)
    requires Injective(at) && SetsRel(at, cells, p) && !p.Booted() && c.tag == Some(GUARDIAN)
    ensures forall k: nat :: Tagged(cells[at(idx, GUARDIAN) := c], at(k, GUARDIAN), GUARDIAN) <==> k == idx
  {
    forall k: nat ensures Tagged(cells[at(idx, GUARDIAN) := c], at(k, GUARDIAN), GUARDIAN) <==> k == idx {
      assert k != idx ==> at(k, GUARDIAN) != at(idx, GUARDIAN);
      assert k != idx ==> !Tagged(cells, at(k, GUARDIAN), GUARDIAN);
    }
  }

  lemma BootSim(env: Env, st: CoreState, p: Protocol, a: bytes, idx: uint64, record: bytes, st': CoreState) returns (q: Protocol)
    requires Injective(env.at)
    requires SeenRel(env.at, st.cells, p.seen) && CountRel(env.at, st.cells, p) && SetsRel(env.at, st.cells, p) && TagsRel(env.at, st.cells)
    requires !p.Booted() && st.booted && st.vphash == env.verifier
    requires ProperRecord(record)
    requires a == env.at(idx, GUARDIAN) && a in st.cells
    requires st' == st.(setIndex := idx, cells := st.cells[a := Cell(Splice(st.cells[a].flat, 0, record), Some(GUARDIAN))])
    ensures Apply(env.crypto, p, Booted(idx, record[1..])) == Some(q) && Rel(env, st', q) && TagsKept(st.cells, st'.cells)
  {
    var s := GuardianSet(record[1..], 0);
    q := p.(first := idx, sets := [s]);
    RecordKeys(record);
    BlankGuardian(env.at, st.cells, p, idx);
    InstallHolds(record, s);
    var c := st'.cells[a];
    hide Injective, SeenRel, CountRel, TagsRel, TagsKept, Holds, Splice, ProperRecord;
    SeenFrame(env.at, st.cells, p.seen, idx, GUARDIAN, c);
    CountFrame(env.at, st.cells, p, idx, GUARDIAN, c);
    TagsFrame(env.at, st.cells, idx, GUARDIAN, c);
    SameCounts(env.at, st'.cells, p, q);
    FirstSet(env.at, st.cells, p, idx, c);
  }

  lemma OthersKept(at: Locator, cells: Cells, cur: nat, c1: Cell, c2: Cell, i: nat)
    requires Injective(at) && i != cur && i != cur + 1
    ensures
      var cells', a := cells[at(cur + 1, GUARDIAN) := c1][at(cur, GUARDIAN) := c2], at(i, GUARDIAN);
      && (a in cells' <==> a in cells)
      && (a in cells ==> cells'[a] == cells[a])
  {
  }

  /** The accounts and the line of sets after an upgrade: the account after the last set's
      takes a new set, and the last set's account is rewritten. */
  function Rewritten(at: Locator, cells: Cells, cur: nat, c1: Cell, c2: Cell): Cells {
    cells[at(cur + 1, GUARDIAN) := c1][at(cur, GUARDIAN) := c2]
  }

  function Extended(p: Protocol, s1: GuardianSet, s2: GuardianSet): Protocol
    requires p.Booted()
  {
    p.(sets := p.sets[..|p.sets| - 1] + [s2, s1])
  }

  lemma LineAt(at: Locator, cells: Cells, p: Protocol, c1: Cell, c2: Cell, s1: GuardianSet, s2: GuardianSet, i: nat)
    requires Injective(at) && SetsRel(at, cells, p) && p.Booted()
    requires c1.tag == Some(GUARDIAN) && c2.tag == Some(GUARDIAN) && Holds(c1, s1) && Holds(c2, s2)
    ensures
      var cells', q := Rewritten(at, cells, p.Current(), c1, c2), Extended(p, s1, s2);
      && (Tagged(cells', at(i, GUARDIAN), GUARDIAN) <==> q.first <= i < q.first + |q.sets|)
      && (q.first <= i < q.first + |q.sets| ==> Holds(cells'[at(i, GUARDIAN)], q.sets[i - q.first]))
  {
    hide Holds;
    var cur := p.Current();
    assert at(cur, GUARDIAN) != at(cur + 1, GUARDIAN);
    if i != cur && i != cur + 1 {
      OthersKept(at, cells, cur, c1, c2, i);
      assert Tagged(cells, at(i, GUARDIAN), GUARDIAN) <==> p.first <= i < p.first + |p.sets|;
      if p.first <= i < cur {
        assert Extended(p, s1, s2).sets[i - p.first] == p.sets[i - p.first];
      }
    }
  }

  lemma LineGrows(at: Locator, cells: Cells, p: Protocol, c1: Cell, c2: Cell, s1: GuardianSet, s2: GuardianSet)
    requires Injective(at) && SetsRel(at, cells, p) && p.Booted()
    requires c1.tag == Some(GUARDIAN) && c2.tag == Some(GUARDIAN) && Holds(c1, s1) && Holds(c2, s2)
    requires s1.expiry == 0 && s2.expiry > 0
    ensures SetsRel(at, Rewritten(at, cells, p.Current(), c1, c2), Extended(p, s1, s2))
  {
    hide Injective, Holds, Rewritten, Tagged;
    forall i: nat {
      LineAt(at, cells, p, c1, c2, s1, s2, i);
    }
  }

  /** Both writes of an upgrade, seen from the accounts. */
  lemma UpgradeSets(at: Locator, cells: Cells, p: Protocol, record: bytes, expiry: uint64)
    requires Injective(at) && SetsRel(at, cells, p) && TagsRel(at, cells) && p.Booted()
    requires ProperRecord(record) && expiry > 0
    requires at(p.Current(), GUARDIAN) in cells && at(p.Current() + 1, GUARDIAN) in cells
    ensures
      var old_, new_ := at(p.Current(), GUARDIAN), at(p.Current() + 1, GUARDIAN);
      var n := |p.sets| - 1;
      SetsRel(at,
        cells[new_ := Cell(Splice(cells[new_].flat, 0, record), Some(GUARDIAN))]
             [old_ := cells[old_].(flat := Splice(cells[old_].flat, 1000, Itob(expiry)))],
        p.(sets := p.sets[..n] + [GuardianSet(p.sets[n].keys, expiry), GuardianSet(record[1..], 0)]))
  {
    var n := |p.sets| - 1;
    var old_, new_ := at(p.Current(), GUARDIAN), at(p.Current() + 1, GUARDIAN);
    assert !Tagged(cells, new_, GUARDIAN);
    assert RoleTag(GUARDIAN) == GUARDIAN;
    assert cells[new_] == EMPTY_CELL;
    assert Tagged(cells, old_, GUARDIAN) && Holds(cells[old_], p.sets[n]);
    hide Injective, Holds, SetsRel, TagsRel;
    InstallHolds(record, GuardianSet(record[1..], 0));
    RetireHolds(cells[old_], p.sets[n], expiry);
    LineGrows(at, cells, p,
      Cell(Splice(cells[new_].flat, 0, record), Some(GUARDIAN)), cells[old_].(flat := Splice(cells[old_].flat, 1000, Itob(expiry))),
      GuardianSet(record[1..], 0), GuardianSet(p.sets[n].keys, expiry));
  }

  /** An upgrade touches guardian accounts only. */
  lemma UpgradeFrames(at: Locator, cells: Cells, p: Protocol, cur: nat, c1: Cell, c2: Cell)
    requires Injective(at) && SeenRel(at, cells, p.seen) && CountRel(at, cells, p) && TagsRel(at, cells)
    requires c1.tag == Some(GUARDIAN) && c2.tag == Some(GUARDIAN)
    ensures
      var cells' := cells[at(cur + 1, GUARDIAN) := c1][at(cur, GUARDIAN) := c2];
      SeenRel(at, cells', p.seen) && CountRel(at, cells', p) && TagsRel(at, cells') && TagsKept(cells, cells')
  {
    hide Injective, SeenRel, CountRel, TagsRel;
    var mid := cells[at(cur + 1, GUARDIAN) := c1];
    SeenFrame(at, cells, p.seen, cur + 1, GUARDIAN, c1);
    SeenFrame(at, mid, p.seen, cur, GUARDIAN, c2);
    CountFrame(at, cells, p, cur + 1, GUARDIAN, c1);
    CountFrame(at, mid, p, cur, GUARDIAN, c2);
    TagsFrame(at, cells, cur + 1, GUARDIAN, c1);
    TagsFrame(at, mid, cur, GUARDIAN, c2);
  }

  lemma UpgradeSim(env: Env, st: CoreState, p: Protocol, vaa: bytes, record: bytes, now: uint64, st': CoreState) returns (q: Protocol)
    requires Injective(env.at) && Rel(env, st, p) && p.Booted()
    requires ProperRecord(record) && now + GRACE < U64
    requires QuorumSigned(env.crypto, p.sets[|p.sets| - 1].keys, vaa)
    requires
      var old_, new_ := env.at(p.Current(), GUARDIAN), env.at(p.Current() + 1, GUARDIAN);
      && old_ in st.cells && new_ in st.cells
      && p.Current() + 1 < U64
      && st' == st.(setIndex := p.Current() + 1,
           cells := st.cells[new_ := Cell(Splice(st.cells[new_].flat, 0, record), Some(GUARDIAN))]
                            [old_ := st.cells[old_].(flat := Splice(st.cells[old_].flat, 1000, Itob(now + GRACE)))])
    ensures Apply(env.crypto, p, Upgraded(vaa, record[1..], now)) == Some(q) && Rel(env, st', q) && TagsKept(st.cells, st'.cells)
  {
    hide Injective, QuorumSigned, SeenRel, CountRel, SetsRel, TagsRel, TagsKept, ProperRecord, Splice;
    RecordKeys(record);
    var at, cells, cur := env.at, st.cells, p.Current();
    var old_, new_ := at(cur, GUARDIAN), at(cur + 1, GUARDIAN);
    var n := |p.sets| - 1;
    q := p.(sets := p.sets[..n] + [GuardianSet(p.sets[n].keys, now + GRACE), GuardianSet(record[1..], 0)]);
    CurrentTagged(at, cells, p);
    UpgradeSets(at, cells, p, record, now + GRACE);
    UpgradeFrames(at, cells, p, cur,
      Cell(Splice(cells[new_].flat, 0, record), Some(GUARDIAN)), cells[old_].(flat := Splice(cells[old_].flat, 1000, Itob(now + GRACE))));
    SameCounts(at, st'.cells, p, q);
  }

  lemma CurrentTagged(at: Locator, cells: Cells, p: Protocol)
    requires SetsRel(at, cells, p) && p.Booted()
    ensures Tagged(cells, at(p.Current(), GUARDIAN), GUARDIAN)
  {
  }

  lemma RecordKeys(record: bytes)
    requires ProperRecord(record)
    ensures 1 < |record| <= 981 && ProperKeys(record[1..])
  {
  }

  // ---------- whole transactions ----------

  lemma RecordIsProper(vaa: bytes)
    requires SmallSet(vaa) && SetRecord(vaa).Some?
    requires ActionOffset(vaa[5]) < |vaa| && vaa[ActionOffset(vaa[5])] == 2
    ensures ProperRecord(SetRecord(vaa).value)
  {
  }

  /** Governance messages other than guardian-set updates leave no trace. */
  lemma OtherActions(env: Env, st: CoreState, tx: Txn, isBoot: bool, now: uint64, g: (CoreState, seq<Event>))
    requires HandleGovernance(env, st, tx, isBoot, now) == Some(g)
    ensures |tx.args| > 1 && |tx.args[1]| > 5 && ActionOffset(tx.args[1][5]) < |tx.args[1]|
    ensures tx.args[1][ActionOffset(tx.args[1][5])] == 2 ==>
      InstallSet(env, st, tx.args[1], ActionOffset(tx.args[1][5]), tx, isBoot, now) == Some(g)
    ensures tx.args[1][ActionOffset(tx.args[1][5])] != 2 ==>
      g.1 == [] && g.0 == st.(messageFee := g.0.messageFee, updateHash := g.0.updateHash)
    ensures st.setIndex == 0 || FromBE(tx.args[1][1..5]) == st.setIndex
  {
  }

  lemma InstalledAtBoot(env: Env, st: CoreState, vaa: bytes, off: nat, tx: Txn, now: uint64, g: (CoreState, seq<Event>)) returns (idx: uint64, record: bytes)
    requires InstallSet(env, st, vaa, off, tx, true, now) == Some(g) && tx.Account(2) == tx.Account(3)
    ensures SetRecord(vaa) == Some(record) && |record| > 1
    ensures g.1 == [Booted(idx, record[1..])]
    ensures
      var a := env.at(idx, GUARDIAN);
      && a in st.cells && |record| <= MAX_BYTES
      && g.0 == st.(setIndex := idx, cells := st.cells[a := Cell(Splice(st.cells[a].flat, 0, record), Some(GUARDIAN))])
  {
    idx := ReadInt(vaa, off + 3, 4).value;
    record := SetRecord(vaa).value;
    var a := env.at(idx, GUARDIAN);
    var c := st.cells[a].(flat := Splice(st.cells[a].flat, 0, record));
    assert g.0.cells == st.cells[a := c][a := c.(tag := Some(GUARDIAN))];
  }

  /** Governance at boot. */
  lemma BootGovernanceSim(env: Env, st: CoreState, p: Protocol, tx: Txn, now: uint64, g: (CoreState, seq<Event>)) returns (q: Protocol)
    requires Injective(env.at) && Rel(env, st, p)
    requires !p.Booted() && st.booted && st.vphash == env.verifier
    requires tx.Account(2) == tx.Account(3) && |tx.args| > 1 && SmallSet(tx.args[1])
    requires HandleGovernance(env, st, tx, true, now) == Some(g)
    ensures Replayed(env.crypto, p, g.1) == Some(q) && Rel(env, g.0, q) && TagsKept(st.cells, g.0.cells)
  {
    hide Injective;
    OtherActions(env, st, tx, true, now, g);
    var vaa := tx.args[1];
    if vaa[ActionOffset(vaa[5])] == 2 {
      var idx, record := InstalledAtBoot(env, st, vaa, ActionOffset(vaa[5]), tx, now, g);
      RecordIsProper(vaa);
      q := BootSim(env, st, p, env.at(idx, GUARDIAN), idx, record, g.0);
      OneEvent(env.crypto, p, Booted(idx, record[1..]));
    } else {
      q := p;
    }
  }

  lemma InitSim(env: Env, st: CoreState, p: Protocol, tx: Txn, now: uint64, r: (CoreState, seq<Event>)) returns (q: Protocol)
    requires Injective(env.at) && Rel(env, st, p)
    requires GoodCall(env, tx) && tx.Calls(env.app.id) && tx.Arg(0) == Some(INIT)
    requires Init(env, st, tx, now) == Some(r)
    ensures Replayed(env.crypto, p, r.1) == Some(q) && Rel(env, r.0, q) && TagsKept(st.cells, r.0.cells)
  {
    hide Injective;
    var d := CheckForDuplicate(env, st.cells, tx).value;
    var mid := AcceptSim(env, st, p, tx, d);
    var st1 := st.(vphash := tx.args[2], booted := true, cells := d.0);
    var g := HandleGovernance(env, st1, tx, true, now).value;
    assert Rel(env, st1, mid);
    q := BootGovernanceSim(env, st1, mid, tx, now, g);
    ReplayedTwice(env.crypto, p, d.1, mid, g.1, q);
  }

  lemma ReplayedTwice(crypto: Crypto, p: Protocol, s: seq<Event>, mid: Protocol, t: seq<Event>, q: Protocol)
    requires Replayed(crypto, p, s) == Some(mid) && Replayed(crypto, mid, t) == Some(q)
    ensures Replayed(crypto, p, s + t) == Some(q)
  {
    ReplayedAppend(crypto, p, s, t);
  }

  lemma InstalledLater(env: Env, st: CoreState, vaa: bytes, off: nat, tx: Txn, now: uint64, g: (CoreState, seq<Event>)) returns (record: bytes)
    requires InstallSet(env, st, vaa, off, tx, false, now) == Some(g)
    requires tx.Account(2) == Some(env.at(st.setIndex, GUARDIAN))
    ensures SetRecord(vaa) == Some(record) && |record| > 1 && now + GRACE < U64 && st.setIndex + 1 < U64
    ensures g.1 == [Upgraded(vaa, record[1..], now)]
    ensures
      var old_, new_ := env.at(st.setIndex, GUARDIAN), env.at(st.setIndex + 1, GUARDIAN);
      && old_ != new_ && old_ in st.cells && new_ in st.cells && |record| <= MAX_BYTES
      && g.0 == st.(setIndex := st.setIndex + 1,
           cells := st.cells[new_ := Cell(Splice(st.cells[new_].flat, 0, record), Some(GUARDIAN))]
                            [old_ := st.cells[old_].(flat := Splice(st.cells[old_].flat, 1000, Itob(now + GRACE)))])
  {
    record := SetRecord(vaa).value;
    var old_, new_ := env.at(st.setIndex, GUARDIAN), env.at(st.setIndex + 1, GUARDIAN);
    var c := st.cells[new_].(flat := Splice(st.cells[new_].flat, 0, record));
    var e := st.cells[old_].(flat := Splice(st.cells[old_].flat, 1000, Itob(now + GRACE)));
    assert g.0.cells == st.cells[new_ := c][old_ := e][new_ := c.(tag := Some(GUARDIAN))];
    assert st.cells[new_ := c][old_ := e][new_ := c.(tag := Some(GUARDIAN))] == st.cells[new_ := c.(tag := Some(GUARDIAN))][old_ := e];
  }

  /** What a `governance` call is made of. */
  lemma GovernanceParts(env: Env, st: CoreState, group: Group, t: nat, now: uint64, r: (CoreState, seq<Event>))
    returns (d: (Cells, seq<Event>), g: (CoreState, seq<Event>))
    requires 0 < t < |group| && Governance(env, st, group, t, now) == Some(r)
    ensures CheckForDuplicate(env, st.cells, group[t]) == Some(d)
    ensures HandleGovernance(env, st.(cells := d.0), group[t], false, now) == Some(g)
    ensures r == (g.0, d.1 + g.1)
    ensures group[t - 1].Arg(1) == group[t].Arg(1) && group[t - 1].Account(2) == group[t].Account(2)
  {
    d := CheckForDuplicate(env, st.cells, group[t]).value;
    g := HandleGovernance(env, st.(cells := d.0), group[t], false, now).value;
  }

  /** The set that signed a governance message is the current one. */
  lemma SignedByCurrent(env: Env, st: CoreState, p: Protocol, idx: nat)
    requires Rel(env, st, p) && p.Booted() && p.first <= idx <= p.Current()
    requires st.setIndex == 0 || idx == st.setIndex
    ensures st.setIndex == idx == p.Current()
  {
  }

  /** Governance after boot, once the duplicate check is done. */
  lemma LaterGovernanceSim(env: Env, st: CoreState, p: Protocol, tx: Txn, idx: nat, now: uint64, g: (CoreState, seq<Event>)) returns (q: Protocol)
    requires Injective(env.at) && Rel(env, st, p) && p.Booted() && p.first <= idx <= p.Current()
    requires |tx.args| > 1 && |tx.args[1]| >= 6 && idx == FromBE(tx.args[1][1..5]) && SmallSet(tx.args[1])
    requires tx.Account(2) == Some(env.at(idx, GUARDIAN))
    requires QuorumSigned(env.crypto, p.sets[idx - p.first].keys, tx.args[1])
    requires HandleGovernance(env, st, tx, false, now) == Some(g)
    ensures Replayed(env.crypto, p, g.1) == Some(q) && Rel(env, g.0, q) && TagsKept(st.cells, g.0.cells)
  {
    hide Injective, HandleGovernance, InstallSet, QuorumSigned, Replayed, Rel, TagsKept, SmallSet, ProperRecord, Splice;
    var vaa := tx.args[1];
    OtherActions(env, st, tx, false, now, g);
    SignedByCurrent(env, st, p, idx);
    if vaa[ActionOffset(vaa[5])] == 2 {
      var record := InstalledLater(env, st, vaa, ActionOffset(vaa[5]), tx, now, g);
      RecordIsProper(vaa);
      q := UpgradeSim(env, st, p, vaa, record, now, g.0);
      OneEvent(env.crypto, p, Upgraded(vaa, record[1..], now));
    } else {
      q := p;
      NoEvent(env.crypto, p);
      OtherGlobals(env, st, g.0, p);
    }
  }

  lemma OtherGlobals(env: Env, st: CoreState, st': CoreState, p: Protocol)
    requires Rel(env, st, p) && st' == st.(messageFee := st'.messageFee, updateHash := st'.updateHash)
    ensures Rel(env, st', p) && TagsKept(st.cells, st'.cells)
  {
  }

  lemma NoEvent(crypto: Crypto, p: Protocol)
    ensures Replayed(crypto, p, []) == Some(p)
  {
  }

  /** Governance after boot, given that the transaction in front verified the VAA. */
  lemma GovernanceSim(env: Env, st: CoreState, p: Protocol, group: Group, t: nat, now: uint64, r: (CoreState, seq<Event>)) returns (q: Protocol)
    requires Injective(env.at) && Rel(env, st, p) && 0 < t < |group| && Authorised(env.crypto, env.verifier, group)
    requires GoodCall(env, group[t]) && group[t].Calls(env.app.id) && group[t].Arg(0) == Some(GOVERNANCE)
    requires VerifyVAA(env.crypto, env.at, st.cells, st.vphash, group, t - 1, now).Some?
    requires Governance(env, st, group, t, now) == Some(r)
    ensures Replayed(env.crypto, p, r.1) == Some(q) && Rel(env, r.0, q) && TagsKept(st.cells, r.0.cells)
  {
    hide Injective, Rel, Governance, CheckForDuplicate, HandleGovernance, VerifyVAA, Authorised, QuorumSigned, Replayed, SmallSet;
    var d, g := GovernanceParts(env, st, group, t, now, r);
    var idx, keys := VerifiedSim(env, st, p, group, t - 1, now);
    var mid := AcceptSim(env, st, p, group[t], d);
    q := LaterGovernanceSim(env, st.(cells := d.0), mid, group[t], idx, now, g);
    ReplayedTwice(env.crypto, p, d.1, mid, g.1, q);
  }

  /** A `verifyVAA` call just before transaction `t` was made in the state `t` starts from. */
  lemma VerifiedJustBefore(env: Env, st: CoreState, group: Group, now: uint64, t: nat)
    requires 0 < t <= |group| && After(env, st, group, now, t).Some?
    requires group[t - 1].Calls(env.app.id) && group[t - 1].onCompletion == NoOp && group[t - 1].Arg(0) == Some(VERIFY_VAA)
    ensures
      var s := After(env, st, group, now, t).value.0;
      VerifyVAA(env.crypto, env.at, s.cells, s.vphash, group, t - 1, now).Some?
  {
  }

  lemma CallSim(env: Env, st0: CoreState, group: Group, now: uint64, t: nat, p: Protocol, r: (CoreState, seq<Event>)) returns (q: Protocol)
    requires Injective(env.at) && t < |group| && GoodGroup(env, group) && Authorised(env.crypto, env.verifier, group)
    requires After(env, st0, group, now, t).Some?
    requires Rel(env, After(env, st0, group, now, t).value.0, p)
    requires Call(env, After(env, st0, group, now, t).value.0, group, t, now) == Some(r)
    ensures Replayed(env.crypto, p, r.1) == Some(q) && Rel(env, r.0, q)
    ensures TagsKept(After(env, st0, group, now, t).value.0.cells, r.0.cells)
  {
    hide Injective;
    var st, tx := After(env, st0, group, now, t).value.0, group[t];
    q := p;
    if tx.Calls(env.app.id) {
      if tx.onCompletion == OptIn {
        JoinSim(env, st, p, group, t, r);
      } else {
        var m := tx.args[0];
        if m == PUBLISH_MESSAGE {
          q := PublishSim(env, st, p, group, t, r);
        } else if m == INIT {
          q := InitSim(env, st, p, tx, now, r);
        } else if m == VERIFY_VAA {
          var idx, _ := VerifiedSim(env, st, p, group, t, now);
          OneEvent(env.crypto, p, Verified(tx.args[1], idx, now));
        } else if m == GOVERNANCE {
          VerifiedJustBefore(env, st0, group, now, t);
          q := GovernanceSim(env, st, p, group, t, now, r);
        }
      }
    }
  }

  lemma {:induction false} AfterSim(env: Env, st: CoreState, p: Protocol, group: Group, now: uint64, k: nat) returns (q: Protocol)
    requires Injective(env.at) && k <= |group| && GoodGroup(env, group) && Authorised(env.crypto, env.verifier, group)
    requires Rel(env, st, p) && After(env, st, group, now, k).Some?
    ensures
      var r := After(env, st, group, now, k).value;
      Replayed(env.crypto, p, r.1) == Some(q) && Rel(env, r.0, q) && TagsKept(st.cells, r.0.cells)
  {
    hide Injective;
    if k == 0 {
      q := p;
    } else {
      var before := After(env, st, group, now, k - 1).value;
      var mid := AfterSim(env, st, p, group, now, k - 1);
      var step := Call(env, before.0, group, k - 1, now).value;
      q := CallSim(env, st, group, now, k - 1, mid, step);
      ReplayedTwice(env.crypto, p, before.1, mid, step.1, q);
    }
  }

  // ---------- whole runs ----------

  /** What is assumed is assumed of committed groups only. */
  ghost predicate GoodRun(env: Env, blocks: seq<Block>) {
    forall i: nat | Committed(env, blocks, i) :: GoodGroup(env, blocks[i].group)
  }

  lemma GoodPrefix(env: Env, blocks: seq<Block>, n: nat)
    requires n <= |blocks| && GoodRun(env, blocks)
    ensures GoodRun(env, blocks[..n])
  {
    hide Committed, GoodGroup;
    forall i: nat | Committed(env, blocks[..n], i) ensures i < n && GoodGroup(env, blocks[..n][i].group) {
      CommittedPrefix(env, blocks, n, i);
      CommittedInside(env, blocks[..n], i);
    }
  }

  lemma CommittedInside(env: Env, blocks: seq<Block>, i: nat)
    requires Committed(env, blocks, i)
    ensures i < |blocks|
  {
  }

  lemma CreatedRel(env: Env)
    ensures Rel(env, CREATED, START)
  {
  }

  /** Every run is one the protocol allows, and ends in accounts that show the protocol's
      state. */
  lemma {:induction false} CoreRefinesProtocol(env: Env, blocks: seq<Block>) returns (p: Protocol)
    requires Injective(env.at) && GoodRun(env, blocks)
    ensures Replayed(env.crypto, START, Run(env, blocks).1) == Some(p)
    ensures Rel(env, Run(env, blocks).0, p)
  {
    hide Injective, Rel, Submit, After, Committed;
    if blocks == [] {
      CreatedRel(env);
      p := START;
    } else {
      var n := |blocks| - 1;
      var before, b := Run(env, blocks[..n]), blocks[n];
      GoodPrefix(env, blocks, n);
      var mid := CoreRefinesProtocol(env, blocks[..n]);
      RunLast(env, blocks);
      var step := Submit(env, before.0, b.group, b.now);
      if Committed(env, blocks, n) {
        p := AfterSim(env, before.0, mid, b.group, b.now, |b.group|);
      } else {
        p := mid;
      }
      ReplayedTwice(env.crypto, START, before.1, mid, step.1, p);
    }
  }
}
