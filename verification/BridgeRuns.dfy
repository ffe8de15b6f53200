/** What holds over every run of the token bridge: each message is received once, each attested
    asset is created once and recorded under its own origin, and what is locked covers what is
    outstanding. */
module BridgeRuns {
  import opened Teal
  import opened Transactions
  import opened Template
  import opened LocalBlob
  import opened Replay
  import opened TokenBridge
  import opened BridgeTransfers
  import Core

  // ---------- the invariant on storage accounts ----------

  /** Nothing is received twice, and the bits show what was. */
  ghost predicate ReplayOk(at: Locator, cells: Cells, trace: seq<Entry>) {
    && (forall m: Message | |m.emitter| == 34 :: Seen(at, cells, m) <==> Received(m) in trace)
    && (forall i, j | 0 <= i < j < |trace| && trace[i].Received? :: trace[i] != trace[j])
  }

  /** The asset that stands for a token of another chain; 0 if none was created. */
  function WrappedId(at: Locator, cells: Cells, chain: nat, address: bytes): nat {
    if at(chain, address) in cells then FromBE(cells[at(chain, address)].flat[0..8]) else 0
  }

  /** An asset account is blank, or tagged and holding an id and, where `sendTransfer` looks,
      its own address and chain. */
  predicate Record(c: Cell, chain: nat, address: bytes) {
    c.flat == Zeros(MAX_BYTES)
    || (&& FromBE(c.flat[0..8]) > 0 && c.tag == Some(ASSET)
        && c.flat[60..92] == address && FromBE(c.flat[92..94]) == chain)
  }

  /** The ids created for a token, in order. */
  function CreatedIds(trace: seq<Entry>, chain: nat, address: bytes): seq<nat> {
    if trace == [] then []
    else
      CreatedIds(trace[..|trace| - 1], chain, address)
      + match trace[|trace| - 1]
        case Created(id, c, a, _, _, _) => if c == chain && a == address then [id] else []
        case _ => []
  }

  function IdList(id: nat): seq<nat> {
    if id == 0 then [] else [id]
  }

  /** Every asset account holds a proper record, and its id is the only one ever created. */
  ghost predicate AttestOk(at: Locator, cells: Cells, trace: seq<Entry>) {
    && (forall c: nat, e: bytes | |e| == 32 && at(c, e) in cells :: Record(cells[at(c, e)], c, e))
    && (forall c: nat, e: bytes | |e| == 32 :: CreatedIds(trace, c, e) == IdList(WrappedId(at, cells, c, e)))
  }

  ghost predicate CellsOk(at: Locator, cells: Cells, trace: seq<Entry>) {
    ReplayOk(at, cells, trace) && AttestOk(at, cells, trace)
  }

  lemma CreatedAppend(trace: seq<Entry>, e: Entry, chain: nat, address: bytes)
    ensures CreatedIds(trace + [e], chain, address)
      == CreatedIds(trace, chain, address) + (if e.Created? && e.chain == chain && e.address == address then [e.id] else [])
  {
    assert (trace + [e])[..|trace|] == trace;
  }

  lemma BlankId()
    ensures FromBE(Zeros(MAX_BYTES)[0..8]) == 0
  {
    FromBEZeros(8);
    assert Zeros(MAX_BYTES)[0..8] == Zeros(8);
  }

  // ---------- receiving ----------

  lemma MarkReplay(at: Locator, cells: Cells, trace: seq<Entry>, vaa: bytes, acct: bytes, m: Message, marked: Cells)
    requires Injective(at) && ReplayOk(at, cells, trace) && MessageOf(vaa) == Some(m)
    requires Mark(at, cells, vaa, acct) == Some(marked)
    ensures ReplayOk(at, marked, trace + [Received(m)]) && Received(m) !in trace
  {
    MarkEffect(at, cells, vaa, acct, m);
    hide Seen, Mark, Injective;
    var trace' := trace + [Received(m)];
    forall m': Message | |m'.emitter| == 34 ensures Seen(at, marked, m') <==> Received(m') in trace' {
      assert Received(m') in trace' <==> m' == m || Received(m') in trace;
    }
  }

  /** A replay account is never an asset account. */
  lemma MarkAttest(at: Locator, cells: Cells, trace: seq<Entry>, vaa: bytes, acct: bytes, m: Message, marked: Cells)
    requires Injective(at) && AttestOk(at, cells, trace) && MessageOf(vaa) == Some(m)
    requires Mark(at, cells, vaa, acct) == Some(marked)
    ensures AttestOk(at, marked, trace + [Received(m)])
  {
    hide Record, CreatedIds, MessageOf;
    MessageEmitter(vaa, m);
    forall c: nat, e: bytes | |e| == 32
      ensures at(c, e) in marked ==> Record(marked[at(c, e)], c, e)
      ensures CreatedIds(trace + [Received(m)], c, e) == IdList(WrappedId(at, marked, c, e))
    {
      assert at(c, e) != acct;
      CreatedAppend(trace, Received(m), c, e);
      assert WrappedId(at, marked, c, e) == WrappedId(at, cells, c, e);
    }
  }

  lemma MessageEmitter(vaa: bytes, m: Message)
    requires MessageOf(vaa) == Some(m)
    ensures |m.emitter| == 34 && |vaa| > 5
  {
  }

  lemma MarkOk(at: Locator, cells: Cells, trace: seq<Entry>, vaa: bytes, acct: bytes, m: Message, marked: Cells)
    requires Injective(at) && CellsOk(at, cells, trace) && MessageOf(vaa) == Some(m)
    requires Mark(at, cells, vaa, acct) == Some(marked)
    ensures CellsOk(at, marked, trace + [Received(m)]) && Received(m) !in trace
  {
    hide ReplayOk, AttestOk, Injective, Mark, MessageOf;
    MarkReplay(at, cells, trace, vaa, acct, m, marked);
    MarkAttest(at, cells, trace, vaa, acct, m, marked);
  }

  /** Entries about money leave the storage invariant alone. */
  lemma OtherEntry(at: Locator, cells: Cells, trace: seq<Entry>, e: Entry)
    requires CellsOk(at, cells, trace) && (e.Sent? || e.Released?)
    ensures CellsOk(at, cells, trace + [e])
  {
    hide Seen, Record, CreatedIds, WrappedId;
    var trace' := trace + [e];
    forall m: Message | |m.emitter| == 34 ensures Seen(at, cells, m) <==> Received(m) in trace' {
      assert Received(m) in trace' <==> Received(m) in trace;
    }
    forall c: nat, a: bytes | |a| == 32 ensures CreatedIds(trace', c, a) == IdList(WrappedId(at, cells, c, a)) {
      CreatedAppend(trace, e, c, a);
    }
  }

  lemma JoinOk(at: Locator, cells: Cells, trace: seq<Entry>, acct: bytes)
    requires CellsOk(at, cells, trace) && acct !in cells
    ensures CellsOk(at, cells[acct := EMPTY_CELL], trace)
  {
    hide CreatedIds;
    var cells' := cells[acct := EMPTY_CELL];
    forall m: Message | |m.emitter| == 34 ensures Seen(at, cells', m) <==> Received(m) in trace {
      ZeroHasNoBits(SlotOf(m.sequence).bit);
      assert Seen(at, cells', m) <==> Seen(at, cells, m);
    }
    BlankId();
    forall c: nat, e: bytes | |e| == 32 ensures WrappedId(at, cells', c, e) == WrappedId(at, cells, c, e) {
    }
  }

  // ---------- attesting ----------

  /** What is left in the account after an attestation. */
  lemma AttestCell(cells: Cells, acct: bytes, body: bytes, newAsset: uint64, r: (Cells, bool))
    requires Attest(cells, acct, body, newAsset) == Some(r) && |body| >= 86
    ensures acct in cells && 8 + |body| < MAX_BYTES
    ensures r.1 <==> FromBE(cells[acct].flat[0..8]) == 0
    ensures r.1 ==> newAsset > 0
    ensures
      var c := cells[acct];
      var id := if r.1 then Itob(newAsset) else c.flat[0..8];
      && acct in r.0 && r.0 == cells[acct := r.0[acct]]
      && r.0[acct].tag == (if r.1 then Some(ASSET) else c.tag)
      && r.0[acct].flat[0..8] == id
      && r.0[acct].flat[8..8 + |body|] == body
  {
    hide FromBE, Itob;
    ZeroId(cells[acct].flat[0..8]);
    var c := cells[acct];
    if r.1 {
      var f := Splice(c.flat, 0, Itob(newAsset));
      assert f[0..8] == Itob(newAsset);
    }
  }

  lemma ZeroId(b: bytes)
    requires |b| == 8
    ensures b == Itob(0) <==> FromBE(b) == 0
  {
    ItobBtoi(0);
    if FromBE(b) == 0 { FromBEInjective(b, Itob(0)); }
  }

  lemma AttestRecord(c: Cell, body: bytes, chain: nat, address: bytes)
    requires |body| >= 86 && 8 + |body| < MAX_BYTES
    requires body[52..84] == address && FromBE(body[84..86]) == chain
    requires c.tag == Some(ASSET) && FromBE(c.flat[0..8]) > 0 && c.flat[8..8 + |body|] == body
    ensures Record(c, chain, address)
  {
    SliceOfSlice(c.flat, 8, 8 + |body|, 52, 84);
    SliceOfSlice(c.flat, 8, 8 + |body|, 84, 86);
  }

  /** The body of an attestation has address and chain at bytes 52 and 84. */
  lemma AttestationBody(vaa: bytes, num: nat, a: Attestation)
    requires ReadAttestation(vaa, num * 66 + 57) == Some(a)
    ensures |a.address| == 32 && num * 66 + 6 + 86 <= |vaa|
    ensures
      var body := vaa[num * 66 + 6..];
      |body| >= 86 && body[52..84] == a.address && FromBE(body[84..86]) == a.chain
  {
    var off := num * 66 + 6;
    SliceOfSlice(vaa, off, |vaa|, 52, 84);
    SliceOfSlice(vaa, off, |vaa|, 84, 86);
    assert vaa[off..][84..86] == vaa[num * 66 + 57 + 33..num * 66 + 57 + 33 + 2];
  }

  ghost function AttestEntries(r: (Cells, bool), newAsset: uint64, a: Attestation): seq<Entry> {
    if r.1 then [Created(newAsset, a.chain, a.address, a.name, a.symbol, a.decimals)] else []
  }

  lemma AttestReplay(at: Locator, cells: Cells, trace: seq<Entry>, a: Attestation, newAsset: uint64, r: (Cells, bool))
    requires Injective(at) && ReplayOk(at, cells, trace) && |a.address| == 32
    requires at(a.chain, a.address) in r.0 && r.0 == cells[at(a.chain, a.address) := r.0[at(a.chain, a.address)]]
    ensures ReplayOk(at, r.0, trace + AttestEntries(r, newAsset, a))
  {
    var trace' := trace + AttestEntries(r, newAsset, a);
    forall m: Message | |m.emitter| == 34 ensures Seen(at, r.0, m) <==> Received(m) in trace' {
      assert at(SlotOf(m.sequence).block, m.emitter) != at(a.chain, a.address);
      assert Seen(at, r.0, m) <==> Seen(at, cells, m);
      assert Received(m) in trace' <==> Received(m) in trace;
    }
    hide Seen;
  }

  /** The token attested: created if it was not known, and recorded again in any case. */
  lemma AttestThis(at: Locator, cells: Cells, trace: seq<Entry>, body: bytes, a: Attestation, newAsset: uint64, r: (Cells, bool))
    requires AttestOk(at, cells, trace) && |a.address| == 32
    requires |body| >= 86 && body[52..84] == a.address && FromBE(body[84..86]) == a.chain
    requires Attest(cells, at(a.chain, a.address), body, newAsset) == Some(r)
    ensures at(a.chain, a.address) in r.0 && Record(r.0[at(a.chain, a.address)], a.chain, a.address)
    ensures CreatedIds(trace + AttestEntries(r, newAsset, a), a.chain, a.address) == IdList(WrappedId(at, r.0, a.chain, a.address))
  {
    hide CreatedIds, FromBE, Attest;
    var acct := at(a.chain, a.address);
    AttestCell(cells, acct, body, newAsset, r);
    ItobBtoi(newAsset);
    BlankId();
    AttestRecord(r.0[acct], body, a.chain, a.address);
    if r.1 {
      CreatedAppend(trace, AttestEntries(r, newAsset, a)[0], a.chain, a.address);
    } else {
      assert trace + AttestEntries(r, newAsset, a) == trace;
    }
  }

  lemma AttestOther(at: Locator, cells: Cells, trace: seq<Entry>, a: Attestation, newAsset: uint64, r: (Cells, bool), c: nat, e: bytes)
    requires Injective(at) && (c != a.chain || e != a.address)
    requires at(a.chain, a.address) in r.0 && r.0 == cells[at(a.chain, a.address) := r.0[at(a.chain, a.address)]]
    ensures at(c, e) != at(a.chain, a.address)
    ensures WrappedId(at, r.0, c, e) == WrappedId(at, cells, c, e)
    ensures CreatedIds(trace + AttestEntries(r, newAsset, a), c, e) == CreatedIds(trace, c, e)
  {
    hide CreatedIds;
    assert at(c, e) != at(a.chain, a.address);
    if r.1 {
      CreatedAppend(trace, AttestEntries(r, newAsset, a)[0], c, e);
    } else {
      assert trace + AttestEntries(r, newAsset, a) == trace;
    }
  }

  lemma AttestKeeps(at: Locator, cells: Cells, trace: seq<Entry>, body: bytes, a: Attestation, newAsset: uint64, r: (Cells, bool))
    requires Injective(at) && CellsOk(at, cells, trace) && |a.address| == 32
    requires |body| >= 86 && body[52..84] == a.address && FromBE(body[84..86]) == a.chain
    requires Attest(cells, at(a.chain, a.address), body, newAsset) == Some(r)
    ensures CellsOk(at, r.0, trace + AttestEntries(r, newAsset, a))
  {
    hide Injective, ReplayOk, Attest, CreatedIds, WrappedId, Record, AttestEntries;
    var acct := at(a.chain, a.address);
    AttestCell(cells, acct, body, newAsset, r);
    AttestReplay(at, cells, trace, a, newAsset, r);
    AttestThis(at, cells, trace, body, a, newAsset, r);
    forall c: nat, e: bytes | |e| == 32
      ensures at(c, e) in r.0 ==> Record(r.0[at(c, e)], c, e)
      ensures CreatedIds(trace + AttestEntries(r, newAsset, a), c, e) == IdList(WrappedId(at, r.0, c, e))
    {
      if c != a.chain || e != a.address {
        AttestOther(at, cells, trace, a, newAsset, r, c, e);
      }
    }
  }

  // ---------- one transaction ----------

  lemma ReceiveAttestOk(env: Env, st: BridgeState, trace: seq<Entry>, group: seq<Txn>, t: nat, out: Outside, r: (BridgeState, seq<Entry>))
    requires Injective(env.at) && CellsOk(env.at, st.cells, trace) && t < |group|
    requires ReceiveAttest(env, st, group, t, out) == Some(r)
    ensures CellsOk(env.at, r.0.cells, trace + r.1)
  {
    hide Injective, CellsOk, Mark, MessageOf, ReadAttestation, Attest, AttestGroup;
    var vaa := group[t].args[1];
    var m := MessageOf(vaa).value;
    MessageEmitter(vaa, m);
    var a1 := group[t].Account(1).value;
    var marked := Mark(env.at, st.cells, vaa, a1).value;
    MarkOk(env.at, st.cells, trace, vaa, a1, m, marked);
    var num: nat := vaa[5];
    var a := ReadAttestation(vaa, num * 66 + 57).value;
    AttestationBody(vaa, num, a);
    var kept := Attest(marked, env.at(a.chain, a.address), vaa[num * 66 + 6..], out.newAsset).value;
    AttestKeeps(env.at, marked, trace + [Received(m)], vaa[num * 66 + 6..], a, out.newAsset, kept);
    assert trace + [Received(m)] + AttestEntries(kept, out.newAsset, a) == trace + ([Received(m)] + AttestEntries(kept, out.newAsset, a));
  }

  lemma CompleteTransferOk(env: Env, st: BridgeState, trace: seq<Entry>, group: seq<Txn>, t: nat, out: Outside, r: (BridgeState, seq<Entry>))
    requires Injective(env.at) && CellsOk(env.at, st.cells, trace) && t < |group|
    requires CompleteTransfer(env, st, group, t, out) == Some(r)
    ensures CellsOk(env.at, r.0.cells, trace + r.1)
  {
    hide Injective, CellsOk, Mark, MessageOf, ReadTransfer, Receiver, Source, PayOut, VerifiesFor, KnownEmitter;
    var vaa := group[t].args[1];
    var m := MessageOf(vaa).value;
    MessageEmitter(vaa, m);
    var a1 := group[t].Account(1).value;
    MarkOk(env.at, st.cells, trace, vaa, a1, m, r.0.cells);
    OtherEntry(env.at, r.0.cells, trace + [Received(m)], r.1[1]);
    assert trace + [Received(m)] + [r.1[1]] == trace + r.1;
  }

  lemma GovernanceOk(env: Env, st: BridgeState, trace: seq<Entry>, group: seq<Txn>, t: nat, out: Outside, r: (BridgeState, seq<Entry>))
    requires Injective(env.at) && CellsOk(env.at, st.cells, trace) && t < |group|
    requires Governance(env, st, group, t, out) == Some(r)
    ensures CellsOk(env.at, r.0.cells, trace + r.1)
  {
    hide Injective, CellsOk, Mark, MessageOf, VerifiesFor;
    var vaa := group[t].args[1];
    MarkOk(env.at, st.cells, trace, vaa, group[t].Account(1).value, MessageOf(vaa).value, r.0.cells);
  }

  lemma SendTransferOk(env: Env, st: BridgeState, trace: seq<Entry>, group: seq<Txn>, t: nat, out: Outside, r: (BridgeState, seq<Entry>))
    requires CellsOk(env.at, st.cells, trace) && t < |group|
    requires SendTransfer(env, st, group, t, out) == Some(r)
    ensures CellsOk(env.at, r.0.cells, trace + r.1)
  {
    hide CellsOk, SendTransfer;
    var s := SendParts(env, st, group, t, out, r);
    OtherEntry(env.at, st.cells, trace, r.1[0]);
  }

  lemma ExecuteOk(env: Env, st: BridgeState, trace: seq<Entry>, group: seq<Txn>, t: nat, out: Outside, r: (BridgeState, seq<Entry>))
    requires Injective(env.at) && CellsOk(env.at, st.cells, trace) && t < |group|
    requires Execute(env, st, group, t, out) == Some(r)
    ensures CellsOk(env.at, r.0.cells, trace + r.1)
  {
    hide Injective, CellsOk, SendTransfer, CompleteTransfer, ReceiveAttest, Governance;
    var tx := group[t];
    assert trace + [] == trace;
    if tx.kind == ApplicationCall && tx.Calls(env.app.id) {
      if tx.onCompletion == OptIn {
        JoinOk(env.at, st.cells, trace, tx.sender);
      } else {
        var m := tx.args[0];
        if m == NOP {
        } else if m == RECEIVE_ATTEST {
          ReceiveAttestOk(env, st, trace, group, t, out, r);
        } else if m == ATTEST_TOKEN {
        } else if m == COMPLETE_TRANSFER {
          CompleteTransferOk(env, st, trace, group, t, out, r);
        } else if m == SEND_TRANSFER {
          SendTransferOk(env, st, trace, group, t, out, r);
        } else if m == GOVERNANCE {
          GovernanceOk(env, st, trace, group, t, out, r);
        }
      }
    }
  }

  // ---------- runs ----------

  lemma {:induction false} AfterOk(env: Env, st: BridgeState, trace: seq<Entry>, b: Block, k: nat)
    requires Injective(env.at) && CellsOk(env.at, st.cells, trace) && k <= |b.group|
    requires After(env, st, b, k).Some?
    ensures CellsOk(env.at, After(env, st, b, k).value.0.cells, trace + After(env, st, b, k).value.1)
  {
    hide Injective, CellsOk, Execute;
    if k == 0 {
      assert trace + [] == trace;
    } else {
      var before := After(env, st, b, k - 1).value;
      AfterOk(env, st, trace, b, k - 1);
      var step := Execute(env, before.0, b.group, k - 1, b.outside(k - 1)).value;
      ExecuteOk(env, before.0, trace + before.1, b.group, k - 1, b.outside(k - 1), step);
      assert trace + before.1 + step.1 == trace + (before.1 + step.1);
    }
  }

  lemma SubmitOk(env: Env, st: BridgeState, trace: seq<Entry>, b: Block)
    requires Injective(env.at) && CellsOk(env.at, st.cells, trace)
    ensures CellsOk(env.at, Submit(env, st, b).0.cells, trace + Submit(env, st, b).1)
  {
    hide Injective, CellsOk, After;
    if Commits(env, st, b) {
      AfterOk(env, st, trace, b, |b.group|);
    } else {
      assert trace + [] == trace;
    }
  }

  lemma OpenedOk(at: Locator)
    ensures CellsOk(at, map[], [])
  {
  }

  lemma {:induction false} RunOk(env: Env, ledger: Ledger, blocks: seq<Block>)
    requires Injective(env.at)
    ensures CellsOk(env.at, Run(env, ledger, blocks).0.cells, Run(env, ledger, blocks).1)
  {
    hide Injective, CellsOk, Submit;
    if blocks == [] {
      OpenedOk(env.at);
    } else {
      var n := |blocks| - 1;
      var before := Run(env, ledger, blocks[..n]);
      RunOk(env, ledger, blocks[..n]);
      SubmitOk(env, before.0, before.1, blocks[n]);
    }
  }

  /** Replay safety of the bridge, which keeps its own marks. */
  lemma BridgeReplaySafety(env: Env, ledger: Ledger, blocks: seq<Block>)
    requires env.at == LocatorOf(env.app)
    ensures
      var r := Run(env, ledger, blocks);
      && (forall i, j | 0 <= i < j < |r.1| && r.1[i].Received? :: r.1[i] != r.1[j])
      && (forall m: Message | |m.emitter| == 34 :: Seen(env.at, r.0.cells, m) <==> Received(m) in r.1)
  {
    LocatorInjective(env.app);
    RunOk(env, ledger, blocks);
    hide Seen, Run;
  }

  /** Receiving one message never blocks another: with its account supplied, a message can be
      marked exactly when it has not been received. */
  lemma BridgeNeverBlocked(env: Env, ledger: Ledger, blocks: seq<Block>, vaa: bytes, m: Message)
    requires env.at == LocatorOf(env.app) && MessageOf(vaa) == Some(m)
    requires env.at(SlotOf(m.sequence).block, m.emitter) in Run(env, ledger, blocks).0.cells
    ensures
      var r := Run(env, ledger, blocks);
      Mark(env.at, r.0.cells, vaa, env.at(SlotOf(m.sequence).block, m.emitter)).Some? <==> Received(m) !in r.1
  {
    hide Run, Seen, Mark, MessageOf;
    LocatorInjective(env.app);
    MessageEmitter(vaa, m);
    BridgeReplaySafety(env, ledger, blocks);
    MarkEffect(env.at, Run(env, ledger, blocks).0.cells, vaa, env.at(SlotOf(m.sequence).block, m.emitter), m);
  }

  // ---------- longer runs ----------

  lemma {:induction false} RunPrefix(env: Env, ledger: Ledger, blocks: seq<Block>, more: seq<Block>)
    ensures Run(env, ledger, blocks).1 <= Run(env, ledger, blocks + more).1
  {
    hide Submit;
    if more == [] {
      assert blocks + more == blocks;
    } else {
      var all, n := blocks + more, |blocks + more| - 1;
      assert all[..n] == blocks + more[..|more| - 1];
      RunPrefix(env, ledger, blocks, more[..|more| - 1]);
    }
  }

  lemma {:induction false} CreatedPrefix(s: seq<Entry>, t: seq<Entry>, chain: nat, address: bytes)
    requires s <= t
    ensures CreatedIds(s, chain, address) <= CreatedIds(t, chain, address)
  {
    if |s| == |t| {
      assert s == t;
    } else {
      CreatedPrefix(s, t[..|t| - 1], chain, address);
    }
  }

  lemma OneId(at: Locator, cells: Cells, trace: seq<Entry>, chain: nat, address: bytes)
    requires CellsOk(at, cells, trace) && |address| == 32
    ensures CreatedIds(trace, chain, address) == IdList(WrappedId(at, cells, chain, address))
    ensures |CreatedIds(trace, chain, address)| <= 1
  {
    hide WrappedId, CreatedIds, Record;
  }

  lemma SameId(x: nat, y: nat)
    requires IdList(x) <= IdList(y)
    ensures x != 0 ==> y == x
  {
    if x != 0 { assert IdList(x)[0] == IdList(y)[0]; }
  }

  /** Attested assets: a token is given an asset id at most once, the id never changes, and
      its account keeps the token's own address and chain where `sendTransfer` reads them. */
  lemma AttestedForGood(env: Env, ledger: Ledger, blocks: seq<Block>, more: seq<Block>, chain: nat, address: bytes)
    requires env.at == LocatorOf(env.app) && |address| == 32
    ensures
      var before, after := Run(env, ledger, blocks), Run(env, ledger, blocks + more);
      var id := WrappedId(env.at, before.0.cells, chain, address);
      && |CreatedIds(after.1, chain, address)| <= 1
      && (id != 0 ==> WrappedId(env.at, after.0.cells, chain, address) == id)
  {
    hide *;
    LocatorInjective(env.app);
    var before, after := Run(env, ledger, blocks), Run(env, ledger, blocks + more);
    RunOk(env, ledger, blocks);
    RunOk(env, ledger, blocks + more);
    OneId(env.at, before.0.cells, before.1, chain, address);
    OneId(env.at, after.0.cells, after.1, chain, address);
    RunPrefix(env, ledger, blocks, more);
    CreatedPrefix(before.1, after.1, chain, address);
    SameId(WrappedId(env.at, before.0.cells, chain, address), WrappedId(env.at, after.0.cells, chain, address));
  }

  /** What `sendTransfer` announces for a wrapped asset is the token the asset was created
      for. */
  lemma WrappedSentAsOrigin(env: Env, ledger: Ledger, blocks: seq<Block>, aid: uint64, arg1: bytes, acct: bytes)
    requires env.at == LocatorOf(env.app)
    requires aid != 0 && Btoi(arg1) == Some(aid)
    requires Token(env, Run(env, ledger, blocks).0.cells, true, aid, arg1, acct).Some?
    ensures
      var st := Run(env, ledger, blocks);
      var token := Token(env, st.0.cells, true, aid, arg1, acct).value;
      && |token.0| == 32
      && acct == env.at(FromBE(token.1), token.0)
      && WrappedId(env.at, st.0.cells, FromBE(token.1), token.0) == aid
      && CreatedIds(st.1, FromBE(token.1), token.0) == [aid]
  {
    LocatorInjective(env.app);
    RunOk(env, ledger, blocks);
    hide FromBE, Run, ReplayOk;
  }
}
