/** The sum of all balances of an asset: every run keeps it, so nobody's balance can overflow
    when it fits a word, and a release is paid exactly when its account has the funds. */
module BridgeLedger {
  import opened Teal
  import opened Transactions
  import opened Replay
  import opened TokenBridge
  import opened BridgeTransfers

  type Holding = (bytes, uint64)

  /** What one entry of the ledger adds to the total of asset `x`. */
  function Share(l: Ledger, k: Holding, x: uint64): nat {
    if k in l && k.1 == x then l[k] else 0
  }

  ghost function SumOver(l: Ledger, keys: set<Holding>, x: uint64): nat {
    if keys == {} then 0
    else
      var k :| k in keys;
      Share(l, k, x) + SumOver(l, keys - {k}, x)
  }

  /** The sum does not depend on the order. */
  lemma {:induction false} SumWithout(l: Ledger, keys: set<Holding>, x: uint64, k: Holding)
    requires k in keys
    ensures SumOver(l, keys, x) == Share(l, k, x) + SumOver(l, keys - {k}, x)
    decreases keys
  {
    hide Share;
    var j :| j in keys && SumOver(l, keys, x) == Share(l, j, x) + SumOver(l, keys - {j}, x);
    if j != k {
      SumWithout(l, keys - {j}, x, k);
      SumWithout(l, keys - {k}, x, j);
      assert keys - {j} - {k} == keys - {k} - {j};
    }
  }

  lemma {:induction false} SumSame(l: Ledger, l': Ledger, keys: set<Holding>, x: uint64)
    requires forall k | k in keys :: Share(l', k, x) == Share(l, k, x)
    ensures SumOver(l', keys, x) == SumOver(l, keys, x)
    decreases keys
  {
    hide Share;
    if keys != {} {
      var k :| k in keys;
      SumSame(l, l', keys - {k}, x);
      SumWithout(l, keys, x, k);
      SumWithout(l', keys, x, k);
    }
  }

  ghost function Total(l: Ledger, x: uint64): nat {
    SumOver(l, l.Keys, x)
  }

  /** One entry counts for itself, the others for the rest. */
  ghost function Rest(l: Ledger, k: Holding, x: uint64): nat {
    SumOver(l, l.Keys - {k}, x)
  }

  lemma TotalParts(l: Ledger, k: Holding, x: uint64)
    ensures Total(l, x) == Share(l, k, x) + Rest(l, k, x)
  {
    if k in l {
      SumWithout(l, l.Keys, x, k);
    } else {
      assert l.Keys - {k} == l.Keys;
    }
  }

  lemma TotalUpdate(l: Ledger, k: Holding, v: uint64, x: uint64)
    ensures Total(l[k := v], x) == Total(l, x) - Share(l, k, x) + if k.1 == x then v else 0
  {
    hide SumOver;
    var l' := l[k := v];
    TotalParts(l, k, x);
    TotalParts(l', k, x);
    assert l'.Keys - {k} == l.Keys - {k};
    SumSame(l, l', l.Keys - {k}, x);
  }

  /** A move keeps every asset's total. */
  lemma MoveKeepsTotal(l: Ledger, from: bytes, to: bytes, asset: uint64, amount: uint64, l': Ledger, x: uint64)
    requires Move(l, from, to, asset, amount) == Some(l')
    ensures Total(l', x) == Total(l, x)
  {
    hide Total;
    var debited := l[(from, asset) := Balance(l, from, asset) - amount];
    TotalUpdate(l, (from, asset), Balance(l, from, asset) - amount, x);
    TotalUpdate(debited, (to, asset), Balance(debited, to, asset) + amount, x);
  }

  /** Two holders have at most the total between them. */
  lemma TwoHolders(l: Ledger, a: bytes, b: bytes, x: uint64)
    ensures Balance(l, a, x) <= Total(l, x)
    ensures a != b ==> Balance(l, a, x) + Balance(l, b, x) <= Total(l, x)
  {
    TotalParts(l, (a, x), x);
    if a != b && (b, x) in l {
      SumWithout(l, l.Keys - {(a, x)}, x, (b, x));
    }
  }

  /** With a total that fits a word, a move succeeds exactly when the source has the amount. */
  lemma MoveSucceeds(l: Ledger, from: bytes, to: bytes, asset: uint64, amount: uint64)
    requires Total(l, asset) < U64
    ensures Move(l, from, to, asset, amount).Some? <==> amount <= Balance(l, from, asset)
  {
    hide Total;
    TwoHolders(l, from, to, asset);
  }

  // ---------- releases ----------

  lemma PayOutKeepsTotal(l: Ledger, from: bytes, to: bytes, relayer: bytes, asset: uint64, factor: uint64, amount: uint64, fee: uint64, l': Ledger, x: uint64)
    requires fee <= amount && PayOut(l, from, to, relayer, asset, factor, amount, fee) == Some(l')
    ensures Total(l', x) == Total(l, x)
  {
    hide Total, Move;
    PaysInFull(amount, fee, factor);
    var due, cut: int := (amount - fee) * factor, fee * factor;
    assert due >= 0 && cut >= 0;
    var paid := Move(l, from, to, asset, due).value;
    MoveKeepsTotal(l, from, to, asset, due, paid, x);
    if fee > 0 { MoveKeepsTotal(paid, from, relayer, asset, cut, l', x); }
  }

  lemma SourceAfter(l: Ledger, from: bytes, to: bytes, asset: uint64, amount: uint64, l': Ledger)
    requires Move(l, from, to, asset, amount) == Some(l')
    ensures Balance(l', from, asset) == Balance(l, from, asset) - if from == to then 0 else amount
  {
  }

  /** The account having what the message is worth, the release is paid, whoever is paid and
      whatever they have already. */
  lemma PayOutFunded(l: Ledger, from: bytes, to: bytes, relayer: bytes, asset: uint64, factor: uint64, amount: uint64, fee: uint64)
    requires fee <= amount && Total(l, asset) < U64
    ensures amount * factor <= Balance(l, from, asset) ==> PayOut(l, from, to, relayer, asset, factor, amount, fee).Some?
    ensures from != to && PayOut(l, from, to, relayer, asset, factor, amount, fee).Some? ==> amount * factor <= Balance(l, from, asset)
  {
    hide Total, Move, Balance;
    FeeFits(amount, fee, factor);
    PaysInFull(amount, fee, factor);
    var due, cut: int := (amount - fee) * factor, fee * factor;
    assert due >= 0 && cut >= 0 && (fee == 0 ==> cut == 0);
    if due < U64 && cut < U64 {
      MoveSucceeds(l, from, to, asset, due);
      if due <= Balance(l, from, asset) {
        var paid := Move(l, from, to, asset, due).value;
        SourceAfter(l, from, to, asset, due, paid);
        MoveKeepsTotal(l, from, to, asset, due, paid, asset);
        MoveSucceeds(paid, from, relayer, asset, cut);
      }
    }
  }

  // ---------- runs ----------

  /** The bridge did not create the asset. */
  ghost predicate NeverCreated(trace: seq<Entry>, x: uint64) {
    forall e | e in trace && e.Created? :: e.id != x
  }

  lemma AttestTotal(env: Env, st: BridgeState, group: seq<Txn>, t: nat, out: Outside, r: (BridgeState, seq<Entry>), x: uint64)
    requires t < |group| && ReceiveAttest(env, st, group, t, out) == Some(r) && NeverCreated(r.1, x)
    ensures Total(r.0.ledger, x) == Total(st.ledger, x)
  {
    hide Total, Mark, MessageOf, ReadAttestation, Attest, AttestGroup;
    if r.0.ledger != st.ledger {
      assert r.1[1].Created? && r.1[1] in r.1;
      var a3 := group[t].Account(3).value;
      TotalUpdate(st.ledger, (a3, out.newAsset), SUPPLY, x);
    }
  }

  lemma ReleaseTotal(env: Env, st: BridgeState, group: seq<Txn>, t: nat, out: Outside, r: (BridgeState, seq<Entry>), x: uint64)
    requires t < |group| && CompleteTransfer(env, st, group, t, out) == Some(r)
    ensures Total(r.0.ledger, x) == Total(st.ledger, x)
  {
    hide Total, PayOut, CheckRelease;
    var c := CheckRelease(env, st, group, t).value;
    PayOutKeepsTotal(st.ledger, c.from, c.to, group[t].sender, c.asset, c.factor, c.m.amount, c.m.fee, r.0.ledger, x);
  }

  lemma QuietLedger(env: Env, st: BridgeState, group: seq<Txn>, t: nat, out: Outside, r: (BridgeState, seq<Entry>))
    requires t < |group| && Router(env, st, group, t, out) == Some(r)
    requires group[t].Arg(0) != Some(COMPLETE_TRANSFER) && group[t].Arg(0) != Some(RECEIVE_ATTEST)
    ensures r.0.ledger == st.ledger
  {
    hide CompleteTransfer, ReceiveAttest, Mark, MessageOf, VerifiesFor, Deposit, Token, Announcement;
  }

  lemma RoutedRelease(env: Env, st: BridgeState, group: seq<Txn>, t: nat, out: Outside)
    requires t < |group|
    ensures group[t].Arg(0) == Some(COMPLETE_TRANSFER) ==> Router(env, st, group, t, out) == CompleteTransfer(env, st, group, t, out)
    ensures group[t].Arg(0) == Some(RECEIVE_ATTEST) ==> Router(env, st, group, t, out) == ReceiveAttest(env, st, group, t, out)
  {
    hide SendTransfer, CompleteTransfer, ReceiveAttest, Governance;
  }

  lemma ExecuteTotal(env: Env, st: BridgeState, group: seq<Txn>, t: nat, out: Outside, r: (BridgeState, seq<Entry>), x: uint64)
    requires t < |group| && Execute(env, st, group, t, out) == Some(r) && NeverCreated(r.1, x)
    ensures Total(r.0.ledger, x) == Total(st.ledger, x)
  {
    hide Total, Router, Move, NeverCreated;
    var tx := group[t];
    if tx.kind == Payment || tx.kind == AssetTransfer {
      MoveKeepsTotal(st.ledger, tx.sender, tx.receiver, if tx.kind == Payment then 0 else tx.asset, tx.amount, r.0.ledger, x);
    } else if tx.Calls(env.app.id) && tx.onCompletion == NoOp {
      RoutedRelease(env, st, group, t, out);
      if tx.Arg(0) == Some(COMPLETE_TRANSFER) {
        ReleaseTotal(env, st, group, t, out, r, x);
      } else if tx.Arg(0) == Some(RECEIVE_ATTEST) {
        AttestTotal(env, st, group, t, out, r, x);
      } else {
        QuietLedger(env, st, group, t, out, r);
      }
    }
  }

  lemma {:induction false} AfterTotal(env: Env, st: BridgeState, b: Block, k: nat, x: uint64)
    requires k <= |b.group| && After(env, st, b, k).Some? && NeverCreated(After(env, st, b, k).value.1, x)
    ensures Total(After(env, st, b, k).value.0.ledger, x) == Total(st.ledger, x)
  {
    hide Total, Execute;
    if k > 0 {
      var before := After(env, st, b, k - 1).value;
      var step := Execute(env, before.0, b.group, k - 1, b.outside(k - 1)).value;
      AfterTotal(env, st, b, k - 1, x);
      ExecuteTotal(env, before.0, b.group, k - 1, b.outside(k - 1), step, x);
    }
  }

  /** Over every run the total of an asset the bridge did not create stays what it was. */
  lemma {:induction false} TotalConserved(env: Env, ledger: Ledger, blocks: seq<Block>, x: uint64)
    requires NeverCreated(Run(env, ledger, blocks).1, x)
    ensures Total(Run(env, ledger, blocks).0.ledger, x) == Total(ledger, x)
  {
    hide Total, After;
    if blocks != [] {
      var n := |blocks| - 1;
      var before := Run(env, ledger, blocks[..n]);
      TotalConserved(env, ledger, blocks[..n], x);
      if Commits(env, before.0, blocks[n]) {
        AfterTotal(env, before.0, blocks[n], |blocks[n].group|, x);
      }
    }
  }
}
