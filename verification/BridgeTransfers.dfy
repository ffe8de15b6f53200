/** What a transfer out says is what the receiving side reads, and what it locks covers what
    it says. */
module BridgeTransfers {
  import opened Teal
  import opened Transactions
  import opened Template
  import opened LocalBlob
  import opened Replay
  import opened TokenBridge
  import Core

  // ---------- dedusting ----------

  /** What is announced is worth no more than what was deposited, and less than one unit is
      lost. */
  lemma Dust(deposit: uint64, factor: uint64)
    requires factor > 0
    ensures Locked(deposit, factor) * factor <= deposit < Locked(deposit, factor) * factor + factor
  {
  }

  /** A fee within the deposit is still within it after both are cut. */
  lemma FeeSurvivesDedusting(fee: uint64, deposit: uint64, factor: uint64)
    requires factor > 0 && fee <= deposit
    ensures Locked(fee, factor) <= Locked(deposit, factor)
  {
    DivMonotone(fee, deposit, factor);
  }

  lemma DivMonotone(a: nat, b: nat, f: nat)
    requires f > 0 && a <= b
    ensures a / f <= b / f
  {
    DivBounds(a, f);
    DivBounds(b, f);
    if b / f < a / f {
      MulGap(f, b / f, a / f);
    }
  }

  lemma DivBounds(a: nat, f: nat)
    requires f > 0
    ensures f * (a / f) <= a < f * (a / f) + f
  {
  }

  lemma MulGap(f: nat, p: nat, q: nat)
    requires p < q
    ensures f * p + f <= f * q
  {
    assert f * q == f * p + f * (q - p);
    assert f * (q - p - 1) >= 0;
  }

  // ---------- the message ----------

  lemma Take(s: bytes, off: nat, f: bytes, rest: bytes)
    requires off <= |s| && s[off..] == f + rest
    ensures off + |f| <= |s| && s[off..off + |f|] == f && s[off + |f|..] == rest
  {
    assert s[off..][..|f|] == f;
    assert s[off..][|f|..] == rest;
  }

  lemma TakeInt(s: bytes, off: nat, f: bytes, rest: bytes)
    requires off <= |s| && s[off..] == f + rest && |f| <= 8
    ensures ReadInt(s, off, |f|) == Some(FromBE(f)) && s[off + |f|..] == rest && off + |f| <= |s|
  {
    Take(s, off, f, rest);
    FromBEBound(f);
  }

  /** The fixed part, read at the receiver's offsets. */
  lemma FieldsRead(vaa: bytes, off: nat, withPayload: bool, amount: uint64, token: bytes, chain: bytes, to: bytes, toChain: bytes, tail: bytes)
    requires |token| <= 32 && |to| <= 32 && |chain| == 2 && |toChain| == 2
    requires off <= |vaa| && vaa[off..] == Payload(withPayload, amount, token, chain, to, toChain, tail)
    ensures off + 101 <= |vaa| && vaa[off + 101..] == tail
    ensures ReadInt(vaa, off, 1) == Some(if withPayload then 3 else 1)
    ensures Extract(vaa, off + 1, 24) == Some(ZEROS_24) && ReadInt(vaa, off + 25, 8) == Some(amount)
    ensures Extract(vaa, off + 33, 32) == Some(LeftPad(token)) && ReadInt(vaa, off + 65, 2) == Some(FromBE(chain))
    ensures Extract(vaa, off + 67, 32) == Some(LeftPad(to)) && ReadInt(vaa, off + 99, 2) == Some(FromBE(toChain))
  {
    hide LeftPad, FromBE, Itob, ReadInt;
    var kind: bytes := [if withPayload then 3 else 1];
    var r6 := toChain + tail;
    var r5 := LeftPad(to) + r6;
    var r4 := chain + r5;
    var r3 := LeftPad(token) + r4;
    var r2 := Itob(amount) + r3;
    var r1 := ZEROS_24 + r2;
    FromBEByte(kind[0]);
    ItobBtoi(amount);
    TakeInt(vaa, off, kind, r1);
    Take(vaa, off + 1, ZEROS_24, r2);
    TakeInt(vaa, off + 25, Itob(amount), r3);
    Take(vaa, off + 33, LeftPad(token), r4);
    TakeInt(vaa, off + 65, chain, r5);
    Take(vaa, off + 67, LeftPad(to), r6);
    TakeInt(vaa, off + 99, toChain, tail);
  }

  /** The whole message is read back, with the fee for a plain transfer. */
  lemma PayloadRead(vaa: bytes, off: nat, withPayload: bool, amount: uint64, token: bytes, chain: bytes, to: bytes, toChain: bytes, fee: uint64, tail: bytes)
    requires |token| <= 32 && |to| <= 32 && |chain| == 2 && |toChain| == 2 && fee <= amount
    requires off <= |vaa| && vaa[off..] == Payload(withPayload, amount, token, chain, to, toChain, tail)
    requires !withPayload ==> tail == ZEROS_24 + Itob(fee)
    ensures ReadTransfer(vaa, off) == Some(Transfer(
      if withPayload then 3 else 1, amount, LeftPad(token), FromBE(chain), LeftPad(to), FromBE(toChain), if withPayload then 0 else fee))
  {
    hide LeftPad, FromBE, Itob, Payload, ReadInt;
    FieldsRead(vaa, off, withPayload, amount, token, chain, to, toChain, tail);
    if !withPayload {
      Take(vaa, off + 101, ZEROS_24, Itob(fee));
      assert Itob(fee) + [] == Itob(fee);
      TakeInt(vaa, off + 125, Itob(fee), []);
      ItobBtoi(fee);
    }
  }

  lemma {:induction false} LeadingZeros(n: nat, s: bytes)
    ensures FromBE(Zeros(n) + s) == FromBE(s)
  {
    if s == [] {
      FromBEZeros(n);
      assert Zeros(n) + s == Zeros(n);
    } else {
      LeadingZeros(n, s[..|s| - 1]);
      assert (Zeros(n) + s)[..n + |s| - 1] == Zeros(n) + s[..|s| - 1];
    }
  }

  /** An asset id of this chain survives the padding. */
  lemma IdPadded(arg: bytes)
    requires |arg| <= 8
    ensures FromBE(LeftPad(arg)[24..32]) == FromBE(arg)
  {
    hide FromBE;
    PaddedTail(arg);
    LeadingZeros(8 - |arg|, arg);
  }

  lemma PaddedTail(arg: bytes)
    requires |arg| <= 8
    ensures LeftPad(arg)[24..32] == Zeros(8 - |arg|) + arg
  {
  }

  // ---------- sending ----------

  /** The pieces of an accepted `sendTransfer`. */
  datatype Sending = Sending(aid: uint64, deposit: uint64, factor: uint64, fee: uint64, token: bytes, chain: bytes, to: bytes, toChain: bytes, tail: bytes)

  lemma SendParts(env: Env, st: BridgeState, group: seq<Txn>, t: nat, out: Outside, r: (BridgeState, seq<Entry>)) returns (s: Sending)
    requires t < |group| && SendTransfer(env, st, group, t, out) == Some(r)
    ensures t > 0 && |group[t].args| > 5 && Btoi(group[t].args[1]) == Some(s.aid) && FactorOf(env, s.aid) == Some(s.factor)
    ensures group[t].Account(2).Some? && Deposit(group, t, s.aid, group[t].Account(2).value) == Some(s.deposit)
    ensures Btoi(group[t].args[5]) == Some(s.fee) && s.fee <= s.deposit
    ensures Token(env, st.cells, out.wrapped, s.aid, group[t].args[1], group[t].Account(2).value) == Some((s.token, s.chain))
    ensures |s.token| <= 32 && |s.chain| == 2 && |s.to| <= 32 && |s.toChain| == 2 && s.factor > 0
    ensures s.to == group[t].args[3] && |group[t].args[4]| >= 8 && s.toChain == group[t].args[4][6..8]
    ensures s.tail == if |group[t].args| == 7 then group[t].sender + group[t].args[6] else ZEROS_24 + Itob(Locked(s.fee, s.factor))
    ensures
      var amount, cut := Locked(s.deposit, s.factor), Locked(s.fee, s.factor);
      var native := !(s.aid != 0 && out.wrapped);
      && amount > 0
      && r == (st, [Sent(s.aid, native, s.deposit, amount, cut, Payload(|group[t].args| == 7, amount, s.token, s.chain, s.to, s.toChain, s.tail))])
  {
    hide Token, Payload, Btoi, FactorOf, Itob, FeePaid, CommonChecks;
    var tx := group[t];
    var aid := Btoi(tx.args[1]).value;
    var token := Token(env, st.cells, out.wrapped, aid, tx.args[1], tx.Account(2).value).value;
    var factor, fee := FactorOf(env, aid).value, Btoi(tx.args[5]).value;
    s := Sending(aid, Deposit(group, t, aid, tx.Account(2).value).value, factor, fee,
                 token.0, token.1, tx.args[3], tx.args[4][6..8],
                 if |tx.args| == 7 then tx.sender + tx.args[6] else ZEROS_24 + Itob(Locked(fee, factor)));
  }

  /** Transfer payload round trip: whatever envelope carries it, the message of an accepted
      `sendTransfer` is read back with its type, normalised amount, token, receiver, chains and
      fee; the receiver's check of the fee cannot fail. */
  lemma SentIsRead(env: Env, st: BridgeState, group: seq<Txn>, t: nat, out: Outside, r: (BridgeState, seq<Entry>), vaa: bytes, off: nat)
    returns (s: Sending)
    requires t < |group| && SendTransfer(env, st, group, t, out) == Some(r)
    requires |r.1| == 1 && r.1[0].Sent? && off <= |vaa| && vaa[off..] == r.1[0].payload
    ensures |group[t].args| > 5 && Btoi(group[t].args[1]) == Some(s.aid) && group[t].Account(2).Some?
    ensures Token(env, st.cells, out.wrapped, s.aid, group[t].args[1], group[t].Account(2).value) == Some((s.token, s.chain))
    ensures |s.token| <= 32 && |group[t].args[3]| <= 32 && |group[t].args[4]| >= 8
    ensures
      ReadTransfer(vaa, off) == Some(Transfer(
        if |group[t].args| == 7 then 3 else 1, r.1[0].amount, LeftPad(s.token), FromBE(s.chain),
        LeftPad(group[t].args[3]), FromBE(group[t].args[4][6..8]), if |group[t].args| == 7 then 0 else r.1[0].fee))
    ensures r.1[0].fee <= r.1[0].amount
  {
    s := SendParts(env, st, group, t, out, r);
    hide SendTransfer, Token, Payload, ReadTransfer, Btoi, FactorOf, Deposit, Itob, Locked;
    FeeSurvivesDedusting(s.fee, s.deposit, s.factor);
    PayloadRead(vaa, off, |group[t].args| == 7, Locked(s.deposit, s.factor), s.token, s.chain, s.to, s.toChain, Locked(s.fee, s.factor), s.tail);
  }

  /** What is announced was deposited by the transaction in front: the announced units are
      worth at most the deposit, and what is lost to rounding is less than one unit. */
  lemma SentIsBacked(env: Env, st: BridgeState, group: seq<Txn>, t: nat, out: Outside, r: (BridgeState, seq<Entry>))
    requires t < |group| && SendTransfer(env, st, group, t, out) == Some(r)
    ensures t > 0 && r.0 == st && |r.1| == 1 && r.1[0].Sent? && r.1[0].amount > 0
    ensures FactorOf(env, r.1[0].asset).Some? && r.1[0].deposit == group[t - 1].amount
    ensures
      var sent, factor := r.1[0], FactorOf(env, r.1[0].asset).value;
      sent.amount * factor <= sent.deposit < sent.amount * factor + factor
  {
    var s := SendParts(env, st, group, t, out, r);
    hide SendTransfer, Locked, FactorOf, Token, Payload, CommonChecks;
    Dust(s.deposit, s.factor);
  }

  /** For an asset of this chain the message names this chain and the asset's own id, so that
      it comes back as the asset it was. */
  lemma NativeComesHome(env: Env, cells: Cells, wrapped: bool, aid: uint64, arg1: bytes, acct: bytes)
    requires Btoi(arg1) == Some(aid) && !(aid != 0 && wrapped)
    requires Token(env, cells, wrapped, aid, arg1, acct).Some?
    ensures
      var token := Token(env, cells, wrapped, aid, arg1, acct).value;
      && |token.0| <= 8 && FromBE(token.1) == 8 && FromBE(LeftPad(token.0)[24..32]) == aid
  {
    IdPadded(arg1);
    assert Core.THIS_CHAIN[..1] == [0];
    FromBEByte(0);
  }

  // ---------- releasing ----------

  /** Both payments together are worth the message's amount. */
  lemma PaysInFull(amount: uint64, fee: uint64, factor: uint64)
    requires fee <= amount
    ensures (amount - fee) * factor + fee * factor == amount * factor
  {
  }

  lemma FeeFits(amount: uint64, fee: uint64, factor: uint64)
    requires fee <= amount
    ensures fee * factor <= amount * factor && (amount - fee) * factor <= amount * factor
  {
    PaysInFull(amount, fee, factor);
    assert fee * factor >= 0 && (amount - fee) * factor >= 0;
  }

  /** A release that the account covers is never refused for its size: the products fit, and
      the two payments take exactly the message's worth from the account. Only a receiver
      whose balance would overflow can stop it. */
  lemma PayOutSucceeds(l: Ledger, from: bytes, to: bytes, relayer: bytes, asset: uint64, factor: uint64, amount: uint64, fee: uint64)
    requires fee <= amount && amount * factor <= Balance(l, from, asset)
    requires to != from && relayer != from
    requires Balance(l, to, asset) + amount * factor < U64 && Balance(l, relayer, asset) + amount * factor < U64
    ensures PayOut(l, from, to, relayer, asset, factor, amount, fee).Some?
    ensures
      var l' := PayOut(l, from, to, relayer, asset, factor, amount, fee).value;
      && Balance(l', from, asset) == Balance(l, from, asset) - amount * factor
      && (to != relayer ==> Balance(l', to, asset) == Balance(l, to, asset) + (amount - fee) * factor)
      && (to != relayer ==> Balance(l', relayer, asset) == Balance(l, relayer, asset) + fee * factor)
      && (to == relayer ==> Balance(l', to, asset) == Balance(l, to, asset) + amount * factor)
  {
    FeeFits(amount, fee, factor);
    PaysInFull(amount, fee, factor);
    var a, b := (amount - fee) * factor, fee * factor;
    assert fee == 0 ==> b == 0;
    MoveEffect(l, from, to, asset, a);
    var paid := Move(l, from, to, asset, a).value;
    if fee > 0 {
      MoveEffect(paid, from, relayer, asset, b);
    }
  }

  lemma MoveEffect(l: Ledger, from: bytes, to: bytes, asset: uint64, amount: uint64)
    requires from != to
    ensures Move(l, from, to, asset, amount).Some? <==> amount <= Balance(l, from, asset) && Balance(l, to, asset) + amount < U64
    ensures Move(l, from, to, asset, amount).Some? ==>
      var l' := Move(l, from, to, asset, amount).value;
      && Balance(l', from, asset) == Balance(l, from, asset) - amount
      && Balance(l', to, asset) == Balance(l, to, asset) + amount
      && (forall w: bytes, x: uint64 | (w, x) != (from, asset) && (w, x) != (to, asset) :: Balance(l', w, x) == Balance(l, w, x))
  {
  }
}
