/** Exactly when `verifyVAA` succeeds, in terms of the stored bytes of the guardian set, the
    transactions in front and the guardians the signatures name. */
module VerifyAccepts {
  import opened Teal
  import opened Transactions
  import opened VaaVerify
  import opened VerifyVaa
  import opened Template
  import opened LocalBlob
  import opened Signatures

  // ---------- the guardians named ----------

  /** One of the first `k` signatures names guardian `g`. */
  ghost predicate NamedBefore(vaa: bytes, k: nat, g: nat)
    requires 6 + 66 * k <= |vaa|
  {
    exists j: nat :: j < k && GuardianAt(vaa, j) == g
  }

  /** Signature `k` names a guardian of the set whose number is below 32 and who was not named
      before. */
  ghost predicate NewGuardian(vaa: bytes, keys: bytes, k: nat)
    requires 6 + 66 * k < |vaa|
  {
    var g := GuardianAt(vaa, k);
    g < 32 && 20 * g + 20 <= |keys| && !NamedBefore(vaa, k, g)
  }

  ghost predicate NewGuardians(vaa: bytes, keys: bytes, k: nat, end: nat)
    requires 6 + 66 * end <= |vaa|
  {
    forall j: nat | k <= j < end :: NewGuardian(vaa, keys, j)
  }

  /** The bits that are set are those of the guardians named so far. */
  ghost predicate HitsAre(vaa: bytes, hits: bytes, k: nat) {
    && |hits| == 4 && 6 + 66 * k <= |vaa|
    && forall g: nat | g < 32 :: GetBitOfBytes(hits, g) == Some(NamedBefore(vaa, k, g))
  }

  /** The stored keys of the guardians that signatures `k` to `end` name. */
  function KeyList(vaa: bytes, keys: bytes, k: nat, end: nat): bytes
    requires k <= end && 6 + 66 * end <= |vaa|
    decreases end - k
  {
    if k == end then [] else Slice(keys, 20 * GuardianAt(vaa, k), 20 * GuardianAt(vaa, k) + 20) + KeyList(vaa, keys, k + 1, end)
  }

  lemma NamedStep(vaa: bytes, k: nat, g: nat)
    requires 6 + 66 * (k + 1) <= |vaa|
    ensures NamedBefore(vaa, k + 1, g) <==> g == GuardianAt(vaa, k) || NamedBefore(vaa, k, g)
  {
    if NamedBefore(vaa, k, g) {
      var j: nat :| j < k && GuardianAt(vaa, j) == g;
      assert j < k + 1 && GuardianAt(vaa, j) == g;
    }
    assert k < k + 1;
  }

  lemma HitStep(vaa: bytes, hits: bytes, k: nat)
    requires HitsAre(vaa, hits, k) && 6 + 66 * (k + 1) <= |vaa| && GuardianAt(vaa, k) < 32
    ensures HitsAre(vaa, SetBitOfBytes(hits, GuardianAt(vaa, k)).value, k + 1)
  {
    hide NamedBefore, SetBitOfBytes, GetBitOfBytes;
    var g := GuardianAt(vaa, k);
    forall i: nat | i < 32 ensures GetBitOfBytes(SetBitOfBytes(hits, g).value, i) == Some(NamedBefore(vaa, k + 1, i)) {
      SetBitOfBytesEffect(hits, g, i);
      NamedStep(vaa, k, i);
    }
  }

  lemma CollectOne(vaa: bytes, keys: bytes, k: nat, end: nat, hits: bytes, acc: bytes)
    requires k < end && 6 + 66 * end <= |vaa| && HitsAre(vaa, hits, k)
    ensures
      var g := GuardianAt(vaa, k);
      Collect(vaa, keys, 6 + 66 * k, 6 + 66 * end, hits, acc) ==
        if NewGuardian(vaa, keys, k)
        then Collect(vaa, keys, 6 + 66 * (k + 1), 6 + 66 * end, SetBitOfBytes(hits, g).value, acc + keys[20 * g..20 * g + 20])
        else None
  {
    hide NamedBefore, SetBitOfBytes;
    var g := GuardianAt(vaa, k);
    if g < 32 { assert GetBitOfBytes(hits, g) == Some(NamedBefore(vaa, k, g)); }
  }

  /** A batch is walked to its end exactly when all its guardians are new; then their keys are
      collected and their bits set. */
  lemma {:induction false} CollectExactly(vaa: bytes, keys: bytes, k: nat, end: nat, hits: bytes, acc: bytes)
    requires k <= end && 6 + 66 * end <= |vaa| && HitsAre(vaa, hits, k)
    ensures Collect(vaa, keys, 6 + 66 * k, 6 + 66 * end, hits, acc).Some? <==> NewGuardians(vaa, keys, k, end)
    ensures NewGuardians(vaa, keys, k, end) ==>
      var c := Collect(vaa, keys, 6 + 66 * k, 6 + 66 * end, hits, acc).value;
      c.0 == 6 + 66 * end && HitsAre(vaa, c.1, end) && c.2 == acc + KeyList(vaa, keys, k, end)
    decreases end - k
  {
    hide NewGuardian, HitsAre, Collect, GuardianAt, SetBitOfBytes;
    if k == end {
      CollectNone(vaa, keys, 6 + 66 * k, hits, acc);
    } else {
      var g := GuardianAt(vaa, k);
      CollectOne(vaa, keys, k, end, hits, acc);
      if NewGuardian(vaa, keys, k) {
        NewIs(vaa, keys, k, hits);
        HitStep(vaa, hits, k);
        var key := keys[20 * g..20 * g + 20];
        CollectExactly(vaa, keys, k + 1, end, SetBitOfBytes(hits, g).value, acc + key);
        assert acc + key + KeyList(vaa, keys, k + 1, end) == acc + (key + KeyList(vaa, keys, k + 1, end));
      }
    }
  }

  lemma CollectNone(vaa: bytes, keys: bytes, off: nat, hits: bytes, acc: bytes)
    ensures Collect(vaa, keys, off, off, hits, acc) == Some((off, hits, acc))
  {
  }

  lemma NewIs(vaa: bytes, keys: bytes, k: nat, hits: bytes)
    requires 6 + 66 * k < |vaa| && NewGuardian(vaa, keys, k) && HitsAre(vaa, hits, k)
    ensures GuardianAt(vaa, k) < 32 && 20 * GuardianAt(vaa, k) + 20 <= |keys| && SetBitOfBytes(hits, GuardianAt(vaa, k)).Some?
  {
  }

  // ---------- the run of calls in front ----------

  /** How many signatures a call brings. */
  function Brings(g: Txn): nat {
    if |g.args| > 1 && g.args[0] == Ascii("verifySigs") then |g.args[1]| / 66 else 0
  }

  /** How many the calls from `start` on have brought before call `j`. */
  function Brought(group: Group, start: nat, j: nat): nat
    requires j <= |group|
  {
    if j <= start then 0 else Brought(group, start, j - 1) + Brings(group[j - 1])
  }

  /** A batch from the stateless program's address: the next signatures of the VAA, the stored
      keys of the guardians they name, and the digest. */
  predicate BatchFits(g: Txn, verifier: bytes, vaa: bytes, keys: bytes, digest: bytes, k: nat) {
    && BatchCall(g, verifier, digest)
    && var end := k + |g.args[1]| / 66;
       && |g.args[1]| % 66 == 0 && 6 + 66 * end <= |vaa|
       && g.args[1] == vaa[6 + 66 * k..6 + 66 * end] && g.args[2] == KeyList(vaa, keys, k, end)
  }

  predicate CallFits(g: Txn, tx: Txn, verifier: bytes, vaa: bytes, keys: bytes, digest: bytes, k: nat) {
    && HelperCall(g, tx) && |g.args| > 0
    && (g.args[0] == Ascii("nop") || g.args[0] == Ascii("verifyVAA")
        || (g.args[0] == Ascii("verifySigs") && BatchFits(g, verifier, vaa, keys, digest, k)))
  }

  lemma WholeBatch(crypto: Crypto, g: Txn, verifier: bytes)
    requires g.sender == verifier ==> Approves(crypto, g)
    ensures g.sender == verifier ==> |g.args| > 3 && |g.args[1]| % 66 == 0
  {
  }

  lemma NextBatchExactly(g: Txn, tx: Txn, verifier: bytes, vaa: bytes, keys: bytes, digest: bytes, k: nat, hits: bytes)
    requires |g.args| > 1 && g.args[0] == VERIFY_SIGS && HelperCall(g, tx) && HitsAre(vaa, hits, k)
    requires g.sender == verifier ==> |g.args| > 3 && |g.args[1]| % 66 == 0
    ensures
      var s, end := Inspect(g, tx, verifier, vaa, keys, digest, 6 + 66 * k, hits), k + |g.args[1]| / 66;
      && (s.Some? <==> BatchFits(g, verifier, vaa, keys, digest, k) && NewGuardians(vaa, keys, k, end))
      && (s.Some? ==> s.value.0 == 6 + 66 * end && HitsAre(vaa, s.value.1, end))
  {
    hide Collect, KeyList, NewGuardians, HitsAre;
    var b := g.args[1];
    var end := k + |b| / 66;
    assert g.accounts[..2][0] == tx.accounts[..2][0] && g.accounts[..2][1] == tx.accounts[..2][1];
    if |b| % 66 == 0 && 6 + 66 * end <= |vaa| {
      assert 6 + 66 * k + |b| == 6 + 66 * end;
      CollectExactly(vaa, keys, k, end, hits, []);
      assert [] + KeyList(vaa, keys, k, end) == KeyList(vaa, keys, k, end);
    }
  }

  lemma HelperExactly(g: Txn, tx: Txn, verifier: bytes, vaa: bytes, keys: bytes, digest: bytes, k: nat, hits: bytes)
    requires HitsAre(vaa, hits, k) && (g.sender == verifier ==> |g.args| > 3 && |g.args[1]| % 66 == 0)
    ensures
      var s, end := Inspect(g, tx, verifier, vaa, keys, digest, 6 + 66 * k, hits), k + Brings(g);
      && (s.Some? <==> CallFits(g, tx, verifier, vaa, keys, digest, k) && 6 + 66 * end <= |vaa| && NewGuardians(vaa, keys, k, end))
      && (s.Some? ==> s.value.0 == 6 + 66 * end && HitsAre(vaa, s.value.1, end))
  {
    hide Collect, KeyList, NewGuardian, HitsAre;
    HelperNames();
    HitsFit(vaa, hits, k);
    if Inspect(g, tx, verifier, vaa, keys, digest, 6 + 66 * k, hits).Some? {
      InspectNeeds(g, tx, verifier, vaa, keys, digest, 6 + 66 * k, hits);
    }
    if HelperCall(g, tx) {
      assert g.accounts[..2][0] == tx.accounts[..2][0] && g.accounts[..2][1] == tx.accounts[..2][1];
      if |g.args| > 1 && g.args[0] == VERIFY_SIGS {
        NextBatchExactly(g, tx, verifier, vaa, keys, digest, k, hits);
      }
    }
  }

  lemma HitsFit(vaa: bytes, hits: bytes, k: nat)
    requires HitsAre(vaa, hits, k)
    ensures 6 + 66 * k <= |vaa|
  {
  }

  /** Calls `i` to `t` fit, each at the signature the ones before it have brought the run to. */
  predicate CallsFit(group: Group, start: nat, i: nat, t: nat, verifier: bytes, vaa: bytes, keys: bytes, digest: bytes)
    requires t < |group|
  {
    forall j: nat | i <= j <= t :: CallFits(group[j], group[t], verifier, vaa, keys, digest, Brought(group, start, j))
  }

  lemma {:induction false} BroughtGrows(group: Group, start: nat, i: nat, j: nat)
    requires i <= j <= |group|
    ensures Brought(group, start, i) <= Brought(group, start, j)
  {
    hide Brings;
    if i < j { BroughtGrows(group, start, i, j - 1); }
  }

  /** The forward loop ends exactly when every call fits and all the guardians named are new, at
      the end of the last signature brought. */
  lemma {:induction false} ScanExactly(crypto: Crypto, group: Group, start: nat, i: nat, t: nat, verifier: bytes, vaa: bytes, keys: bytes, digest: bytes, hits: bytes)
    requires t < |group| && start <= i <= t + 1 && Authorised(crypto, verifier, group)
    requires HitsAre(vaa, hits, Brought(group, start, i))
    ensures
      var s, end := Scan(group, i, t, verifier, vaa, keys, digest, 6 + 66 * Brought(group, start, i), hits), Brought(group, start, t + 1);
      && (s.Some? <==> CallsFit(group, start, i, t, verifier, vaa, keys, digest) && 6 + 66 * end <= |vaa| && NewGuardians(vaa, keys, Brought(group, start, i), end))
      && (s.Some? ==> s.value == 6 + 66 * end)
    decreases t + 1 - i
  {
    hide Inspect, CallFits, NewGuardian, HitsAre, Brings, Approves;
    var k, end := Brought(group, start, i), Brought(group, start, t + 1);
    HitsFit(vaa, hits, k);
    if i < t + 1 {
      assert group[i].sender == verifier ==> Approves(crypto, group[i]);
      WholeBatch(crypto, group[i], verifier);
      HelperExactly(group[i], group[t], verifier, vaa, keys, digest, k, hits);
      var k' := Brought(group, start, i + 1);
      BroughtGrows(group, start, i + 1, t + 1);
      var s := Inspect(group[i], group[t], verifier, vaa, keys, digest, 6 + 66 * k, hits);
      if s.Some? {
        ScanExactly(crypto, group, start, i + 1, t, verifier, vaa, keys, digest, s.value.1);
      }
    }
  }

  // ---------- the set, and all together ----------

  function ExpiryIn(c: Cell): (n: uint64) {
    FromBEBound(c.flat[1000..1008]);
    FromBE(c.flat[1000..1008])
  }

  /** The set the VAA names by its index: tagged, of at most 95 keys, without an expiry or
      before it. */
  predicate SetInForce(at: Locator, cells: map<bytes, Cell>, tx: Txn, now: uint64) {
    && |tx.args| > 1 && |tx.args[1]| > 5 && |tx.accounts| >= 2
    && var a := tx.accounts[1];
       && a == at(FromBE(tx.args[1][1..5]), Ascii("guardian")) && a in cells && cells[a].tag == Some(Ascii("guardian"))
       && 0 < cells[a].flat[0] <= 95
       && (ExpiryIn(cells[a]) == 0 || now < ExpiryIn(cells[a]))
  }

  /** The keys stored behind their number. */
  function KeysIn(c: Cell): bytes
    requires c.flat[0] <= 95
  {
    c.flat[1..1 + 20 * c.flat[0] as nat]
  }

  /** A quorum of signatures, all brought by the calls from `start` on, by different guardians
      of the set. */
  ghost predicate Verifies(crypto: Crypto, verifier: bytes, group: Group, start: nat, t: nat, keys: bytes)
    requires start <= t < |group| && |group[t].args| > 1 && |group[t].args[1]| > 5
  {
    var vaa := group[t].args[1];
    var n := SigCount(vaa);
    && 6 + 66 * n <= |vaa| && n <= |keys| / 20 && 3 * n > 2 * (|keys| / 20)
    && CallsFit(group, start, start, t, verifier, vaa, keys, crypto.keccak(crypto.keccak(vaa[6 + 66 * n..])))
    && Brought(group, start, t + 1) == n && NewGuardians(vaa, keys, 0, n)
  }

  /** `start` is where the unbroken run of `verifySigs` and `nop` calls in front of `t` begins. */
  predicate RunBegins(group: Group, t: nat, start: nat)
    requires t < |group|
  {
    (start == t || InRun(group, t, start)) && start <= t && (start > 0 ==> !InRun(group, t, start - 1))
  }

  lemma RunIs(group: Group, t: nat, start: nat)
    requires 0 < t < |group| && RunBegins(group, t, start)
    ensures RunStart(group, t - 1) == start
  {
    HelperNames();
    forall j | start <= j <= t - 1 ensures IsHelper(group[j]) {
      assert InRun(group, t, start);
    }
    RunStartUnique(group, t - 1, start);
  }

  lemma SetExactly(crypto: Crypto, at: Locator, cells: map<bytes, Cell>, verifier: bytes, group: Group, t: nat, now: uint64)
    requires t < |group|
    ensures VerifyVAA(crypto, at, cells, verifier, group, t, now).Some? ==> SetInForce(at, cells, group[t], now)
    ensures SetInForce(at, cells, group[t], now) ==>
      var c := cells[group[t].accounts[1]];
      LoadSet(c) == Some(StoredSet(c.flat[0], KeysIn(c), ExpiryIn(c)))
  {
    hide FromBE, Scan;
    HelperNames();
    assert GUARDIAN == Ascii("guardian");
  }

  /** Exactly when `verifyVAA` succeeds: the set it names is in force, and the run of calls in
      front brings a quorum of signatures of this very VAA, from the stateless program's address,
      beside the keys of different guardians of that set. */
  lemma VerifyExactly(crypto: Crypto, at: Locator, cells: map<bytes, Cell>, verifier: bytes, group: Group, start: nat, t: nat, now: uint64)
    requires t < |group| && Authorised(crypto, verifier, group) && RunBegins(group, t, start)
    ensures VerifyVAA(crypto, at, cells, verifier, group, t, now).Some? <==>
      && SetInForce(at, cells, group[t], now) && t > 0 && |group[t - 1].args| > 0
      && Verifies(crypto, verifier, group, start, t, KeysIn(cells[group[t].accounts[1]]))
  {
    hide LoadSet, Scan, CallsFit, NewGuardian, Authorised, RunStart, FromBE, Brought, RunBegins;
    SetExactly(crypto, at, cells, verifier, group, t, now);
    HelperNames();
    assert GUARDIAN == Ascii("guardian");
    if SetInForce(at, cells, group[t], now) && t > 0 {
      var vaa, keys := group[t].args[1], KeysIn(cells[group[t].accounts[1]]);
      var n := SigCount(vaa);
      RunIs(group, t, start);
      if 6 + 66 * n <= |vaa| {
        var digest := crypto.keccak(crypto.keccak(vaa[6 + 66 * n..]));
        assert Digest(crypto, vaa) == Some(digest);
        NoHits(vaa, group, start);
        ScanExactly(crypto, group, start, start, t, verifier, vaa, keys, digest, NO_HITS);
      }
    }
  }

  lemma NoHits(vaa: bytes, group: Group, start: nat)
    requires |vaa| > 5 && start <= |group|
    ensures Brought(group, start, start) == 0 && HitsAre(vaa, NO_HITS, 0)
  {
    forall g: nat | g < 32 ensures GetBitOfBytes(NO_HITS, g) == Some(NamedBefore(vaa, 0, g)) {
      ZeroHasNoBits(7 - g % 8);
    }
  }
}
