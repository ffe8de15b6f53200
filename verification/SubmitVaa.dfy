/** How the client submits a VAA: its signatures in batches of nine, each batch as one call
    signed by the stateless program, then the `verifyVAA` call. Every properly signed VAA goes
    through. */
module SubmitVaa {
  import opened Teal
  import opened Transactions
  import opened VaaVerify
  import opened VerifyVaa
  import opened Template
  import opened LocalBlob
  import opened Replay
  import opened Protocol
  import opened Core
  import opened Client
  import opened Doubles

  /** Nine signatures. */
  const BATCH: nat := 594

  function Signatures(vaa: bytes): bytes
    requires |vaa| > 5
  {
    Slice(vaa, 6, SigStart(vaa[5]))
  }

  function Batches(vaa: bytes): nat
    requires |vaa| > 5
  {
    |Signatures(vaa)| / BATCH + if vaa[5] % 9 != 0 then 1 else 0
  }

  function Batch(vaa: bytes, i: nat): bytes
    requires |vaa| > 5
  {
    Slice(Signatures(vaa), i * BATCH, (i + 1) * BATCH)
  }

  /** A guardian's key in the decoded account, after the size byte. */
  function KeyIn(stored: bytes, g: nat): bytes {
    Slice(stored, g * 20 + 1, (g + 1) * 20 + 1)
  }

  /** The keys the client puts beside the first `q` signatures of a batch. */
  function KeySet(sigs: bytes, stored: bytes, q: nat): bytes
    requires 66 * q <= |sigs|
  {
    if q == 0 then []
    else
      var g: nat := sigs[66 * (q - 1)];
      KeySet(sigs, stored, q - 1) + KeyIn(stored, g)
  }

  function CoreCall(app: App, sender: bytes, fee: uint64, accts: seq<bytes>, args: seq<bytes>): Txn {
    Txn(ApplicationCall, sender, ZERO_ADDRESS, ZERO_ADDRESS, ZERO_ADDRESS, fee, app.id, NoOp, accts, args, ZERO_ADDRESS, 0, 0)
  }

  function BatchTxn(env: Env, vaa: bytes, stored: bytes, digest: bytes, accts: seq<bytes>, i: nat): Txn
    requires |vaa| > 5
  {
    var sigs := Batch(vaa, i);
    CoreCall(env.app, env.verifier, 0, accts, [VERIFY_SIGS, sigs, KeySet(sigs, stored, |sigs| / 66), digest])
  }

  function BatchTxns(env: Env, vaa: bytes, stored: bytes, digest: bytes, accts: seq<bytes>, n: nat): seq<Txn>
    requires |vaa| > 5
  {
    if n == 0 then []
    else BatchTxns(env, vaa, stored, digest, accts, n - 1) + [BatchTxn(env, vaa, stored, digest, accts, n - 1)]
  }

  lemma {:induction false} BatchTxnAt(env: Env, vaa: bytes, stored: bytes, digest: bytes, accts: seq<bytes>, n: nat)
    requires |vaa| > 5
    ensures
      var txns := BatchTxns(env, vaa, stored, digest, accts, n);
      |txns| == n && forall i | 0 <= i < n :: txns[i] == BatchTxn(env, vaa, stored, digest, accts, i)
  {
    hide BatchTxn;
    if n > 0 { BatchTxnAt(env, vaa, stored, digest, accts, n - 1); }
  }

  function ClientDigest(crypto: Crypto, vaa: bytes): bytes
    requires |vaa| > 5
  {
    crypto.keccak(crypto.keccak(Slice(vaa, SigStart(vaa[5]), |vaa|)))
  }

  function VerifyGroup(env: Env, vaa: bytes, stored: bytes, accts: seq<bytes>, sender: bytes, fee: uint64): seq<Txn>
    requires |vaa| > 5
  {
    BatchTxns(env, vaa, stored, ClientDigest(env.crypto, vaa), accts, Batches(vaa))
    + [CoreCall(env.app, sender, fee, accts, [VERIFY_VAA, vaa])]
  }

  method CollectKeySet(sigs: bytes, stored: bytes) returns (kset: bytes)
    requires |sigs| <= BATCH
    ensures kset == KeySet(sigs, stored, |sigs| / 66)
  {
    hide KeyIn, IntOfQuotient;
    SmallDiv(|sigs|, 66);
    kset := [];
    for q := 0 to IntOfQuotient(|sigs|, 66)
      invariant kset == KeySet(sigs, stored, q)
    {
      var g: nat := sigs[q * 66];
      kset := kset + KeyIn(stored, g);
    }
  }

  /** The calls up to and including `verifyVAA`; `stored` is what the client decoded from the
      guardian account. A VAA without a signature count raises an index error. */
  method BuildGroup(env: Env, vaa: bytes, stored: bytes, accts: seq<bytes>, sender: bytes, fee: uint64) returns (r: Option<seq<Txn>>)
    ensures r.Some? <==> |vaa| > 5
    ensures r.Some? ==> r == Some(VerifyGroup(env, vaa, stored, accts, sender, fee))
  {
    hide KeySet, CoreCall, IntOfQuotient;
    if |vaa| <= 5 { return None; }
    var num: nat := vaa[5];
    var signatures := Slice(vaa, 6, num * 66 + 6);
    SmallDiv(|signatures|, BATCH);
    var blocks := IntOfQuotient(|signatures|, BATCH) + if num % 9 != 0 then 1 else 0;
    var digest := ClientDigest(env.crypto, vaa);
    var txns := [];
    for i := 0 to blocks
      invariant txns == BatchTxns(env, vaa, stored, digest, accts, i)
    {
      var sigs := Slice(signatures, i * BATCH, |signatures|);
      if |sigs| > BATCH {
        sigs := sigs[..BATCH];
      }
      CutBatch(vaa, i);
      var kset := CollectKeySet(sigs, stored);
      txns := txns + [CoreCall(env.app, env.verifier, 0, accts, [VERIFY_SIGS, sigs, kset, digest])];
    }
    return Some(txns + [CoreCall(env.app, sender, fee, accts, [VERIFY_VAA, vaa])]);
  }

  lemma CutBatch(vaa: bytes, i: nat)
    requires |vaa| > 5
    ensures
      var rest := Slice(Signatures(vaa), i * BATCH, |Signatures(vaa)|);
      Batch(vaa, i) == if |rest| > BATCH then rest[..BATCH] else rest
  {
  }

  // ---------- what the contract makes of it ----------

  /** Valid signatures by distinct guardians of the set that the contract can count. */
  ghost predicate WellSigned(crypto: Crypto, set_: StoredSet, vaa: bytes) {
    && |set_.keys| == 20 * set_.n
    && QuorumSigned(crypto, set_.keys, vaa)
    && forall k | 0 <= k < vaa[5] :: Signer(vaa, k) < 32
  }

  /** The client decoded the keys that are stored. */
  ghost predicate SeesKeys(stored: bytes, keys: bytes) {
    forall g: nat | 20 * g + 20 <= |keys| :: SeesKey(stored, keys, g)
  }

  predicate SeesKey(stored: bytes, keys: bytes, g: nat) {
    20 * g + 20 <= |keys| && KeyIn(stored, g) == keys[20 * g..20 * g + 20]
  }

  /** The client decoded the keys of the guardians who signed. */
  ghost predicate SeesSigners(vaa: bytes, stored: bytes, keys: bytes) {
    && |vaa| > 5 && SigStart(vaa[5]) <= |vaa|
    && forall j | 0 <= j < vaa[5] :: SeesKey(stored, keys, Signer(vaa, j))
  }

  function UpToBatch(vaa: bytes, i: nat): nat
    requires |vaa| > 5
  {
    if 9 * i <= vaa[5] then 9 * i else vaa[5]
  }

  lemma BatchIs(vaa: bytes, i: nat)
    requires |vaa| > 5 && SigStart(vaa[5]) <= |vaa| && i < Batches(vaa)
    ensures
      var k, k' := UpToBatch(vaa, i), UpToBatch(vaa, i + 1);
      && k < k' <= vaa[5] && k == 9 * i
      && Batch(vaa, i) == vaa[SigStart(k)..SigStart(k')]
      && |Batch(vaa, i)| == 66 * (k' - k)
  {
    var sigs := Signatures(vaa);
    assert |sigs| + 6 == SigStart(vaa[5]);
    var k, k' := UpToBatch(vaa, i), UpToBatch(vaa, i + 1);
    SliceOfSlice(vaa, 6, SigStart(vaa[5]), 66 * k, 66 * k');
  }

  lemma AllBatches(vaa: bytes)
    requires |vaa| > 5 && SigStart(vaa[5]) <= |vaa|
    ensures UpToBatch(vaa, Batches(vaa)) == vaa[5]
    ensures vaa[5] > 0 ==> Batches(vaa) > 0
  {
    assert |Signatures(vaa)| + 6 == SigStart(vaa[5]);
  }

  lemma NoKeys(vaa: bytes, keys: bytes, k: nat)
    requires SigStart(k) <= |vaa|
    ensures KeysFor(vaa, keys, k, 0, [])
  {
  }

  lemma {:induction false} KeySetIs(vaa: bytes, keys: bytes, stored: bytes, k: nat, m: nat, sigs: bytes, q: nat)
    requires q <= m && SigStart(k + m) <= |vaa| && sigs == vaa[SigStart(k)..SigStart(k + m)]
    requires forall j | k <= j < k + m :: SeesKey(stored, keys, Signer(vaa, j))
    ensures KeysFor(vaa, keys, k, q, KeySet(sigs, stored, q))
  {
    hide KeyIn, KeysFor;
    if q == 0 {
      NoKeys(vaa, keys, k);
    } else {
      KeySetIs(vaa, keys, stored, k, m, sigs, q - 1);
      var g := Signer(vaa, k + q - 1);
      assert sigs[66 * (q - 1)] == g;
      KeysForStep(vaa, keys, k, q - 1, KeySet(sigs, stored, q - 1), keys[20 * g..20 * g + 20]);
    }
  }

  lemma {:induction false} KeySetLength(sigs: bytes, stored: bytes, q: nat)
    requires 66 * q <= |sigs|
    ensures |KeySet(sigs, stored, q)| <= 20 * q
  {
    hide KeyIn;
    if q > 0 {
      KeySetLength(sigs, stored, q - 1);
      KeyInLength(stored, sigs[66 * (q - 1)]);
    }
  }

  lemma LastKey(vaa: bytes, keys: bytes, k: nat, q: nat, before: bytes, last: bytes)
    requires KeysFor(vaa, keys, k, q + 1, before + last) && |before| <= 20 * q && |last| <= 20
    ensures KeysFor(vaa, keys, k, q, before) && KeyFor(vaa, keys, k + q, last)
  {
    hide KeyFor;
    var all := before + last;
    assert all[20 * q..20 * (q + 1)] == last;
    forall j | 0 <= j < q ensures KeyFor(vaa, keys, k + j, before[20 * j..20 * j + 20]) {
      assert before[20 * j..20 * j + 20] == all[20 * j..20 * j + 20];
    }
  }

  /** Conversely, only the right keys make the right list: a short or wrong one would show. */
  lemma {:induction false} KeySetOnly(vaa: bytes, keys: bytes, stored: bytes, k: nat, m: nat, sigs: bytes, q: nat)
    requires q <= m && SigStart(k + m) <= |vaa| && sigs == vaa[SigStart(k)..SigStart(k + m)]
    requires KeysFor(vaa, keys, k, q, KeySet(sigs, stored, q))
    ensures forall j | k <= j < k + q :: SeesKey(stored, keys, Signer(vaa, j))
  {
    hide KeyIn, KeysFor;
    if q > 0 {
      var g := Signer(vaa, k + q - 1);
      assert sigs[66 * (q - 1)] == g;
      KeySetLength(sigs, stored, q - 1);
      KeyInLength(stored, g);
      LastKey(vaa, keys, k, q - 1, KeySet(sigs, stored, q - 1), KeyIn(stored, g));
      KeySetOnly(vaa, keys, stored, k, m, sigs, q - 1);
    }
  }

  lemma KeyInLength(stored: bytes, g: nat)
    ensures |KeyIn(stored, g)| <= 20
  {
  }

  lemma KeysForUnique(vaa: bytes, keys: bytes, k: nat, m: nat, ks: bytes, ks': bytes)
    requires KeysFor(vaa, keys, k, m, ks) && KeysFor(vaa, keys, k, m, ks')
    ensures ks == ks'
  {
    forall i | 0 <= i < 20 * m ensures ks[i] == ks'[i] {
      var j := i / 20;
      assert KeyFor(vaa, keys, k + j, ks[20 * j..20 * j + 20]) && KeyFor(vaa, keys, k + j, ks'[20 * j..20 * j + 20]);
      assert ks[i] == ks[20 * j..20 * j + 20][i % 20] && ks'[i] == ks'[20 * j..20 * j + 20][i % 20];
    }
  }

  /** The guardians of signatures `k` to `num` are members of the set, distinct, and not hit
      yet. */
  ghost predicate Unhit(vaa: bytes, keys: bytes, hits: bytes, k: nat, num: nat) {
    && SigStart(num) <= |vaa| && |hits| == 4
    && (forall j | k <= j < num :: 20 * Signer(vaa, j) + 20 <= |keys| && GetBitOfBytes(hits, Signer(vaa, j)) == Some(false))
    && (forall i, j | k <= i < j < num :: Signer(vaa, i) != Signer(vaa, j))
  }

  lemma UnhitStep(vaa: bytes, keys: bytes, hits: bytes, k: nat, num: nat)
    requires Unhit(vaa, keys, hits, k, num) && k < num
    ensures Unhit(vaa, keys, SetBitOfBytes(hits, Signer(vaa, k)).value, k + 1, num)
  {
    var g := Signer(vaa, k);
    assert GetBitOfBytes(hits, g).Some?;
    var hits' := SetBitOfBytes(hits, g).value;
    forall j | k + 1 <= j < num ensures GetBitOfBytes(hits', Signer(vaa, j)) == Some(false) {
      assert GetBitOfBytes(hits, Signer(vaa, j)).Some?;
      SetBitOfBytesEffect(hits, g, Signer(vaa, j));
    }
  }

  lemma CollectOne(vaa: bytes, keys: bytes, hits: bytes, k: nat, end: nat, num: nat, acc: bytes)
    requires k < end <= num && Unhit(vaa, keys, hits, k, num)
    ensures
      var g := Signer(vaa, k);
      && g < 8 * |hits| && 20 * g + 20 <= |keys|
      && Collect(vaa, keys, SigStart(k), SigStart(end), hits, acc)
           == Collect(vaa, keys, SigStart(k + 1), SigStart(end), SetBitOfBytes(hits, g).value, acc + keys[20 * g..20 * g + 20])
  {
    assert GetBitOfBytes(hits, Signer(vaa, k)) == Some(false);
  }

  /** The keys of unhit guardians can be collected; `acc` holds those from signature `first`. */
  lemma {:induction false} CollectSucceeds(vaa: bytes, keys: bytes, first: nat, hits: bytes, k: nat, end: nat, num: nat, acc: bytes) returns (c: (nat, bytes, bytes))
    requires first <= k <= end <= num && Unhit(vaa, keys, hits, k, num) && KeysFor(vaa, keys, first, k - first, acc)
    ensures Collect(vaa, keys, SigStart(k), SigStart(end), hits, acc) == Some(c)
    ensures c.0 == SigStart(end) && Unhit(vaa, keys, c.1, end, num) && KeysFor(vaa, keys, first, end - first, c.2)
    decreases end - k
  {
    hide Unhit, KeysFor, Collect, SetBitOfBytes;
    if k == end {
      CollectNone(vaa, keys, hits, k, acc);
      c := (SigStart(k), hits, acc);
    } else {
      KeysRoom(vaa, keys, hits, k, num);
      CollectOne(vaa, keys, hits, k, end, num, acc);
      UnhitStep(vaa, keys, hits, k, num);
      var g := Signer(vaa, k);
      KeysForStep(vaa, keys, first, k - first, acc, keys[20 * g..20 * g + 20]);
      c := CollectSucceeds(vaa, keys, first, SetBitOfBytes(hits, g).value, k + 1, end, num, acc + keys[20 * g..20 * g + 20]);
    }
  }

  lemma CollectNone(vaa: bytes, keys: bytes, hits: bytes, k: nat, acc: bytes)
    ensures Collect(vaa, keys, SigStart(k), SigStart(k), hits, acc) == Some((SigStart(k), hits, acc))
  {
  }

  lemma KeysRoom(vaa: bytes, keys: bytes, hits: bytes, k: nat, num: nat)
    requires k < num && Unhit(vaa, keys, hits, k, num)
    ensures SigStart(k + 1) <= |vaa| && KeyFor(vaa, keys, k, keys[20 * Signer(vaa, k)..20 * Signer(vaa, k) + 20])
  {
  }

  lemma SignatureMatches(crypto: Crypto, vaa: bytes, keys: bytes, digest: bytes, k: nat, m: nat, ks: bytes, i: nat)
    requires KeysFor(vaa, keys, k, m, ks) && i < m && SignedBy(crypto, keys, vaa, digest, k + i)
    ensures SigMatches(crypto, vaa[SigStart(k)..SigStart(k + m)], digest, ks, i)
  {
    var s := vaa[SigStart(k)..SigStart(k + m)];
    assert KeyFor(vaa, keys, k + i, ks[20 * i..20 * i + 20]);
    SliceOfSlice(vaa, SigStart(k), SigStart(k + m), 66 * i, 66 * i + 66);
    assert s[66 * i..66 * i + 66] == SigAt(vaa, k + i);
  }

  /** The stateless program approves a batch of valid signatures beside the right keys. */
  lemma BatchMatches(crypto: Crypto, vaa: bytes, keys: bytes, digest: bytes, k: nat, m: nat, ks: bytes)
    requires KeysFor(vaa, keys, k, m, ks)
    requires forall j | k <= j < k + m :: SignedBy(crypto, keys, vaa, digest, j)
    ensures SigsMatch(crypto, vaa[SigStart(k)..SigStart(k + m)], digest, ks)
  {
    var s := vaa[SigStart(k)..SigStart(k + m)];
    assert |s| == 66 * m;
    forall i | 0 <= i < m ensures SigMatches(crypto, s, digest, ks, i) {
      SignatureMatches(crypto, vaa, keys, digest, k, m, ks, i);
    }
  }

  /** What makes a submission succeed. */
  ghost predicate Ready(env: Env, set_: StoredSet, vaa: bytes, stored: bytes, accts: seq<bytes>) {
    && |vaa| > 5 && |accts| >= 2
    && WellSigned(env.crypto, set_, vaa)
    && SeesSigners(vaa, stored, set_.keys)
  }

  function VerifyCall(env: Env, vaa: bytes, accts: seq<bytes>, sender: bytes, fee: uint64): Txn {
    CoreCall(env.app, sender, fee, accts, [VERIFY_VAA, vaa])
  }

  lemma ReadyDigest(env: Env, set_: StoredSet, vaa: bytes, stored: bytes, accts: seq<bytes>)
    requires Ready(env, set_, vaa, stored, accts)
    ensures |vaa| > 5 && |accts| >= 2 && SigStart(vaa[5]) <= |vaa|
    ensures Digest(env.crypto, vaa) == Some(ClientDigest(env.crypto, vaa))
    ensures forall j | 0 <= j < vaa[5] :: 20 * Signer(vaa, j) + 20 <= |set_.keys| && SignedBy(env.crypto, set_.keys, vaa, ClientDigest(env.crypto, vaa), j)
    ensures Unhit(vaa, set_.keys, NO_HITS, 0, vaa[5])
    ensures 0 < vaa[5] && Quorate(set_.n, vaa[5])
  {
    hide KeyIn, SeesKey, SigAt, Digest, ClientDigest, GetBitOfBytes;
    WholeSignatures(env.crypto, set_.keys, vaa);
    DigestIs(env.crypto, vaa);
    forall j | 0 <= j < vaa[5]
      ensures SignedBy(env.crypto, set_.keys, vaa, ClientDigest(env.crypto, vaa), j) && GetBitOfBytes(NO_HITS, Signer(vaa, j)) == Some(false)
    {
      NothingHit(Signer(vaa, j));
    }
  }

  lemma NothingHit(g: nat)
    requires g < 32
    ensures GetBitOfBytes(NO_HITS, g) == Some(false)
  {
    ZeroHasNoBits(7 - g % 8);
  }

  /** The client's keys for a batch are the guardians' keys, so the stateless program approves
      the call. */
  lemma BatchApproved(env: Env, set_: StoredSet, vaa: bytes, stored: bytes, accts: seq<bytes>, i: nat)
    requires Ready(env, set_, vaa, stored, accts) && i < Batches(vaa)
    ensures
      var t := BatchTxn(env, vaa, stored, ClientDigest(env.crypto, vaa), accts, i);
      && Approves(env.crypto, t)
      && KeysFor(vaa, set_.keys, UpToBatch(vaa, i), UpToBatch(vaa, i + 1) - UpToBatch(vaa, i), t.args[2])
  {
    hide Ready, SigsMatch, KeysFor, Batches, UpToBatch, KeySet, Batch, SignedBy, Unhit, SeesKey;
    ReadyDigest(env, set_, vaa, stored, accts);
    BatchIs(vaa, i);
    var k, k' := UpToBatch(vaa, i), UpToBatch(vaa, i + 1);
    var sigs := Batch(vaa, i);
    ReadySees(env, set_, vaa, stored, accts);
    KeySetIs(vaa, set_.keys, stored, k, k' - k, sigs, k' - k);
    BatchMatches(env.crypto, vaa, set_.keys, ClientDigest(env.crypto, vaa), k, k' - k, KeySet(sigs, stored, k' - k));
  }

  lemma ReadySees(env: Env, set_: StoredSet, vaa: bytes, stored: bytes, accts: seq<bytes>)
    requires Ready(env, set_, vaa, stored, accts)
    ensures |vaa| > 5 && SigStart(vaa[5]) <= |vaa| && forall j | 0 <= j < vaa[5] :: SeesKey(stored, set_.keys, Signer(vaa, j))
  {
  }

  lemma BatchCollected(env: Env, set_: StoredSet, vaa: bytes, stored: bytes, accts: seq<bytes>, i: nat, hits: bytes) returns (c: (nat, bytes, bytes))
    requires Ready(env, set_, vaa, stored, accts) && i < Batches(vaa)
    requires Unhit(vaa, set_.keys, hits, UpToBatch(vaa, i), vaa[5])
    ensures
      var t := BatchTxn(env, vaa, stored, ClientDigest(env.crypto, vaa), accts, i);
      var k, k' := UpToBatch(vaa, i), UpToBatch(vaa, i + 1);
      && k <= k'
      && Collect(vaa, set_.keys, SigStart(k), SigStart(k'), hits, []) == Some(c)
      && c.0 == SigStart(k') && c.2 == t.args[2]
      && Unhit(vaa, set_.keys, c.1, k', vaa[5])
  {
    hide Ready, KeysFor, Batches, UpToBatch, KeySet, Batch, Unhit, Collect, Approves;
    ReadyDigest(env, set_, vaa, stored, accts);
    BatchIs(vaa, i);
    var k, k' := UpToBatch(vaa, i), UpToBatch(vaa, i + 1);
    NoKeys(vaa, set_.keys, k);
    c := CollectSucceeds(vaa, set_.keys, k, hits, k, k', vaa[5], []);
    BatchApproved(env, set_, vaa, stored, accts, i);
    KeysForUnique(vaa, set_.keys, k, k' - k, c.2, BatchTxn(env, vaa, stored, ClientDigest(env.crypto, vaa), accts, i).args[2]);
  }

  lemma BatchInspected(env: Env, set_: StoredSet, vaa: bytes, stored: bytes, accts: seq<bytes>, tx: Txn, i: nat, hits: bytes) returns (hits': bytes)
    requires Ready(env, set_, vaa, stored, accts) && i < Batches(vaa)
    requires Unhit(vaa, set_.keys, hits, UpToBatch(vaa, i), vaa[5])
    requires tx.appId == env.app.id && tx.accounts == accts
    ensures
      var t := BatchTxn(env, vaa, stored, ClientDigest(env.crypto, vaa), accts, i);
      var k, k' := UpToBatch(vaa, i), UpToBatch(vaa, i + 1);
      && Inspect(t, tx, env.verifier, vaa, set_.keys, ClientDigest(env.crypto, vaa), SigStart(k), hits) == Some((SigStart(k'), hits'))
      && Unhit(vaa, set_.keys, hits', k', vaa[5])
  {
    hide Batches, UpToBatch, KeySet, Batch, Unhit, Collect, WellSigned, SeesSigners, ClientDigest;
    ReadyDigest(env, set_, vaa, stored, accts);
    var c := BatchCollected(env, set_, vaa, stored, accts, i, hits);
    hits' := c.1;
    BatchIs(vaa, i);
  }

  lemma {:induction false} ScanSucceeds(env: Env, set_: StoredSet, vaa: bytes, stored: bytes, accts: seq<bytes>, group: Group, i: nat, hits: bytes)
    requires Ready(env, set_, vaa, stored, accts) && i <= Batches(vaa) < |group|
    requires forall j | 0 <= j < Batches(vaa) :: group[j] == BatchTxn(env, vaa, stored, ClientDigest(env.crypto, vaa), accts, j)
    requires
      var tx := group[Batches(vaa)];
      tx.kind == ApplicationCall && tx.rekeyTo == ZERO_ADDRESS && tx.appId == env.app.id && tx.accounts == accts && tx.Arg(0) == Some(VERIFY_VAA)
    requires Unhit(vaa, set_.keys, hits, UpToBatch(vaa, i), vaa[5])
    ensures
      Scan(group, i, Batches(vaa), env.verifier, vaa, set_.keys, ClientDigest(env.crypto, vaa), SigStart(UpToBatch(vaa, i)), hits)
        == Some(SigStart(vaa[5]))
    decreases Batches(vaa) - i
  {
    hide Batches, UpToBatch, Unhit, Ready, ClientDigest, BatchTxn;
    ReadyDigest(env, set_, vaa, stored, accts);
    var n, tx := Batches(vaa), group[Batches(vaa)];
    var digest, off := ClientDigest(env.crypto, vaa), SigStart(UpToBatch(vaa, i));
    if i == n {
      AllBatches(vaa);
      PassedOver(tx, env.verifier, vaa, set_.keys, digest, off, hits);
    } else {
      hide Inspect;
      var hits' := BatchInspected(env, set_, vaa, stored, accts, tx, i, hits);
      ScanSucceeds(env, set_, vaa, stored, accts, group, i + 1, hits');
    }
  }

  lemma PassedOver(tx: Txn, verifier: bytes, vaa: bytes, keys: bytes, digest: bytes, off: nat, hits: bytes)
    requires tx.kind == ApplicationCall && tx.rekeyTo == ZERO_ADDRESS && |tx.accounts| >= 2 && tx.Arg(0) == Some(VERIFY_VAA)
    ensures Inspect(tx, tx, verifier, vaa, keys, digest, off, hits) == Some((off, hits))
  {
    assert VERIFY_VAA[6] != VERIFY_SIGS[6];
  }

  // ---------- the whole group ----------

  /** `group` starts with the calls the client built. */
  ghost predicate Submitted(env: Env, vaa: bytes, stored: bytes, accts: seq<bytes>, sender: bytes, fee: uint64, group: Group) {
    && |vaa| > 5
    && VerifyGroup(env, vaa, stored, accts, sender, fee) <= group
  }

  lemma SubmittedAt(env: Env, vaa: bytes, stored: bytes, accts: seq<bytes>, sender: bytes, fee: uint64, group: Group)
    requires Submitted(env, vaa, stored, accts, sender, fee, group)
    ensures |vaa| > 5 && |group| > Batches(vaa)
    ensures forall j | 0 <= j < Batches(vaa) :: group[j] == BatchTxn(env, vaa, stored, ClientDigest(env.crypto, vaa), accts, j)
    ensures group[Batches(vaa)] == VerifyCall(env, vaa, accts, sender, fee)
  {
    hide BatchTxn, CoreCall;
    BatchTxnAt(env, vaa, stored, ClientDigest(env.crypto, vaa), accts, Batches(vaa));
    var g := VerifyGroup(env, vaa, stored, accts, sender, fee);
    assert forall j | 0 <= j < |g| :: group[j] == g[j];
  }

  /** Where the guardian set is, and that it may be used. */
  ghost predicate Usable(env: Env, st: CoreState, vaa: bytes, accts: seq<bytes>, set_: StoredSet, now: uint64) {
    && |vaa| > 5 && |accts| >= 2
    && accts[1] == env.at(FromBE(vaa[1..5]), GUARDIAN)
    && accts[1] in st.cells && st.cells[accts[1]].tag == Some(GUARDIAN)
    && LoadSet(st.cells[accts[1]]) == Some(set_)
    && Unexpired(set_, now)
    && st.vphash == env.verifier
  }

  lemma HelpersFirst(env: Env, vaa: bytes, stored: bytes, accts: seq<bytes>, sender: bytes, fee: uint64, group: Group)
    requires Submitted(env, vaa, stored, accts, sender, fee, group) && Batches(vaa) > 0
    ensures |group| > Batches(vaa) && RunStart(group, Batches(vaa) - 1) == 0
  {
    hide Batches, Submitted;
    SubmittedAt(env, vaa, stored, accts, sender, fee, group);
    RunStartUnique(group, Batches(vaa) - 1, 0);
  }

  lemma VerifySucceeds(env: Env, st: CoreState, set_: StoredSet, vaa: bytes, stored: bytes, accts: seq<bytes>, sender: bytes, fee: uint64, group: Group, now: uint64)
    requires Submitted(env, vaa, stored, accts, sender, fee, group)
    requires Usable(env, st, vaa, accts, set_, now) && Ready(env, set_, vaa, stored, accts)
    ensures Batches(vaa) < |group|
    ensures VerifyVAA(env.crypto, env.at, st.cells, st.vphash, group, Batches(vaa), now) == Some(set_)
  {
    hide Batches, Submitted, Ready, Unhit, Scan, RunStart, LoadSet, BatchTxn, ClientDigest, SignedBy;
    ReadyDigest(env, set_, vaa, stored, accts);
    AllBatches(vaa);
    SubmittedAt(env, vaa, stored, accts, sender, fee, group);
    HelpersFirst(env, vaa, stored, accts, sender, fee, group);
    assert UpToBatch(vaa, 0) == 0;
    ScanSucceeds(env, set_, vaa, stored, accts, group, 0, NO_HITS);
    assert group[Batches(vaa) - 1] == BatchTxn(env, vaa, stored, ClientDigest(env.crypto, vaa), accts, Batches(vaa) - 1);
    BatchHasArgs(env, vaa, stored, ClientDigest(env.crypto, vaa), accts, Batches(vaa) - 1);
    ReadBE(vaa);
  }

  lemma BatchHasArgs(env: Env, vaa: bytes, stored: bytes, digest: bytes, accts: seq<bytes>, i: nat)
    requires |vaa| > 5
    ensures |BatchTxn(env, vaa, stored, digest, accts, i).args| > 0
  {
  }

  lemma ReadBE(vaa: bytes)
    requires |vaa| > 5
    ensures ReadInt(vaa, 1, 4) == Some(FromBE(vaa[1..5]))
  {
  }

  /** The batches leave the contract's state alone. */
  lemma {:induction false} BatchesPass(env: Env, st: CoreState, vaa: bytes, stored: bytes, accts: seq<bytes>, sender: bytes, fee: uint64, group: Group, now: uint64, k: nat)
    requires Submitted(env, vaa, stored, accts, sender, fee, group) && k <= Batches(vaa) <= |group|
    requires st.vphash == env.verifier
    ensures After(env, st, group, now, k) == Some((st, []))
  {
    hide Submitted, Batches, ClientDigest, Batch, KeySet, Call;
    if k > 0 {
      BatchesPass(env, st, vaa, stored, accts, sender, fee, group, now, k - 1);
      SubmittedAt(env, vaa, stored, accts, sender, fee, group);
      assert group[k - 1] == BatchTxn(env, vaa, stored, ClientDigest(env.crypto, vaa), accts, k - 1);
      BatchCall(env, st, vaa, stored, accts, group, now, k - 1);
      AfterNext(env, st, group, now, k - 1, st, [], st, []);
      var none: seq<Event> := [];
      assert none + [] == [];
    }
  }

  lemma AfterNext(env: Env, st: CoreState, group: Group, now: uint64, k: nat, mid: CoreState, s: seq<Event>, end: CoreState, t: seq<Event>)
    requires k < |group| && After(env, st, group, now, k) == Some((mid, s))
    requires Call(env, mid, group, k, now) == Some((end, t))
    ensures After(env, st, group, now, k + 1) == Some((end, s + t))
  {
    hide Call;
  }

  lemma BatchCall(env: Env, st: CoreState, vaa: bytes, stored: bytes, accts: seq<bytes>, group: Group, now: uint64, i: nat)
    requires |vaa| > 5 && i < |group| && st.vphash == env.verifier
    requires group[i] == BatchTxn(env, vaa, stored, ClientDigest(env.crypto, vaa), accts, i)
    ensures Call(env, st, group, i, now) == Some((st, []))
  {
    hide ClientDigest, Batch, KeySet, PublishMessage, Init, Governance, VerifyVAA, JoinStorage;
  }

  lemma VerifyCalled(env: Env, st: CoreState, set_: StoredSet, vaa: bytes, accts: seq<bytes>, sender: bytes, fee: uint64, group: Group, t: nat, now: uint64)
    requires |vaa| > 5 && t < |group| && group[t] == VerifyCall(env, vaa, accts, sender, fee)
    requires VerifyVAA(env.crypto, env.at, st.cells, st.vphash, group, t, now) == Some(set_)
    ensures Call(env, st, group, t, now) == Some((st, [Verified(vaa, FromBE(vaa[1..5]), now)]))
  {
    hide PublishMessage, Init, Governance, VerifyVAA, JoinStorage;
    ReadBE(vaa);
  }

  lemma AllApproved(env: Env, set_: StoredSet, vaa: bytes, stored: bytes, accts: seq<bytes>, sender: bytes, fee: uint64, group: Group)
    requires Submitted(env, vaa, stored, accts, sender, fee, group) && Ready(env, set_, vaa, stored, accts)
    requires forall i | Batches(vaa) <= i < |group| :: group[i].sender != env.verifier
    ensures Authorised(env.crypto, env.verifier, group)
  {
    hide Submitted, Ready, Approves, Batches, BatchTxn;
    SubmittedAt(env, vaa, stored, accts, sender, fee, group);
    forall i | 0 <= i < |group| && group[i].sender == env.verifier ensures Approves(env.crypto, group[i]) {
      assert i < Batches(vaa);
      BatchApproved(env, set_, vaa, stored, accts, i);
    }
  }

  // ---------- what reaches the contract, exactly ----------

  /** A batch the contract passed lists the stored keys. */
  lemma BatchListed(env: Env, set_: StoredSet, vaa: bytes, stored: bytes, accts: seq<bytes>, tx: Txn, i: nat, hits: bytes, r: (nat, bytes))
    requires |vaa| > 5 && SigStart(vaa[5]) <= |vaa| && i < Batches(vaa)
    requires Distinct(vaa, set_.keys, hits, UpToBatch(vaa, i))
    requires Inspect(BatchTxn(env, vaa, stored, ClientDigest(env.crypto, vaa), accts, i), tx, env.verifier, vaa, set_.keys,
      ClientDigest(env.crypto, vaa), SigStart(UpToBatch(vaa, i)), hits) == Some(r)
    ensures r.0 == SigStart(UpToBatch(vaa, i + 1)) && Distinct(vaa, set_.keys, r.1, UpToBatch(vaa, i + 1))
    ensures forall j | UpToBatch(vaa, i) <= j < UpToBatch(vaa, i + 1) :: j < vaa[5] && SeesKey(stored, set_.keys, Signer(vaa, j))
  {
    hide Batches, UpToBatch, KeySet, Batch, Collect, Distinct, KeysFor, SeesKey, ClientDigest;
    BatchIs(vaa, i);
    var k, k' := UpToBatch(vaa, i), UpToBatch(vaa, i + 1);
    var sigs := Batch(vaa, i);
    assert SigStart(k) + |sigs| == SigStart(k');
    var c := Collect(vaa, set_.keys, SigStart(k), SigStart(k'), hits, []).value;
    var ks := KeySet(sigs, stored, |sigs| / 66);
    assert c.2 == ks;
    NoKeys(vaa, set_.keys, k);
    CollectSound(vaa, set_.keys, k, k, k', hits, [], c);
    KeySetOnly(vaa, set_.keys, stored, k, k' - k, sigs, k' - k);
  }

  lemma {:induction false} ScanListed(env: Env, set_: StoredSet, vaa: bytes, stored: bytes, accts: seq<bytes>, group: Group, i: nat, hits: bytes)
    requires |vaa| > 5 && SigStart(vaa[5]) <= |vaa| && i <= Batches(vaa) < |group|
    requires forall j | 0 <= j < Batches(vaa) :: group[j] == BatchTxn(env, vaa, stored, ClientDigest(env.crypto, vaa), accts, j)
    requires Distinct(vaa, set_.keys, hits, UpToBatch(vaa, i))
    requires forall j | 0 <= j < UpToBatch(vaa, i) :: SeesKey(stored, set_.keys, Signer(vaa, j))
    requires Scan(group, i, Batches(vaa), env.verifier, vaa, set_.keys, ClientDigest(env.crypto, vaa), SigStart(UpToBatch(vaa, i)), hits).Some?
    ensures SeesSigners(vaa, stored, set_.keys)
    decreases Batches(vaa) - i
  {
    hide Batches, UpToBatch, Distinct, Inspect, BatchTxn, ClientDigest, SeesKey;
    if i == Batches(vaa) {
      AllBatches(vaa);
    } else {
      BatchIs(vaa, i);
      var r := Inspect(group[i], group[Batches(vaa)], env.verifier, vaa, set_.keys, ClientDigest(env.crypto, vaa), SigStart(UpToBatch(vaa, i)), hits).value;
      BatchListed(env, set_, vaa, stored, accts, group[Batches(vaa)], i, hits, r);
      ScanListed(env, set_, vaa, stored, accts, group, i + 1, r.1);
    }
  }

  lemma VerifyScans(crypto: Crypto, at: Locator, cells: map<bytes, Cell>, vphash: bytes, group: Group, t: nat, now: uint64, set_: StoredSet)
    requires t < |group| && VerifyVAA(crypto, at, cells, vphash, group, t, now) == Some(set_)
    ensures t > 0 && |group[t].args| > 1 && Digest(crypto, group[t].args[1]).Some?
    ensures Scan(group, RunStart(group, t - 1), t, vphash, group[t].args[1], set_.keys, Digest(crypto, group[t].args[1]).value, 6, NO_HITS).Some?
  {
    hide LoadSet, Digest, Scan;
  }

  /** If `verifyVAA` passed the client's group, the client had read the signers' keys. */
  lemma ListedWhenVerified(env: Env, st: CoreState, set_: StoredSet, vaa: bytes, stored: bytes, accts: seq<bytes>, sender: bytes, fee: uint64, group: Group, now: uint64)
    requires Submitted(env, vaa, stored, accts, sender, fee, group) && |vaa| > 5 && SigStart(vaa[5]) <= |vaa|
    requires Batches(vaa) < |group| && st.vphash == env.verifier
    requires VerifyVAA(env.crypto, env.at, st.cells, st.vphash, group, Batches(vaa), now) == Some(set_)
    ensures SeesSigners(vaa, stored, set_.keys)
  {
    hide Batches, Submitted, LoadSet, BatchTxn, VerifyVAA, RunStart, SeesSigners, ClientDigest, Scan;
    var t := Batches(vaa);
    SubmittedAt(env, vaa, stored, accts, sender, fee, group);
    VerifyScans(env.crypto, env.at, st.cells, st.vphash, group, t, now, set_);
    HelpersFirst(env, vaa, stored, accts, sender, fee, group);
    DigestIs(env.crypto, vaa);
    assert UpToBatch(vaa, 0) == 0;
    ScanListed(env, set_, vaa, stored, accts, group, 0, NO_HITS);
  }

  lemma DigestIs(crypto: Crypto, vaa: bytes)
    requires |vaa| > 5 && SigStart(vaa[5]) <= |vaa|
    ensures Digest(crypto, vaa) == Some(ClientDigest(crypto, vaa))
  {
    assert vaa[SigStart(vaa[5])..] == Slice(vaa, SigStart(vaa[5]), |vaa|);
  }

  lemma Completed(env: Env, st: CoreState, stored: bytes, set_: StoredSet, vaa: bytes, accts: seq<bytes>, sender: bytes, fee: uint64, group: Group, now: uint64)
    requires Usable(env, st, vaa, accts, set_, now) && WellSigned(env.crypto, set_, vaa) && SeesSigners(vaa, stored, set_.keys)
    requires Submitted(env, vaa, stored, accts, sender, fee, group)
    requires forall i | Batches(vaa) <= i < |group| :: group[i].sender != env.verifier
    ensures Authorised(env.crypto, env.verifier, group) && Batches(vaa) < |group|
    ensures After(env, st, group, now, Batches(vaa) + 1) == Some((st, [Verified(vaa, FromBE(vaa[1..5]), now)]))
  {
    hide WellSigned, Submitted, Batches, Authorised, LoadSet, Call, VerifyVAA, SeesSigners, After;
    AllApproved(env, set_, vaa, stored, accts, sender, fee, group);
    VerifySucceeds(env, st, set_, vaa, stored, accts, sender, fee, group, now);
    SubmittedAt(env, vaa, stored, accts, sender, fee, group);
    BatchesPass(env, st, vaa, stored, accts, sender, fee, group, now, Batches(vaa));
    VerifyCalled(env, st, set_, vaa, accts, sender, fee, group, Batches(vaa), now);
    var ev := Verified(vaa, FromBE(vaa[1..5]), now);
    AfterNext(env, st, group, now, Batches(vaa), st, [], st, [ev]);
    assert [] + [ev] == [ev];
  }

  lemma CompletedCall(env: Env, st: CoreState, vaa: bytes, accts: seq<bytes>, sender: bytes, fee: uint64, group: Group, t: nat, now: uint64)
    requires |vaa| > 5 && t < |group| && group[t] == VerifyCall(env, vaa, accts, sender, fee)
    requires After(env, st, group, now, t) == Some((st, [])) && After(env, st, group, now, t + 1).Some?
    ensures VerifyVAA(env.crypto, env.at, st.cells, st.vphash, group, t, now).Some?
  {
    hide PublishMessage, Init, Governance, VerifyVAA, JoinStorage;
  }

  /** Whatever the client decoded from the guardian account: with a usable set, its group goes
      through exactly when the signatures are a countable quorum and the client decoded the
      keys of those who signed. */
  lemma AcceptedExactly(env: Env, st: CoreState, stored: bytes, set_: StoredSet, vaa: bytes, accts: seq<bytes>, sender: bytes, fee: uint64, group: Group, now: uint64)
    requires Usable(env, st, vaa, accts, set_, now)
    requires Submitted(env, vaa, stored, accts, sender, fee, group)
    requires forall i | Batches(vaa) <= i < |group| :: group[i].sender != env.verifier
    ensures Batches(vaa) < |group|
    ensures
      Authorised(env.crypto, env.verifier, group) && After(env, st, group, now, Batches(vaa) + 1).Some?
      <==> WellSigned(env.crypto, set_, vaa) && SeesSigners(vaa, stored, set_.keys)
  {
    hide Submitted, Batches, Authorised, LoadSet, Call, VerifyVAA, QuorumSigned, After, SeesSigners;
    var t := Batches(vaa);
    SubmittedAt(env, vaa, stored, accts, sender, fee, group);
    if WellSigned(env.crypto, set_, vaa) && SeesSigners(vaa, stored, set_.keys) {
      Completed(env, st, stored, set_, vaa, accts, sender, fee, group, now);
    }
    if Authorised(env.crypto, env.verifier, group) && After(env, st, group, now, t + 1).Some? {
      BatchesPass(env, st, vaa, stored, accts, sender, fee, group, now, t);
      CompletedCall(env, st, vaa, accts, sender, fee, group, t, now);
      QuorumSoundness(env.crypto, env.at, st.cells, env.verifier, group, t, now);
      WholeSignatures(env.crypto, set_.keys, vaa);
      ListedWhenVerified(env, st, set_, vaa, stored, accts, sender, fee, group, now);
    }
  }

  lemma WholeSignatures(crypto: Crypto, keys: bytes, vaa: bytes)
    requires QuorumSigned(crypto, keys, vaa)
    ensures |vaa| > 5 && SigStart(vaa[5]) <= |vaa|
  {
  }

  // ---------- what the client decodes ----------

  /** The client reads every key, when no page up to the last key is all zero. */
  lemma KeysSeen(m: Pages, set_: StoredSet)
    requires Paged(m) && LoadSet(CellOf(m)) == Some(set_)
    requires NonzeroBefore(CellOf(m), KeyPages(set_.n))
    ensures SeesKeys(NonzeroFrom(m, 0), set_.keys) && |set_.keys| == 20 * set_.n
  {
    hide NonzeroFrom, NonzeroBefore, Paged, FromBE;
    var f := CellOf(m).flat;
    hide CellOf;
    forall g: nat | 20 * g + 20 <= |set_.keys| ensures KeyIn(NonzeroFrom(m, 0), g) == set_.keys[20 * g..20 * g + 20] {
      FewerPages(CellOf(m), 20 * g + 21, set_.n);
      ClientReads(m, g * 20 + 1, (g + 1) * 20 + 1);
      SliceOfSlice(f, 1, 1 + 20 * set_.n, 20 * g, 20 * g + 20);
    }
  }

  /** How many pages a set of `n` keys reaches into. */
  function KeyPages(n: nat): nat {
    if 1 + 20 * n <= MAX_BYTES then (1 + 20 * n + 126) / 127 else MAX_KEYS
  }

  lemma FewerPages(c: Cell, b: nat, n: nat)
    requires NonzeroBefore(c, KeyPages(n)) && b <= 1 + 20 * n <= MAX_BYTES
    ensures NonzeroBefore(c, (b + 126) / 127)
  {
  }

  /** All bytes of the key are those of the pages kept in their places. */
  ghost predicate KeyKept(c: Cell, g: nat) {
    20 * g + 21 <= MAX_BYTES && forall i | 20 * g + 1 <= i < 20 * g + 21 :: ByteRead(c, 0, i) == Some(c.flat[i])
  }

  /** For any stored set, exactly which keys the client reads right. */
  lemma KeyReadExactly(m: Pages, set_: StoredSet, g: nat)
    requires Paged(m) && ShortTag(m) && LoadSet(CellOf(m)) == Some(set_) && g < set_.n
    ensures SeesKey(NonzeroFrom(m, 0), set_.keys, g) <==> KeyKept(CellOf(m), g)
  {
    hide NonzeroFrom, Paged, FromBE, ByteRead, CellOf, ShortTag, LoadSet;
    var c, f, stored := CellOf(m), CellOf(m).flat, NonzeroFrom(m, 0);
    LoadedRange(c, set_);
    var key := set_.keys[20 * g..20 * g + 20];
    forall k | 0 <= k < 20 ensures key[k] == f[20 * g + 1 + k] {
      assert key[k] == set_.keys[20 * g + k] == f[1..1 + 20 * set_.n][20 * g + k];
    }
    ByteWise(stored, f, key, g);
    if KeyKept(c, g) {
      var last := 20 * g + 20;
      DecodedByte(m, 0, last);
      assert ByteRead(c, 0, last) == Some(f[last]);
      forall i | 20 * g + 1 <= i < 20 * g + 21 ensures stored[i] == f[i] {
        DecodedByte(m, 0, i);
        assert ByteRead(c, 0, i) == Some(f[i]);
      }
      assert SameAt(stored, f, g);
    }
    if SameAt(stored, f, g) {
      forall i | 20 * g + 1 <= i < 20 * g + 21 ensures ByteRead(c, 0, i) == Some(f[i]) {
        DecodedByte(m, 0, i);
        assert stored[i] == f[i];
      }
    }
  }

  lemma LoadedRange(c: Cell, set_: StoredSet)
    requires LoadSet(c) == Some(set_)
    ensures 1 + 20 * set_.n <= MAX_BYTES && set_.keys == c.flat[1..1 + 20 * set_.n] && |set_.keys| == 20 * set_.n
  {
    hide FromBE;
  }

  predicate SameAt(s: bytes, f: bytes, g: nat)
    requires 20 * g + 21 <= |f|
  {
    20 * g + 21 <= |s| && forall i | 20 * g + 1 <= i < 20 * g + 21 :: s[i] == f[i]
  }

  lemma ByteWise(stored: bytes, f: bytes, key: bytes, g: nat)
    requires |key| == 20 && 20 * g + 21 <= |f| && forall k | 0 <= k < 20 :: key[k] == f[20 * g + 1 + k]
    ensures KeyIn(stored, g) == key <==> SameAt(stored, f, g)
  {
    var read := KeyIn(stored, g);
    if SameAt(stored, f, g) {
      assert read == key;
    }
    if read == key {
      assert |stored| >= 20 * g + 21;
      forall i | 20 * g + 1 <= i < 20 * g + 21 ensures stored[i] == f[i] {
        assert read[i - 20 * g - 1] == key[i - 20 * g - 1];
      }
    }
  }

  lemma SeesAll(crypto: Crypto, set_: StoredSet, vaa: bytes, stored: bytes)
    requires WellSigned(crypto, set_, vaa) && SeesKeys(stored, set_.keys)
    ensures SeesSigners(vaa, stored, set_.keys)
  {
    hide KeyIn;
    forall j | 0 <= j < vaa[5] ensures SeesKey(stored, set_.keys, Signer(vaa, j)) {
      assert SignedBy(crypto, set_.keys, vaa, Digest(crypto, vaa).value, j);
    }
  }

  /** Client completeness: if the signatures are valid, by distinct guardians within the hit
      mask and more than two thirds of a set that is stored and not expired, and no page
      holding its keys is all zero, the client's group is approved by the stateless program
      and `verifyVAA` passes, leaving the state as it was. */
  lemma ClientCompleteness(env: Env, st: CoreState, pages: Pages, set_: StoredSet, vaa: bytes, accts: seq<bytes>, sender: bytes, fee: uint64, group: Group, now: uint64)
    requires Usable(env, st, vaa, accts, set_, now) && WellSigned(env.crypto, set_, vaa)
    requires Paged(pages) && st.cells[accts[1]] == CellOf(pages) && NonzeroBefore(CellOf(pages), KeyPages(set_.n))
    requires Submitted(env, vaa, NonzeroFrom(pages, 0), accts, sender, fee, group)
    requires forall i | Batches(vaa) <= i < |group| :: group[i].sender != env.verifier
    ensures Authorised(env.crypto, env.verifier, group) && Batches(vaa) < |group|
    ensures After(env, st, group, now, Batches(vaa) + 1) == Some((st, [Verified(vaa, FromBE(vaa[1..5]), now)]))
  {
    hide WellSigned, NonzeroFrom, CellOf, NonzeroBefore, Submitted, Batches, Authorised, LoadSet, SeesKeys, SeesSigners, After;
    KeysSeen(pages, set_);
    SeesAll(env.crypto, set_, vaa, NonzeroFrom(pages, 0));
    Completed(env, st, NonzeroFrom(pages, 0), set_, vaa, accts, sender, fee, group, now);
  }

  // ---------- a set the client misreads ----------

  /** Thirteen keys of which the second page of the record holds nothing: the end of key 6,
      keys 7 to 11 and the start of key 12 are zero. */
  predicate HasZeroPage(record: bytes) {
    && |record| == 1 + 20 * 13 && record[0] == 13
    && record[127..254] == Zeros(127)
    && record[254..] != Zeros(7)
  }

  lemma ZeroPagePages(m: Pages, record: bytes)
    requires HasZeroPage(record)
    requires Paged(m) && CellOf(m) == Cell(Splice(EMPTY_CELL.flat, 0, record), Some(GUARDIAN))
    ensures m[[0]] == record[..127] != ZERO_PAGE && m[[1]] == ZERO_PAGE
    ensures m[[2]] == record[254..] + Zeros(120) != ZERO_PAGE
    ensures forall j | 3 <= j < MAX_KEYS :: m[[j]] == ZERO_PAGE
    ensures META in m && m[META] == GUARDIAN
  {
    hide CellOf, Splice;
    var f := Splice(EMPTY_CELL.flat, 0, record);
    TagPage(m, GUARDIAN);
    RecordPages(record);
    forall j | 0 <= j < MAX_KEYS ensures m[[j]] == f[127 * j..127 * j + 127] {
      WholePage(m, j);
    }
    assert f[0..127] == m[[0]] && f[127..254] == m[[1]] && f[254..381] == m[[2]];
  }

  lemma TagPage(m: Pages, tag: bytes)
    requires Paged(m) && CellOf(m).tag == Some(tag)
    ensures META in m && m[META] == tag
  {
  }

  lemma RecordPages(record: bytes)
    requires HasZeroPage(record)
    ensures
      var f := Splice(EMPTY_CELL.flat, 0, record);
      && f[0..127] == record[..127] != ZERO_PAGE && f[127..254] == ZERO_PAGE
      && f[254..381] == record[254..] + Zeros(120) != ZERO_PAGE
      && forall j | 3 <= j < MAX_KEYS :: f[127 * j..127 * j + 127] == ZERO_PAGE
  {
    var f := Splice(EMPTY_CELL.flat, 0, record);
    assert f[0..127] == record[..127] && record[..127][0] == 13;
    assert f[127..254] == record[127..254];
    assert f[254..381] == record[254..] + Zeros(120);
    assert (record[254..] + Zeros(120))[..7] == record[254..] && ZERO_PAGE[..7] == Zeros(7);
    assert f[381..] == Zeros(MAX_BYTES - 381);
    forall j | 3 <= j < MAX_KEYS ensures f[127 * j..127 * j + 127] == ZERO_PAGE {
      assert f[127 * j..127 * j + 127] == f[381..][127 * j - 381..127 * j - 254];
    }
  }

  function WithoutZeroPage(record: bytes): bytes
    requires |record| == 261
  {
    record[..127] + ((record[254..] + Zeros(120)) + GUARDIAN)
  }

  lemma RecordBytes(record: bytes)
    requires HasZeroPage(record)
    ensures forall i | 127 <= i < 254 :: record[i] == 0
    ensures
      var stored := WithoutZeroPage(record);
      && |stored| == 262
      && (forall i | 0 <= i < 127 :: stored[i] == record[i])
      && (forall i | 127 <= i < 134 :: stored[i] == record[127 + i])
      && (forall i | 134 <= i < 254 :: stored[i] == 0)
      && (forall i | 254 <= i < 262 :: stored[i] == GUARDIAN[i - 254])
  {
    forall i | 127 <= i < 254 ensures record[i] == 0 {
      assert record[i] == record[127..254][i - 127];
    }
  }

  /** The client drops the zero page: in the place of the end of key 6 it reads the end of
      key 12, and in the place of that the first letters of the tag. */
  lemma ZeroPageKeys(record: bytes, g: nat)
    requires HasZeroPage(record) && g < 13
    ensures SeesKey(WithoutZeroPage(record), record[1..], g) <==> g != 6 && (g == 12 ==> record[254..] == GUARDIAN[..7])
  {
    RecordBytes(record);
    hide WithoutZeroPage;
    var end, stored := record[254..], WithoutZeroPage(record);
    var key, read := record[1..][20 * g..20 * g + 20], KeyIn(stored, g);
    assert |read| == 20 && forall k | 0 <= k < 20 :: read[k] == stored[20 * g + 1 + k] && key[k] == record[20 * g + 1 + k];
    if g == 6 {
      assert read[6..13] == end;
      assert key[6..13] == Zeros(7);
    } else if g == 12 {
      assert read[13..] == GUARDIAN[..7];
      assert key[13..] == end;
      assert read[..13] == key[..13];
      assert read == read[..13] + read[13..] && key == key[..13] + key[13..];
    } else {
      assert read == key;
    }
  }

  lemma ZeroPageDecoded(m: Pages, record: bytes)
    requires HasZeroPage(record)
    requires Paged(m) && CellOf(m) == Cell(Splice(EMPTY_CELL.flat, 0, record), Some(GUARDIAN))
    ensures NonzeroFrom(m, 0) == WithoutZeroPage(record)
  {
    ZeroPagePages(m, record);
    hide CellOf, Paged, HasZeroPage, NonzeroFrom;
    OnlyTag(m, 3);
    NonzeroStep(m, 0);
    NonzeroStep(m, 1);
    NonzeroStep(m, 2);
  }

  lemma ZeroPageLoads(record: bytes)
    requires HasZeroPage(record)
    ensures LoadSet(Cell(Splice(EMPTY_CELL.flat, 0, record), Some(GUARDIAN))) == Some(StoredSet(13, record[1..], 0))
  {
    hide FromBE;
    var f := Splice(EMPTY_CELL.flat, 0, record);
    FromBEZeros(8);
    assert f[1000..1008] == Zeros(8);
    assert f[1..261] == record[1..];
  }

  /** With such a set the client's submissions are refused whenever guardian 6 is among the
      signers, or guardian 12 unless its key ends in "guardia", be the signatures ever so
      good; all others go through. */
  lemma ZeroPageSubmission(env: Env, st: CoreState, m: Pages, record: bytes, vaa: bytes, accts: seq<bytes>, sender: bytes, fee: uint64, group: Group, now: uint64)
    requires HasZeroPage(record)
    requires Paged(m) && CellOf(m) == Cell(Splice(EMPTY_CELL.flat, 0, record), Some(GUARDIAN))
    requires Usable(env, st, vaa, accts, StoredSet(13, record[1..], 0), now) && st.cells[accts[1]] == CellOf(m)
    requires WellSigned(env.crypto, StoredSet(13, record[1..], 0), vaa)
    requires Submitted(env, vaa, NonzeroFrom(m, 0), accts, sender, fee, group)
    requires forall i | Batches(vaa) <= i < |group| :: group[i].sender != env.verifier
    ensures Batches(vaa) < |group|
    ensures
      Authorised(env.crypto, env.verifier, group) && After(env, st, group, now, Batches(vaa) + 1).Some?
      <==> forall j | 0 <= j < vaa[5] :: Signer(vaa, j) != 6 && (Signer(vaa, j) == 12 ==> record[254..] == GUARDIAN[..7])
  {
    hide WithoutZeroPage, NonzeroFrom, CellOf, Usable, Submitted, Batches, Authorised, After, SeesKey, Paged, HasZeroPage, Splice, QuorumSigned;
    RecordSize(record);
    var stored, set_ := NonzeroFrom(m, 0), StoredSet(13, record[1..], 0);
    ZeroPageDecoded(m, record);
    AcceptedExactly(env, st, stored, set_, vaa, accts, sender, fee, group, now);
    WholeSignatures(env.crypto, set_.keys, vaa);
    forall j | 0 <= j < vaa[5]
      ensures SeesKey(stored, record[1..], Signer(vaa, j)) <==> Signer(vaa, j) != 6 && (Signer(vaa, j) == 12 ==> record[254..] == GUARDIAN[..7])
    {
      SignerInside(env.crypto, set_.keys, vaa, j);
      ZeroPageKeys(record, Signer(vaa, j));
    }
  }

  lemma RecordSize(record: bytes)
    requires HasZeroPage(record)
    ensures |record| == 261
  {
  }

  lemma SignerInside(crypto: Crypto, keys: bytes, vaa: bytes, j: nat)
    requires QuorumSigned(crypto, keys, vaa) && j < vaa[5]
    ensures SigStart(j) < |vaa| && 20 * Signer(vaa, j) + 20 <= |keys|
  {
    assert SignedBy(crypto, keys, vaa, Digest(crypto, vaa).value, j);
  }
}
