/** What the signature checks come down to, byte by byte and without the functions they are
    written with: which bytes are recovered from, which key the result is compared with, how
    many signatures are enough, and what the calls in front of `verifyVAA` must be. */
module Signatures {
  import opened Teal
  import opened Transactions
  import opened VaaVerify
  import opened VerifyVaa
  import opened Template
  import opened LocalBlob

  /** Recovery id `v` with `r` and `s` recovers, on the digest, the public key whose address, the
      last 20 of the 32 bytes of its hash, is `key`. */
  predicate RecoversTo(crypto: Crypto, digest: bytes, v: nat, r: bytes, s: bytes, key: bytes) {
    && crypto.recover(digest, v, r, s).Some?
    && var pk := crypto.recover(digest, v, r, s).value;
       |crypto.keccak(pk.0 + pk.1)| >= 32 && crypto.keccak(pk.0 + pk.1)[12..32] == key
  }

  // ---------- the stateless program ----------

  /** Record `k` of a batch. */
  predicate RecordAt(crypto: Crypto, signatures: bytes, digest: bytes, keys: bytes, k: nat)
    requires 66 * k + 66 <= |signatures| && 20 * k + 20 <= |keys|
  {
    RecoversTo(crypto, digest, signatures[66 * k + 65], signatures[66 * k + 1..66 * k + 33], signatures[66 * k + 33..66 * k + 65], keys[20 * k..20 * k + 20])
  }

  /** A batch passes exactly when it is whole records of 66 bytes, there are as many keys, and
      in every record bytes 1 to 33, 33 to 65 and 65 recover to the key in the same place. */
  lemma BatchExactly(crypto: Crypto, signatures: bytes, digest: bytes, keys: bytes)
    ensures SigsMatch(crypto, signatures, digest, keys) <==>
      && |signatures| % 66 == 0 && |signatures| / 66 * 20 <= |keys|
      && forall k: nat | k < |signatures| / 66 :: RecordAt(crypto, signatures, digest, keys, k)
  {
    hide RecoversTo, RecordAt, SigMatches;
    var n := |signatures| / 66;
    if |signatures| % 66 == 0 && n * 20 <= |keys| {
      forall k: nat | k < n ensures SigMatches(crypto, signatures, digest, keys, k) <==> RecordAt(crypto, signatures, digest, keys, k) {
        RecordIs(crypto, signatures, digest, keys, k);
      }
      if SigsMatch(crypto, signatures, digest, keys) {
        forall k: nat | k < n ensures RecordAt(crypto, signatures, digest, keys, k) {
          assert SigMatches(crypto, signatures, digest, keys, k);
        }
      }
    }
  }

  lemma RecordIs(crypto: Crypto, signatures: bytes, digest: bytes, keys: bytes, k: nat)
    requires 66 * k + 66 <= |signatures| && 20 * k + 20 <= |keys|
    ensures SigMatches(crypto, signatures, digest, keys, k) <==> RecordAt(crypto, signatures, digest, keys, k)
  {
    hide RecoversTo, KeyOf;
    RecordExactly(crypto, signatures[66 * k..66 * k + 66], digest, keys[20 * k..20 * k + 20]);
    SliceOfSlice(signatures, 66 * k, 66 * k + 66, 1, 33);
    SliceOfSlice(signatures, 66 * k, 66 * k + 66, 33, 65);
  }

  lemma RecordExactly(crypto: Crypto, sig: bytes, digest: bytes, key: bytes)
    requires |sig| == 66
    ensures KeyOf(crypto, digest, sig) == Some(key) <==> RecoversTo(crypto, digest, sig[65], sig[1..33], sig[33..65], key)
  {
  }

  /** One signature: the guardian's number, then r, s and the recovery id. */
  lemma OneSignature(crypto: Crypto, guardian: byte, r: bytes, s: bytes, v: byte, digest: bytes, key: bytes)
    requires |r| == |s| == 32 && |key| == 20
    ensures SigsMatch(crypto, [guardian] + r + s + [v], digest, key) <==> RecoversTo(crypto, digest, v, r, s, key)
  {
    hide RecoversTo;
    var sig := [guardian] + r + s + [v];
    BatchExactly(crypto, sig, digest, key);
    assert |sig| / 66 == 1;
    assert SigsMatch(crypto, sig, digest, key) <==> RecordAt(crypto, sig, digest, key, 0);
    assert sig[66 * 0 + 1..66 * 0 + 33] == r && sig[66 * 0 + 33..66 * 0 + 65] == s && sig[66 * 0 + 65] == v && key[20 * 0..20 * 0 + 20] == key;
  }

  /** What the stateless program lets its address send: calls that rekey nothing and pay no fee,
      with a batch as just described in arguments 1, 2 and 3. */
  lemma ApprovesExactly(crypto: Crypto, t: Txn)
    ensures Approves(crypto, t) <==>
      && t.kind == ApplicationCall && t.rekeyTo == Zeros(32) && t.fee == 0
      && |t.args| >= 4 && SigsMatch(crypto, t.args[1], t.args[3], t.args[2])
  {
  }

  // ---------- a quorum ----------

  /** The number of signatures. */
  function SigCount(vaa: bytes): nat
    requires |vaa| > 5
  {
    vaa[5]
  }

  /** The guardian signature `k` names. */
  function GuardianAt(vaa: bytes, k: nat): nat
    requires 6 + 66 * k < |vaa|
  {
    vaa[6 + 66 * k]
  }

  /** Signature `k` of a VAA was made by the guardian whose number it starts with. */
  predicate SignedAt(crypto: Crypto, keys: bytes, vaa: bytes, digest: bytes, k: nat)
    requires 6 + 66 * k + 66 <= |vaa|
  {
    var g: nat := vaa[6 + 66 * k];
    && 20 * g + 20 <= |keys|
    && RecoversTo(crypto, digest, vaa[6 + 66 * k + 65], vaa[6 + 66 * k + 1..6 + 66 * k + 33], vaa[6 + 66 * k + 33..6 + 66 * k + 65], keys[20 * g..20 * g + 20])
  }

  lemma SignedAtIs(crypto: Crypto, keys: bytes, vaa: bytes, digest: bytes, k: nat)
    requires 6 + 66 * k + 66 <= |vaa|
    ensures SignedBy(crypto, keys, vaa, digest, k) <==> SignedAt(crypto, keys, vaa, digest, k)
  {
    hide RecoversTo, KeyOf;
    var start := 6 + 66 * k;
    SliceOfSlice(vaa, start, start + 66, 1, 33);
    SliceOfSlice(vaa, start, start + 66, 33, 65);
    var g: nat := vaa[start];
    if 20 * g + 20 <= |keys| {
      RecordExactly(crypto, vaa[start..start + 66], digest, keys[20 * g..20 * g + 20]);
    }
  }

  /** Its signatures are whole, three times their number exceeds twice the set's, each is its
      guardian's over the double hash of what follows them, and no guardian signs twice. */
  predicate HasQuorum(crypto: Crypto, keys: bytes, vaa: bytes) {
    && |vaa| > 5 && 6 + 66 * SigCount(vaa) <= |vaa|
    && var n, digest := SigCount(vaa), crypto.keccak(crypto.keccak(vaa[6 + 66 * SigCount(vaa)..]));
       && n <= |keys| / 20 && 3 * n > 2 * (|keys| / 20)
       && (forall k: nat | k < n :: SignedAt(crypto, keys, vaa, digest, k))
       && (forall j: nat, k: nat | j < k < n :: GuardianAt(vaa, j) != GuardianAt(vaa, k))
  }

  /** That is what every result about quorums speaks of. */
  lemma QuorumExactly(crypto: Crypto, keys: bytes, vaa: bytes)
    ensures QuorumSigned(crypto, keys, vaa) <==> HasQuorum(crypto, keys, vaa)
  {
    hide SignedBy, SignedAt;
    if |vaa| > 5 && 6 + 66 * SigCount(vaa) <= |vaa| {
      var n, digest := SigCount(vaa), crypto.keccak(crypto.keccak(vaa[6 + 66 * SigCount(vaa)..]));
      assert Digest(crypto, vaa) == Some(digest);
      if QuorumSigned(crypto, keys, vaa) {
        forall k: nat | k < n ensures SignedAt(crypto, keys, vaa, digest, k) {
          assert SignedBy(crypto, keys, vaa, digest, k);
          SignedAtIs(crypto, keys, vaa, digest, k);
        }
        forall j: nat, k: nat | j < k < n ensures GuardianAt(vaa, j) != GuardianAt(vaa, k) {
          assert Signer(vaa, j) != Signer(vaa, k);
        }
      }
      if HasQuorum(crypto, keys, vaa) {
        forall k: nat | k < n ensures SignedBy(crypto, keys, vaa, digest, k) {
          assert SignedAt(crypto, keys, vaa, digest, k);
          SignedAtIs(crypto, keys, vaa, digest, k);
        }
        forall j: nat, k: nat | j < k < n ensures Signer(vaa, j) != Signer(vaa, k) {
          assert GuardianAt(vaa, j) != GuardianAt(vaa, k);
        }
      }
    }
  }

  // ---------- the calls in front of verifyVAA ----------

  /** A call that may stand between the first `verifySigs` and `verifyVAA`. */
  predicate HelperCall(g: Txn, tx: Txn) {
    && g.kind == ApplicationCall && g.rekeyTo == Zeros(32) && g.appId == tx.appId
    && |g.accounts| >= 2 && |tx.accounts| >= 2 && g.accounts[..2] == tx.accounts[..2]
  }

  /** A batch sent from the stateless program's address, over this digest. */
  predicate BatchCall(g: Txn, verifier: bytes, digest: bytes) {
    |g.args| >= 4 && g.sender == verifier && g.args[1] != [] && g.args[3] == digest
  }

  lemma InspectNeeds(g: Txn, tx: Txn, verifier: bytes, vaa: bytes, keys: bytes, digest: bytes, off: nat, hits: bytes)
    requires Inspect(g, tx, verifier, vaa, keys, digest, off, hits).Some?
    ensures HelperCall(g, tx) && |g.args| > 0
    ensures g.args[0] == Ascii("verifySigs") || g.args[0] == Ascii("nop") || g.args[0] == Ascii("verifyVAA")
    ensures g.args[0] == Ascii("verifySigs") ==> BatchCall(g, verifier, digest) && off + |g.args[1]| <= |vaa| && vaa[off..off + |g.args[1]|] == g.args[1]
  {
    hide Collect;
    HelperNames();
    assert g.accounts[0] == g.Account(1).value && g.accounts[1] == g.Account(2).value;
    assert tx.accounts[0] == tx.Account(1).value && tx.accounts[1] == tx.Account(2).value;
  }

  lemma HelperNames()
    ensures VERIFY_SIGS == Ascii("verifySigs") && NOP == Ascii("nop") && VERIFY_VAA == Ascii("verifyVAA")
  {
  }

  lemma {:induction false} ScanNeeds(group: Group, i: nat, t: nat, verifier: bytes, vaa: bytes, keys: bytes, digest: bytes, off: nat, hits: bytes, j: nat)
    requires t < |group| && i <= j <= t
    requires Scan(group, i, t, verifier, vaa, keys, digest, off, hits).Some?
    ensures HelperCall(group[j], group[t]) && |group[j].args| > 0
    ensures group[j].args[0] == Ascii("verifySigs") || group[j].args[0] == Ascii("nop") || group[j].args[0] == Ascii("verifyVAA")
    ensures group[j].args[0] == Ascii("verifySigs") ==> BatchCall(group[j], verifier, digest)
    decreases t - i
  {
    hide Inspect, HelperCall, BatchCall;
    var s := Inspect(group[i], group[t], verifier, vaa, keys, digest, off, hits).value;
    if i == j {
      InspectNeeds(group[i], group[t], verifier, vaa, keys, digest, off, hits);
    } else {
      ScanNeeds(group, i + 1, t, verifier, vaa, keys, digest, s.0, s.1, j);
    }
  }

  /** The unbroken run of `verifySigs` and `nop` calls that ends just before `t`. */
  predicate InRun(group: Group, t: nat, j: nat)
    requires t < |group|
  {
    j < t && forall i | j <= i < t :: |group[i].args| > 0 && (group[i].args[0] == Ascii("verifySigs") || group[i].args[0] == Ascii("nop"))
  }

  lemma RunReaches(group: Group, t: nat, j: nat)
    requires t < |group| && InRun(group, t, j)
    ensures RunStart(group, t - 1) <= j
  {
    HelperNames();
    assert forall i | j <= i < t :: IsHelper(group[i]);
  }

  /** If `verifyVAA` passes, every call of the run in front of it is a call of the same
      application with the same first two accounts and no rekeying, and its batches come from
      the stateless program's address over the digest of this very VAA. */
  lemma CallsInFront(crypto: Crypto, at: Locator, cells: map<bytes, Cell>, verifier: bytes, group: Group, t: nat, now: uint64, j: nat)
    requires t < |group| && VerifyVAA(crypto, at, cells, verifier, group, t, now).Some? && InRun(group, t, j)
    ensures HelperCall(group[j], group[t]) && HelperCall(group[t], group[t])
    ensures |group[t].args| > 1 && |group[t].args[1]| > 5 && 6 + 66 * SigCount(group[t].args[1]) <= |group[t].args[1]|
    ensures group[j].args[0] == Ascii("verifySigs") ==>
      BatchCall(group[j], verifier, crypto.keccak(crypto.keccak(group[t].args[1][6 + 66 * SigCount(group[t].args[1])..])))
  {
    hide LoadSet, Scan, HelperCall, BatchCall, Unexpired, Quorate;
    var set_ := VerifyVAA(crypto, at, cells, verifier, group, t, now).value;
    var vaa := group[t].args[1];
    var digest := Digest(crypto, vaa).value;
    var start := RunStart(group, t - 1);
    HelperNames();
    RunReaches(group, t, j);
    ScanNeeds(group, start, t, verifier, vaa, set_.keys, digest, 6, NO_HITS, j);
    ScanNeeds(group, start, t, verifier, vaa, set_.keys, digest, 6, NO_HITS, t);
  }
}
