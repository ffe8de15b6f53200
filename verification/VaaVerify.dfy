/** The stateless program that checks a batch of VAA signatures against a batch of keys. */
module VaaVerify {
  import opened Teal
  import opened Transactions

  const SIG_SIZE: nat := 66
  const KEY_SIZE: nat := 20

  /** The guardian key one 66-byte signature recovers to: a guardian index, r, s and the
      recovery id. */
  function KeyOf(crypto: Crypto, digest: bytes, sig: bytes): Option<bytes>
    requires |sig| == SIG_SIZE
  {
    var pk :- crypto.recover(digest, sig[65], sig[1..33], sig[33..65]);
    Substring(crypto.keccak(pk.0 + pk.1), 12, 32)
  }

  /** The signature string is a whole number of signatures, and each recovers to the key at
      the same position. */
  ghost predicate SigsMatch(crypto: Crypto, signatures: bytes, dhash: bytes, keys: bytes) {
    && |signatures| % SIG_SIZE == 0
    && SigsMatchTo(crypto, signatures, dhash, keys, |signatures| / SIG_SIZE)
  }

  ghost predicate SigsMatchTo(crypto: Crypto, signatures: bytes, dhash: bytes, keys: bytes, n: nat) {
    && SIG_SIZE * n <= |signatures| && KEY_SIZE * n <= |keys|
    && forall k | 0 <= k < n :: SigMatches(crypto, signatures, dhash, keys, k)
  }

  ghost predicate SigMatches(crypto: Crypto, signatures: bytes, dhash: bytes, keys: bytes, k: nat)
    requires SIG_SIZE * (k + 1) <= |signatures| && KEY_SIZE * (k + 1) <= |keys|
  {
    KeyOf(crypto, dhash, signatures[66 * k..66 * k + 66]) == Some(keys[20 * k..20 * k + 20])
  }

  /** `sig_check`. A ragged final signature traps on its recovery byte, so success implies
      that the string splits evenly. */
  method SigCheck(crypto: Crypto, signatures: bytes, dhash: bytes, keys: bytes) returns (r: Option<()>)
    ensures r.Some? <==> SigsMatch(crypto, signatures, dhash, keys)
  {
    var slen := |signatures|;
    var si, ki := 0, 0;
    ghost var n := 0;
    while si < slen
      invariant si == 66 * n && ki == 20 * n && si < slen + 66
      invariant n > 0 ==> SigsMatchTo(crypto, signatures, dhash, keys, n)
    {
      var v :- ReadInt(signatures, si + 65, 1);
      var sigR := signatures[si + 1..si + 33];
      var sigS := signatures[si + 33..si + 65];
      ghost var sig := signatures[si..si + 66];
      assert sig[65] == v;
      SliceOfSlice(signatures, si, si + 66, 1, 33);
      SliceOfSlice(signatures, si, si + 66, 33, 65);
      var pk := crypto.recover(dhash, v, sigR, sigS);
      if pk.None? {
        assert !SigMatchesAt(crypto, signatures, dhash, keys, n);
        return None;
      }
      var key := Extract(keys, ki, 20);
      var recovered := Substring(crypto.keccak(pk.value.0 + pk.value.1), 12, 32);
      assert KeyOf(crypto, dhash, sig) == recovered;
      if key.None? || recovered.None? || key != recovered {
        assert !SigMatchesAt(crypto, signatures, dhash, keys, n);
        return None;
      }
      assert SigMatches(crypto, signatures, dhash, keys, n);
      n := n + 1;
      si := si + 66;
      ki := ki + 20;
    }
    return Some(());
  }

  ghost predicate SigMatchesAt(crypto: Crypto, signatures: bytes, dhash: bytes, keys: bytes, k: nat) {
    && SIG_SIZE * (k + 1) <= |signatures| && KEY_SIZE * (k + 1) <= |keys|
    && SigMatches(crypto, signatures, dhash, keys, k)
  }

  /** What the stateless program requires of the transaction it authorises. */
  ghost predicate Approves(crypto: Crypto, t: Txn) {
    && t.rekeyTo == ZERO_ADDRESS && t.fee == 0 && t.kind == ApplicationCall
    && |t.args| > 3
    && SigsMatch(crypto, t.args[1], t.args[3], t.args[2])
  }
}
