/** The core contract's signature check: find the `verifySigs` calls in front of the current
    transaction, and make sure that between them they verified every signature of the VAA,
    each under the key of the guardian it names and no guardian twice. */
module VerifyVaa {
  import opened Teal
  import opened Transactions
  import opened VaaVerify
  import opened Template
  import opened LocalBlob

  /** The byte string with one bit per guardian, four bytes long. */
  const NO_HITS: bytes := [0, 0, 0, 0]

  function SigStart(k: nat): nat { 6 + 66 * k }

  /** The guardian that signature `k` names. */
  function Signer(vaa: bytes, k: nat): nat
    requires SigStart(k) < |vaa|
  {
    vaa[SigStart(k)]
  }

  function SigAt(vaa: bytes, k: nat): bytes
    requires SigStart(k + 1) <= |vaa|
  {
    vaa[SigStart(k)..SigStart(k) + 66]
  }

  /** The double hash of what follows the signatures. */
  function Digest(crypto: Crypto, vaa: bytes): Option<bytes> {
    var num :- ReadInt(vaa, 5, 1);
    :- Require(SigStart(num) <= |vaa|);
    Some(crypto.keccak(crypto.keccak(vaa[SigStart(num)..])))
  }

  // ---------- the back-walk ----------

  predicate IsHelper(g: Txn) {
    |g.args| > 0 && (g.args[0] == VERIFY_SIGS || g.args[0] == NOP)
  }

  /** First index of the unbroken run of helper calls that ends at `i`; `i + 1` if none. */
  function RunStart(group: Group, i: nat): (r: nat)
    requires i < |group|
    ensures r <= i + 1
    ensures forall j | r <= j <= i :: IsHelper(group[j])
    ensures 0 < r ==> !IsHelper(group[r - 1])
  {
    if !IsHelper(group[i]) then i + 1
    else if i == 0 then 0
    else RunStart(group, i - 1)
  }

  lemma {:induction false} RunStartUnique(group: Group, i: nat, r: nat)
    requires i < |group| && r <= i + 1
    requires forall j | r <= j <= i :: IsHelper(group[j])
    requires 0 < r ==> !IsHelper(group[r - 1])
    ensures RunStart(group, i) == r
  {
    if r <= i && i > 0 { RunStartUnique(group, i - 1, r); }
  }

  method BackWalk(group: Group, t: nat) returns (r: Option<nat>)
    requires t < |group|
    ensures r == if t > 0 && |group[t - 1].args| > 0 then Some(RunStart(group, t - 1)) else None
  {
    if t == 0 { return None; }
    var i := t - 1;
    if |group[i].args| == 0 { return None; }
    var a := group[i].args[0];
    while i > 0 && (a == VERIFY_SIGS || a == NOP)
      invariant 0 <= i < t
      invariant if |group[i].args| > 0 then a == group[i].args[0] else a == []
      invariant forall j | i < j < t :: IsHelper(group[j])
    {
      i := i - 1;
      if |group[i].args| > 0 {
        a := group[i].args[0];
      } else {
        a := [];
        break;
      }
    }
    if a != VERIFY_SIGS && a != NOP { i := i + 1; }
    RunStartUnique(group, t - 1, i);
    return Some(i);
  }

  // ---------- one batch of signatures ----------

  /** Walks the signatures from `off` while it is before `eoff`, refusing a guardian already
      hit and collecting the stored keys. */
  function Collect(vaa: bytes, keys: bytes, off: nat, eoff: nat, hits: bytes, acc: bytes): Option<(nat, bytes, bytes)>
    decreases eoff - off
  {
    if off >= eoff then Some((off, hits, acc))
    else
      var guardian :- ReadInt(vaa, off, 1);
      var hit :- GetBitOfBytes(hits, guardian);
      :- Require(!hit);
      var key :- Extract(keys, guardian * 20, 20);
      Collect(vaa, keys, off + 66, eoff, SetBitOfBytes(hits, guardian).value, acc + key)
  }

  method CollectKeys(vaa: bytes, keys: bytes, off0: nat, eoff: nat, hits0: bytes) returns (r: Option<(nat, bytes, bytes)>)
    ensures r == Collect(vaa, keys, off0, eoff, hits0, [])
  {
    var off, hits, s: bytes := off0, hits0, [];
    while off < eoff
      invariant Collect(vaa, keys, off, eoff, hits, s) == Collect(vaa, keys, off0, eoff, hits0, [])
    {
      var guardian :- ReadInt(vaa, off, 1);
      var hit :- GetBitOfBytes(hits, guardian);
      if hit { return None; }
      hits := SetBitOfBytes(hits, guardian).value;
      var key :- Extract(keys, guardian * 20, 20);
      s := s + key;
      off := off + 66;
    }
    return Some((off, hits, s));
  }

  /** What the contract demands of one transaction of the run, `tx` being the `verifyVAA`
      call itself; the result is the new offset and hit set. */
  function Inspect(g: Txn, tx: Txn, vphash: bytes, vaa: bytes, keys: bytes, digest: bytes, off: nat, hits: bytes): Option<(nat, bytes)> {
    var a1 :- tx.Account(1);
    var a2 :- tx.Account(2);
    :- Require(g.kind == ApplicationCall && g.rekeyTo == ZERO_ADDRESS && g.appId == tx.appId);
    :- Require(g.Account(1) == Some(a1) && g.Account(2) == Some(a2));
    var a :- g.Arg(0);
    if a == VERIFY_SIGS then
      var s :- g.Arg(1);
      :- Require(|s| > 0);
      var expected :- Extract(vaa, off, |s|);
      :- Require(expected == s);
      var c :- Collect(vaa, keys, off, off + |s|, hits, []);
      :- Require(g.Arg(2) == Some(c.2) && g.sender == vphash && g.Arg(3) == Some(digest));
      Some((c.0, c.1))
    else
      :- Require(a == NOP || a == VERIFY_VAA);
      Some((off, hits))
  }

  function Scan(group: Group, i: nat, t: nat, vphash: bytes, vaa: bytes, keys: bytes, digest: bytes, off: nat, hits: bytes): Option<nat>
    requires t < |group| && i <= t + 1
    decreases t + 1 - i
  {
    if i == t + 1 then Some(off)
    else
      var s :- Inspect(group[i], group[t], vphash, vaa, keys, digest, off, hits);
      Scan(group, i + 1, t, vphash, vaa, keys, digest, s.0, s.1)
  }

  /** The forward loop over the run of helper calls and the current transaction. */
  method ScanRun(group: Group, start: nat, t: nat, vphash: bytes, vaa: bytes, keys: bytes, digest: bytes) returns (r: Option<nat>)
    requires t < |group| && start <= t
    ensures r == Scan(group, start, t, vphash, vaa, keys, digest, 6, NO_HITS)
  {
    hide Collect;
    var tx := group[t];
    var i, off: nat, hits := start, 6, NO_HITS;
    while i <= t
      invariant start <= i <= t + 1
      invariant Scan(group, i, t, vphash, vaa, keys, digest, off, hits) == Scan(group, start, t, vphash, vaa, keys, digest, 6, NO_HITS)
    {
      var g := group[i];
      if g.kind != ApplicationCall || g.rekeyTo != ZERO_ADDRESS || g.appId != tx.appId { return None; }
      var a1 :- tx.Account(1);
      var a2 :- tx.Account(2);
      if g.Account(1) != Some(a1) || g.Account(2) != Some(a2) { return None; }
      var a :- g.Arg(0);
      if a == VERIFY_SIGS {
        var s :- g.Arg(1);
        if |s| == 0 { return None; }
        var expected :- Extract(vaa, off, |s|);
        if expected != s { return None; }
        var eoff := off + |s|;
        var c :- CollectKeys(vaa, keys, off, eoff, hits);
        if g.Arg(2) != Some(c.2) || g.sender != vphash || g.Arg(3) != Some(digest) { return None; }
        off, hits := c.0, c.1;
      } else if a != NOP && a != VERIFY_VAA {
        return None;
      }
      i := i + 1;
    }
    return Some(off);
  }

  // ---------- the whole check ----------

  /** The guardian set stored in an account: how many keys, the keys, and the expiry. */
  datatype StoredSet = StoredSet(n: nat, keys: bytes, expiry: uint64)

  function LoadSet(c: Cell): Option<StoredSet> {
    var n: nat := c.flat[0];
    :- Require(n > 0);
    var keys :- CellRead(c, 1, 1 + 20 * n);
    FromBEBound(c.flat[1000..1008]);
    Some(StoredSet(n, keys, FromBE(c.flat[1000..1008])))
  }

  predicate Quorate(n: nat, num: nat) {
    num <= n && num > n * 2 / 3
  }

  predicate Unexpired(set_: StoredSet, now: uint64) {
    set_.expiry == 0 || now < set_.expiry
  }

  /** `verifyVAA` run as transaction `t` of a group. */
  function VerifyVAA(crypto: Crypto, at: Locator, cells: map<bytes, Cell>, vphash: bytes, group: Group, t: nat, now: uint64): Option<StoredSet>
    requires t < |group|
  {
    var tx := group[t];
    var vaa :- tx.Arg(1);
    var idx :- ReadInt(vaa, 1, 4);
    var a2 :- tx.Account(2);
    :- Require(a2 == at(idx, GUARDIAN));
    :- Require(a2 in cells && cells[a2].tag == Some(GUARDIAN));
    var set_ :- LoadSet(cells[a2]);
    :- Require(Unexpired(set_, now));
    var digest :- Digest(crypto, vaa);
    var num := vaa[5];
    :- Require(Quorate(set_.n, num));
    :- Require(t > 0 && |group[t - 1].args| > 0);
    var off :- Scan(group, RunStart(group, t - 1), t, vphash, vaa, set_.keys, digest, 6, NO_HITS);
    :- Require(off == SigStart(num));
    Some(set_)
  }

  // ---------- soundness ----------

  /** Signature `k` was made over the VAA's digest by the guardian it names. */
  ghost predicate SignedBy(crypto: Crypto, keys: bytes, vaa: bytes, digest: bytes, k: nat) {
    && SigStart(k + 1) <= |vaa|
    && 20 * Signer(vaa, k) + 20 <= |keys|
    && KeyOf(crypto, digest, SigAt(vaa, k)) == Some(keys[20 * Signer(vaa, k)..20 * Signer(vaa, k) + 20])
  }

  /** Distinct members of the set, more than two thirds of it, signed the VAA's body. */
  ghost predicate QuorumSigned(crypto: Crypto, keys: bytes, vaa: bytes) {
    && Digest(crypto, vaa).Some?
    && Quorate(|keys| / 20, vaa[5])
    && (forall k | 0 <= k < vaa[5] :: SignedBy(crypto, keys, vaa, Digest(crypto, vaa).value, k))
    && (forall j, k | 0 <= j < k < vaa[5] :: Signer(vaa, j) != Signer(vaa, k))
  }

  /** After `k` signatures: every guardian named so far is hit, and they are distinct. */
  ghost predicate Distinct(vaa: bytes, keys: bytes, hits: bytes, k: nat) {
    && SigStart(k) <= |vaa| && |hits| == 4
    && (forall j | 0 <= j < k :: 20 * Signer(vaa, j) + 20 <= |keys| && GetBitOfBytes(hits, Signer(vaa, j)) == Some(true))
    && (forall i, j | 0 <= i < j < k :: Signer(vaa, i) != Signer(vaa, j))
  }

  lemma DistinctStep(vaa: bytes, keys: bytes, hits: bytes, k: nat)
    requires Distinct(vaa, keys, hits, k) && SigStart(k + 1) <= |vaa|
    requires GetBitOfBytes(hits, Signer(vaa, k)) == Some(false) && 20 * Signer(vaa, k) + 20 <= |keys|
    ensures Distinct(vaa, keys, SetBitOfBytes(hits, Signer(vaa, k)).value, k + 1)
  {
    var g := Signer(vaa, k);
    forall j | 0 <= j < k + 1
      ensures 20 * Signer(vaa, j) + 20 <= |keys| && GetBitOfBytes(SetBitOfBytes(hits, g).value, Signer(vaa, j)) == Some(true)
    {
      if j < k { assert GetBitOfBytes(hits, Signer(vaa, j)).Some?; }
      SetBitOfBytesEffect(hits, g, Signer(vaa, j));
    }
  }

  /** The keys collected for signatures `k` to `k + m` are those of the guardians they name. */
  ghost predicate KeysFor(vaa: bytes, keys: bytes, k: nat, m: nat, ks: bytes) {
    && SigStart(k + m) <= |vaa| && |ks| == 20 * m
    && (forall j | 0 <= j < m :: KeyFor(vaa, keys, k + j, ks[20 * j..20 * j + 20]))
  }

  ghost predicate KeyFor(vaa: bytes, keys: bytes, k: nat, key: bytes) {
    && SigStart(k) < |vaa| && 20 * Signer(vaa, k) + 20 <= |keys|
    && key == keys[20 * Signer(vaa, k)..20 * Signer(vaa, k) + 20]
  }

  lemma KeysForStep(vaa: bytes, keys: bytes, k: nat, m: nat, ks: bytes, key: bytes)
    requires KeysFor(vaa, keys, k, m, ks) && SigStart(k + m + 1) <= |vaa| && |key| == 20
    requires KeyFor(vaa, keys, k + m, key)
    ensures KeysFor(vaa, keys, k, m + 1, ks + key)
  {
    forall j | 0 <= j < m + 1 ensures KeyFor(vaa, keys, k + j, (ks + key)[20 * j..20 * j + 20]) {
      if j < m {
        assert (ks + key)[20 * j..20 * j + 20] == ks[20 * j..20 * j + 20];
      } else {
        assert (ks + key)[20 * j..20 * j + 20] == key;
      }
    }
  }

  lemma CollectUnfold(vaa: bytes, keys: bytes, k: nat, eoff: nat, hits: bytes, acc: bytes)
    requires SigStart(k) < |vaa| && SigStart(k) < eoff
    requires Collect(vaa, keys, SigStart(k), eoff, hits, acc).Some?
    ensures
      var g := Signer(vaa, k);
      && GetBitOfBytes(hits, g) == Some(false) && 20 * g + 20 <= |keys|
      && Collect(vaa, keys, SigStart(k), eoff, hits, acc)
           == Collect(vaa, keys, SigStart(k + 1), eoff, SetBitOfBytes(hits, g).value, acc + keys[20 * g..20 * g + 20])
  {
  }

  /** `first` signatures precede the batch, and those up to `k` have been walked. */
  ghost predicate Walked(vaa: bytes, keys: bytes, first: nat, k: nat, hits: bytes, acc: bytes) {
    first <= k && Distinct(vaa, keys, hits, k) && KeysFor(vaa, keys, first, k - first, acc)
  }

  lemma WalkStep(vaa: bytes, keys: bytes, first: nat, k: nat, hits: bytes, acc: bytes)
    requires Walked(vaa, keys, first, k, hits, acc) && SigStart(k + 1) <= |vaa|
    requires GetBitOfBytes(hits, Signer(vaa, k)) == Some(false) && 20 * Signer(vaa, k) + 20 <= |keys|
    ensures
      var g := Signer(vaa, k);
      Walked(vaa, keys, first, k + 1, SetBitOfBytes(hits, g).value, acc + keys[20 * g..20 * g + 20])
  {
    var g := Signer(vaa, k);
    DistinctStep(vaa, keys, hits, k);
    KeysForStep(vaa, keys, first, k - first, acc, keys[20 * g..20 * g + 20]);
  }

  lemma {:induction false} CollectSound(vaa: bytes, keys: bytes, first: nat, k: nat, end: nat, hits: bytes, acc: bytes, c: (nat, bytes, bytes))
    requires k <= end && SigStart(end) <= |vaa| && Walked(vaa, keys, first, k, hits, acc)
    requires Collect(vaa, keys, SigStart(k), SigStart(end), hits, acc) == Some(c)
    ensures c.0 == SigStart(end) && Walked(vaa, keys, first, end, c.1, c.2)
    decreases end - k
  {
    if k < end {
      var g := Signer(vaa, k);
      CollectUnfold(vaa, keys, k, SigStart(end), hits, acc);
      WalkStep(vaa, keys, first, k, hits, acc);
      CollectSound(vaa, keys, first, k + 1, end, SetBitOfBytes(hits, g).value, acc + keys[20 * g..20 * g + 20], c);
    }
  }

  /** If the stateless program passed a batch whose keys are those of the named guardians,
      its signatures are theirs. */
  lemma BatchSigned(crypto: Crypto, vaa: bytes, keys: bytes, digest: bytes, k: nat, m: nat, s: bytes, ks: bytes)
    requires KeysFor(vaa, keys, k, m, ks) && |s| == 66 * m
    requires s == vaa[SigStart(k)..SigStart(k) + 66 * m]
    requires SigsMatchTo(crypto, s, digest, ks, m)
    ensures forall j | k <= j < k + m :: SignedBy(crypto, keys, vaa, digest, j)
  {
    hide SignedBy, SigsMatchTo, KeysFor;
    forall j | k <= j < k + m ensures SignedBy(crypto, keys, vaa, digest, j) {
      SigSigned(crypto, vaa, keys, digest, k, m, s, ks, j - k);
    }
  }

  lemma SigSigned(crypto: Crypto, vaa: bytes, keys: bytes, digest: bytes, k: nat, m: nat, s: bytes, ks: bytes, i: nat)
    requires KeysFor(vaa, keys, k, m, ks) && |s| == 66 * m && i < m
    requires s == vaa[SigStart(k)..SigStart(k) + 66 * m]
    requires SigsMatchTo(crypto, s, digest, ks, m)
    ensures SignedBy(crypto, keys, vaa, digest, k + i)
  {
    assert SigMatches(crypto, s, digest, ks, i);
    assert KeyFor(vaa, keys, k + i, ks[20 * i..20 * i + 20]);
    SliceOfSlice(vaa, SigStart(k), SigStart(k) + 66 * m, 66 * i, 66 * i + 66);
    assert s[66 * i..66 * i + 66] == SigAt(vaa, k + i);
  }

  /** The platform lets a transaction carry the stateless program's address as its sender
      only when that program approves it. */
  ghost predicate Authorised(crypto: Crypto, verifier: bytes, group: Group) {
    forall i | 0 <= i < |group| && group[i].sender == verifier :: Approves(crypto, group[i])
  }

  ghost predicate AllSigned(crypto: Crypto, keys: bytes, vaa: bytes, digest: bytes, k: nat) {
    forall j | 0 <= j < k :: SignedBy(crypto, keys, vaa, digest, j)
  }

  lemma BatchSound(crypto: Crypto, vaa: bytes, keys: bytes, digest: bytes, hits: bytes, k: nat, m: nat, s: bytes, c: (nat, bytes, bytes))
    requires Distinct(vaa, keys, hits, k) && AllSigned(crypto, keys, vaa, digest, k)
    requires SigStart(k + m) <= |vaa| && s == vaa[SigStart(k)..SigStart(k) + 66 * m]
    requires Collect(vaa, keys, SigStart(k), SigStart(k + m), hits, []) == Some(c)
    requires SigsMatchTo(crypto, s, digest, c.2, m)
    ensures c.0 == SigStart(k + m) && Distinct(vaa, keys, c.1, k + m) && AllSigned(crypto, keys, vaa, digest, k + m)
  {
    CollectSound(vaa, keys, k, k, k + m, hits, [], c);
    BatchSigned(crypto, vaa, keys, digest, k, m, s, c.2);
  }

  lemma InspectSound(crypto: Crypto, g: Txn, tx: Txn, verifier: bytes, vaa: bytes, keys: bytes, digest: bytes, hits: bytes, k: nat, s: (nat, bytes))
    returns (k': nat)
    requires g.sender == verifier ==> Approves(crypto, g)
    requires Distinct(vaa, keys, hits, k) && AllSigned(crypto, keys, vaa, digest, k)
    requires Inspect(g, tx, verifier, vaa, keys, digest, SigStart(k), hits) == Some(s)
    ensures s.0 == SigStart(k') && Distinct(vaa, keys, s.1, k') && AllSigned(crypto, keys, vaa, digest, k')
  {
    if g.args[0] == VERIFY_SIGS {
      var c := Collect(vaa, keys, SigStart(k), SigStart(k) + |g.args[1]|, hits, []).value;
      var m := |g.args[1]| / 66;
      k' := k + m;
      assert SigStart(k) + |g.args[1]| == SigStart(k + m);
      BatchSound(crypto, vaa, keys, digest, hits, k, m, g.args[1], c);
    } else {
      k' := k;
    }
  }

  lemma {:induction false} ScanSound(crypto: Crypto, group: Group, i: nat, t: nat, verifier: bytes, vaa: bytes, keys: bytes, digest: bytes, hits: bytes, k: nat)
    returns (k': nat)
    requires t < |group| && i <= t + 1 && Authorised(crypto, verifier, group)
    requires Distinct(vaa, keys, hits, k) && AllSigned(crypto, keys, vaa, digest, k)
    requires Scan(group, i, t, verifier, vaa, keys, digest, SigStart(k), hits).Some?
    ensures Scan(group, i, t, verifier, vaa, keys, digest, SigStart(k), hits) == Some(SigStart(k'))
    ensures AllSigned(crypto, keys, vaa, digest, k') && SigStart(k') <= |vaa|
    ensures forall j, l | 0 <= j < l < k' :: Signer(vaa, j) != Signer(vaa, l)
    ensures forall j | 0 <= j < k' :: Signer(vaa, j) < 32
    decreases t + 1 - i
  {
    if i == t + 1 {
      k' := k;
    } else {
      var s := Inspect(group[i], group[t], verifier, vaa, keys, digest, SigStart(k), hits).value;
      k' := InspectSound(crypto, group[i], group[t], verifier, vaa, keys, digest, hits, k, s);
      k' := ScanSound(crypto, group, i + 1, t, verifier, vaa, keys, digest, s.1, k');
    }
  }

  /** The set `verifyVAA` checks against is the one stored in the account of the index the VAA
      names, which carries the guardian tag. */
  lemma NamedSet(crypto: Crypto, at: Locator, cells: map<bytes, Cell>, vphash: bytes, group: Group, t: nat, now: uint64)
    requires t < |group| && VerifyVAA(crypto, at, cells, vphash, group, t, now).Some?
    ensures |group[t].args| > 1 && |group[t].args[1]| >= 6
    ensures
      var a := at(FromBE(group[t].args[1][1..5]), GUARDIAN);
      && group[t].Account(2) == Some(a)
      && a in cells && cells[a].tag == Some(GUARDIAN)
      && LoadSet(cells[a]) == VerifyVAA(crypto, at, cells, vphash, group, t, now)
  {
    hide LoadSet, Scan;
  }

  /** If `verifyVAA` succeeds, the VAA carries a quorum of valid signatures by distinct
      members of a set that is stored, tagged as a guardian set and not expired. */
  lemma QuorumSoundness(crypto: Crypto, at: Locator, cells: map<bytes, Cell>, verifier: bytes, group: Group, t: nat, now: uint64)
    requires t < |group| && Authorised(crypto, verifier, group)
    requires VerifyVAA(crypto, at, cells, verifier, group, t, now).Some?
    ensures
      var set_ := VerifyVAA(crypto, at, cells, verifier, group, t, now).value;
      var vaa := group[t].args[1];
      && |vaa| >= 6
      && at(FromBE(vaa[1..5]), GUARDIAN) in cells
      && LoadSet(cells[at(FromBE(vaa[1..5]), GUARDIAN)]) == Some(set_)
      && Unexpired(set_, now)
      && |set_.keys| == 20 * set_.n
      && QuorumSigned(crypto, set_.keys, vaa)
      && (forall k | 0 <= k < vaa[5] :: Signer(vaa, k) < set_.n && Signer(vaa, k) < 32)
  {
    var set_ := VerifyVAA(crypto, at, cells, verifier, group, t, now).value;
    var vaa := group[t].args[1];
    var digest := Digest(crypto, vaa).value;
    var k := ScanSound(crypto, group, RunStart(group, t - 1), t, verifier, vaa, set_.keys, digest, NO_HITS, 0);
    assert k == vaa[5];
    forall j | 0 <= j < vaa[5] ensures Signer(vaa, j) < set_.n {
      assert SignedBy(crypto, set_.keys, vaa, digest, j);
    }
  }
}
