/** What the quorum rule buys: any two quorums overlap, and which sets can form one. */
module Quorum {
  import opened Teal
  import opened Transactions
  import opened VerifyVaa
  import opened Template
  import opened LocalBlob

  ghost function UpTo(n: nat): (r: set<nat>)
    ensures forall g: nat :: g in r <==> g < n
    ensures |r| == n
  {
    if n == 0 then {} else UpTo(n - 1) + {n - 1}
  }

  lemma {:induction false} SubsetSize(a: set<nat>, b: set<nat>)
    requires a <= b
    ensures |a| <= |b|
  {
    if a != {} {
      var x :| x in a;
      SubsetSize(a - {x}, b - {x});
    }
  }

  lemma Overlap(a: set<nat>, b: set<nat>, n: nat)
    requires forall g | g in a + b :: g < n
    ensures |a| + |b| <= n + |a * b|
  {
    assert |a + b| == |a| + |b| - |a * b|;
    SubsetSize(a + b, UpTo(n));
  }

  /** The guardians that signed. */
  ghost function Signers(vaa: bytes, k: nat): set<nat>
    requires SigStart(k) <= |vaa|
  {
    set j | 0 <= j < k :: Signer(vaa, j)
  }

  lemma {:induction false} SignersSize(vaa: bytes, k: nat)
    requires SigStart(k) <= |vaa|
    requires forall i, j | 0 <= i < j < k :: Signer(vaa, i) != Signer(vaa, j)
    ensures |Signers(vaa, k)| == k
  {
    if k == 0 {
      assert Signers(vaa, 0) == {};
    } else {
      SignersSize(vaa, k - 1);
      assert Signers(vaa, k) == Signers(vaa, k - 1) + {Signer(vaa, k - 1)};
      assert Signer(vaa, k - 1) !in Signers(vaa, k - 1);
    }
  }

  /** Two VAAs accepted under one guardian set were signed by more than a third of it in
      common. */
  lemma QuorumIntersection(crypto: Crypto, keys: bytes, vaa: bytes, vaa': bytes)
    requires QuorumSigned(crypto, keys, vaa) && QuorumSigned(crypto, keys, vaa')
    ensures 3 * |Signers(vaa, vaa[5]) * Signers(vaa', vaa'[5])| > |keys| / 20
  {
    var n := |keys| / 20;
    SignersSize(vaa, vaa[5]);
    SignersSize(vaa', vaa'[5]);
    forall g | g in Signers(vaa, vaa[5]) ensures g < n {
      var k :| 0 <= k < vaa[5] && g == Signer(vaa, k);
      assert SignedBy(crypto, keys, vaa, Digest(crypto, vaa).value, k);
    }
    forall g | g in Signers(vaa', vaa'[5]) ensures g < n {
      var k :| 0 <= k < vaa'[5] && g == Signer(vaa', k);
      assert SignedBy(crypto, keys, vaa', Digest(crypto, vaa').value, k);
    }
    Overlap(Signers(vaa, vaa[5]), Signers(vaa', vaa'[5]), n);
  }

  /** A set of guardians the contract could accept as a quorum: members of the set, with
      room in the 32-bit hit mask. */
  ghost predicate CanAccept(n: nat, guardians: set<nat>) {
    (forall g | g in guardians :: g < n && g < 32) && Quorate(n, |guardians|)
  }

  lemma AcceptedBound(n: nat, guardians: set<nat>)
    requires CanAccept(n, guardians)
    ensures 1 <= n <= 47
  {
    var room := if n < 32 then n else 32;
    SubsetSize(guardians, UpTo(room));
  }

  lemma AcceptedWitness(n: nat, room: nat)
    requires 1 <= n <= 47 && room == if n < 32 then n else 32
    ensures CanAccept(n, UpTo(room))
  {
    assert room > n * 2 / 3;
  }

  /** The hit mask stops every set of 48 or more guardians from ever being usable, however
      many keys fit in storage. */
  lemma QuorumReach(n: nat)
    ensures (exists guardians :: CanAccept(n, guardians)) <==> 1 <= n <= 47
  {
    if 1 <= n <= 47 {
      AcceptedWitness(n, if n < 32 then n else 32);
    }
    forall guardians | CanAccept(n, guardians) ensures 1 <= n <= 47 {
      AcceptedBound(n, guardians);
    }
  }

  /** Hence `verifyVAA` never succeeds for a stored set of 48 or more guardians. */
  lemma LargeSetsAreUnusable(crypto: Crypto, at: Locator, cells: map<bytes, Cell>, verifier: bytes, group: Group, t: nat, now: uint64)
    requires t < |group| && Authorised(crypto, verifier, group)
    requires VerifyVAA(crypto, at, cells, verifier, group, t, now).Some?
    ensures 1 <= VerifyVAA(crypto, at, cells, verifier, group, t, now).value.n <= 47
  {
    QuorumSoundness(crypto, at, cells, verifier, group, t, now);
    var n := VerifyVAA(crypto, at, cells, verifier, group, t, now).value.n;
    var vaa := group[t].args[1];
    SignersSize(vaa, vaa[5]);
    assert CanAccept(n, Signers(vaa, vaa[5]));
    QuorumReach(n);
  }
}
