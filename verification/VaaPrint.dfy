/** Builds signed VAAs: the body, one signature a signer over its double hash, and the four
    payloads the test generator knows. Works on bytes where the generator works on hex. */
module VaaPrint {
  import opened Teal

  /** A recoverable signature. */
  type Signature = s: bytes | |s| == 65 witness Zeros(65)

  /** `sign` and `keccak` stay uninterpreted. */
  datatype Keys = Keys(keccak: bytes -> bytes, sign: (bytes, bytes) -> Signature)

  /** What a body says before its payload. */
  datatype Header = Header(timestamp: nat, nonce: nat, chain: nat, emitter: bytes, sequence: nat, consistency: nat)

  /** An unsigned integer of `width` bytes; out of range is an error. */
  function Encode(width: nat, n: nat): (r: Option<bytes>)
    ensures r.Some? ==> |r.value| == width
  {
    if n < Pow(256, width) then Some(ToBE(n, width)) else None
  }

  /** Right-padded to 32 bytes; longer is an error. */
  function Bytes32(b: bytes): (r: Option<bytes>)
    ensures r.Some? ==> |r.value| == 32
  {
    if |b| <= 32 then Some(b + Zeros(32 - |b|)) else None
  }

  lemma EncodeByte(n: nat)
    ensures Encode(1, n) == if n < 256 then Some([n]) else None
  {
    Pow256();
    assert ToBE(n, 1) == ToBE(n / 256, 0) + [n % 256] == [n % 256];
  }

  function Body(h: Header, payload: bytes): Option<bytes> {
    var ts :- Encode(4, h.timestamp);
    var nonce :- Encode(4, h.nonce);
    var chain :- Encode(2, h.chain);
    var emitter :- Bytes32(h.emitter);
    var sequence :- Encode(8, h.sequence);
    var consistency :- Encode(1, h.consistency);
    Some(ts + (nonce + (chain + (emitter + (sequence + (consistency + payload))))))
  }

  /** Signature `i` is the signer's number and its signature. */
  function SignatureAt(keys: Keys, hash: bytes, signers: seq<bytes>, i: nat): (r: bytes)
    requires i < |signers| && i < 256
    ensures |r| == 66
  {
    [i] + keys.sign(hash, signers[i])
  }

  function SignaturesTo(keys: Keys, hash: bytes, signers: seq<bytes>, n: nat): (r: bytes)
    requires n <= |signers| && n <= 256
    ensures |r| == 66 * n
  {
    if n == 0 then [] else SignaturesTo(keys, hash, signers, n - 1) + SignatureAt(keys, hash, signers, n - 1)
  }

  function SignedVaa(keys: Keys, version: nat, index: nat, signers: seq<bytes>, h: Header, payload: bytes): Option<bytes> {
    var body :- Body(h, payload);
    var v :- Encode(1, version);
    var set_ :- Encode(4, index);
    var count :- Encode(1, |signers|);
    Pow256();
    Some(v + (set_ + (count + (SignaturesTo(keys, keys.keccak(keys.keccak(body)), signers, |signers|) + body))))
  }

  method CreateSignedVaa(keys: Keys, index: nat, signers: seq<bytes>, h: Header, payload: bytes, version: nat) returns (r: Option<bytes>)
    ensures r == SignedVaa(keys, version, index, signers, h, payload)
  {
    hide Encode, Bytes32;
    var b: bytes := [];
    var ts :- Encode(4, h.timestamp);
    b := b + ts;
    assert b == ts;
    var nonce :- Encode(4, h.nonce);
    b := b + nonce;
    var chain :- Encode(2, h.chain);
    b := b + chain;
    var emitter :- Bytes32(h.emitter);
    b := b + emitter;
    var sequence :- Encode(8, h.sequence);
    b := b + sequence;
    var consistency :- Encode(1, h.consistency);
    b := b + consistency;
    b := b + payload;
    Assoc7(ts, nonce, chain, emitter, sequence, consistency, payload);
    var hash := keys.keccak(keys.keccak(b));
    var signatures: bytes := [];
    for i := 0 to |signers|
      invariant i <= 256 && signatures == SignaturesTo(keys, hash, signers, i)
    {
      EncodeByte(i);
      EncodeByte(|signers|);
      var number :- Encode(1, i);
      var signature := keys.sign(hash, signers[i]);
      assert signatures + number + signature == signatures + (number + signature);
      signatures := signatures + number + signature;
    }
    var v :- Encode(1, version);
    var set_ :- Encode(4, index);
    var count :- Encode(1, |signers|);
    Assoc5(v, set_, count, signatures, b);
    return Some(v + set_ + count + signatures + b);
  }

  /** Which numbers fit, with the bounds written out. */
  lemma EncodeExactly(n: nat)
    ensures Encode(1, n).Some? <==> n < 256
    ensures Encode(2, n).Some? <==> n < 65536
    ensures Encode(4, n).Some? <==> n < 0x1_0000_0000
    ensures Encode(8, n).Some? <==> n < 0x1_0000_0000_0000_0000
  {
    Pow256();
  }

  /** A VAA is generated exactly when every field fits its place. */
  lemma SignedExactly(keys: Keys, version: nat, index: nat, signers: seq<bytes>, h: Header, payload: bytes)
    ensures SignedVaa(keys, version, index, signers, h, payload).Some? <==>
      && version < 256 && index < 0x1_0000_0000 && |signers| < 256 && |h.emitter| <= 32
      && h.timestamp < 0x1_0000_0000 && h.nonce < 0x1_0000_0000 && h.chain < 65536
      && h.sequence < 0x1_0000_0000_0000_0000 && h.consistency < 256
    ensures |h.emitter| <= 32 ==> Bytes32(h.emitter) == Some(h.emitter + Zeros(32 - |h.emitter|))
  {
    EncodeExactly(h.timestamp);
    EncodeExactly(h.nonce);
    EncodeExactly(h.chain);
    EncodeExactly(h.sequence);
    EncodeExactly(h.consistency);
    EncodeExactly(version);
    EncodeExactly(index);
    EncodeExactly(|signers|);
    hide Encode, SignaturesTo;
  }

  lemma Assoc5(a: bytes, b: bytes, c: bytes, d: bytes, e: bytes)
    ensures a + b + c + d + e == a + (b + (c + (d + e)))
  {
    assert a + b + c + (d + e) == a + b + c + d + e;
    assert a + b + (c + (d + e)) == a + b + c + (d + e);
  }

  lemma Assoc7(a: bytes, b: bytes, c: bytes, d: bytes, e: bytes, f: bytes, g: bytes)
    ensures a + b + c + d + e + f + g == a + (b + (c + (d + (e + (f + g)))))
  {
    Assoc5(a + b, c, d, e, f + g);
    assert a + b + c + d + e + (f + g) == a + b + c + d + e + f + g;
    assert a + b + (c + (d + (e + (f + g)))) == a + (b + (c + (d + (e + (f + g)))));
  }

  // ---------- payloads ----------

  /** The zeros put beside a field of `len` bytes to make it 32; the string of zeros is cut
      from the other end when the field is longer. */
  function Padding(len: nat): bytes {
    if len <= 32 then Zeros(32 - len) else if len <= 96 then Zeros(96 - len) else []
  }

  function TransferPayload(amount: nat, token: bytes, tokenChain: nat, to: bytes, toChain: nat, fee: nat): Option<bytes> {
    var a :- Encode(32, amount * 100000000);
    var c :- Encode(2, tokenChain);
    var t :- Encode(2, toChain);
    var f :- Encode(32, fee * 100000000);
    Some([1] + (a + ((Padding(|token|) + token) + (c + ((Padding(|to|) + to) + (t + f))))))
  }

  function AttestPayload(token: bytes, chain: nat, decimals: nat, symbol: bytes, name: bytes): Option<bytes> {
    var c :- Encode(2, chain);
    var d :- Encode(1, decimals);
    Some([2] + ((Padding(|token|) + token) + (c + (d + ((symbol + Padding(|symbol|)) + (name + Padding(|name|)))))))
  }

  /** "TokenBridge", left padded. */
  const TOKEN_BRIDGE: bytes := Zeros(21) + [84, 111, 107, 101, 110, 66, 114, 105, 100, 103, 101]

  /** "Core", left padded. */
  const CORE: bytes := Zeros(28) + [67, 111, 114, 101]

  function RegisterChainPayload(chain: nat, addr: bytes): Option<bytes> {
    var c :- Encode(2, chain);
    Some(TOKEN_BRIDGE + ([1] + ([0, 0] + (c + addr))))
  }

  function AllKeys(guardians: seq<bytes>): bytes {
    if guardians == [] then [] else AllKeys(guardians[..|guardians| - 1]) + guardians[|guardians| - 1]
  }

  /** Every key at its own place. */
  predicate KeysInPlace(b: bytes, guardians: seq<bytes>) {
    |b| == 20 * |guardians| && forall i | 0 <= i < |guardians| :: b[20 * i..20 * i + 20] == guardians[i]
  }

  lemma NextKey(b: bytes, guardians: seq<bytes>, key: bytes)
    requires KeysInPlace(b, guardians) && |key| == 20
    ensures KeysInPlace(b + key, guardians + [key])
  {
    forall i | 0 <= i <= |guardians| ensures (b + key)[20 * i..20 * i + 20] == (guardians + [key])[i] {
      if i < |guardians| {
        assert (b + key)[20 * i..20 * i + 20] == b[20 * i..20 * i + 20];
      } else {
        assert (b + key)[20 * i..20 * i + 20] == key;
      }
    }
  }

  /** The keys one after the other: proper keys stand at multiples of 20, which is where the
      contract reads them. */
  method JoinKeys(guardians: seq<bytes>) returns (b: bytes)
    ensures b == AllKeys(guardians)
    ensures (forall i | 0 <= i < |guardians| :: |guardians[i]| == 20) ==> KeysInPlace(b, guardians)
  {
    b := [];
    for i := 0 to |guardians|
      invariant b == AllKeys(guardians[..i])
      invariant (forall j | 0 <= j < i :: |guardians[j]| == 20) ==> KeysInPlace(b, guardians[..i])
    {
      assert guardians[..i + 1][..i] == guardians[..i];
      if forall j | 0 <= j < i + 1 :: |guardians[j]| == 20 {
        NextKey(b, guardians[..i], guardians[i]);
      }
      assert guardians[..i] + [guardians[i]] == guardians[..i + 1];
      b := b + guardians[i];
    }
    assert guardians[..|guardians|] == guardians;
  }

  function UpgradePayload(targetSet: nat, guardians: seq<bytes>): Option<bytes> {
    var t :- Encode(4, targetSet);
    var n :- Encode(1, |guardians|);
    Some(CORE + ([2] + ([0, 0] + (t + (n + AllKeys(guardians))))))
  }

  function SetFeePayload(amount: nat): Option<bytes> {
    var a :- Encode(32, amount);
    Some(CORE + ([3] + ([0, 8] + a)))
  }
}
