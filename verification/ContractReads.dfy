/** Generator, client and contracts together: what the generator writes into a message is what
    the contracts read out of it, and a message signed by a quorum of a stored set is one the
    core contract accepts. */
module ContractReads {
  import opened Teal
  import opened Transactions
  import opened VaaVerify
  import opened VerifyVaa
  import opened Replay
  import opened VaaPrint
  import VaaParse
  import VaaRoundTrip
  import opened BridgeTransfers
  import Client
  import Core
  import LocalBlob
  import Protocol
  import Signatures
  import SubmitVaa
  import TokenBridge

  // ---------- the envelope ----------

  /** Where things are in a generated VAA. */
  lemma SignedShape(keys: Keys, version: nat, index: nat, signers: seq<bytes>, h: Header, payload: bytes, vaa: bytes) returns (body: bytes)
    requires SignedVaa(keys, version, index, signers, h, payload) == Some(vaa)
    ensures Body(h, payload) == Some(body) && |signers| <= 255
    ensures |vaa| > 5 && vaa[5] == |signers| && FromBE(vaa[0..1]) == version && FromBE(vaa[1..5]) == index
    ensures SigStart(|signers|) <= |vaa| && vaa[SigStart(|signers|)..] == body
    ensures vaa[6..SigStart(|signers|)] == SignaturesTo(keys, keys.keccak(keys.keccak(body)), signers, |signers|)
  {
    hide Body, SignaturesTo, FromBE;
    Pow256();
    body := Body(h, payload).value;
    var sigs := SignaturesTo(keys, keys.keccak(keys.keccak(body)), signers, |signers|);
    var v, set_, count := Encode(1, version).value, Encode(4, index).value, Encode(1, |signers|).value;
    assert vaa[0..] == vaa;
    Take(vaa, 0, v, set_ + (count + (sigs + body)));
    Take(vaa, 1, set_, count + (sigs + body));
    Take(vaa, 5, count, sigs + body);
    Take(vaa, 6, sigs, body);
    FromToBE(version, 1);
    FromToBE(index, 4);
    EncodeByte(|signers|);
    assert vaa[5] == vaa[5..6][0];
  }

  lemma BodyShape(h: Header, payload: bytes, body: bytes)
    requires Body(h, payload) == Some(body) && |h.emitter| == 32
    ensures |body| >= 51 && body[8..42] == ToBE(h.chain, 2) + h.emitter
    ensures FromBE(body[42..50]) == h.sequence && h.sequence < U64 && body[51..] == payload
  {
    hide ToBE, FromBE;
    var ts, nonce, chain := Encode(4, h.timestamp).value, Encode(4, h.nonce).value, Encode(2, h.chain).value;
    var emitter, sequence, consistency := Bytes32(h.emitter).value, Encode(8, h.sequence).value, Encode(1, h.consistency).value;
    assert emitter == h.emitter;
    Pow256();
    FromToBE(h.sequence, 8);
    assert body[0..] == body;
    Take(body, 0, ts, nonce + (chain + (emitter + (sequence + (consistency + payload)))));
    Take(body, 4, nonce, chain + (emitter + (sequence + (consistency + payload))));
    Take(body, 8, chain, emitter + (sequence + (consistency + payload)));
    Take(body, 10, emitter, sequence + (consistency + payload));
    Take(body, 42, sequence, consistency + payload);
    Take(body, 50, consistency, payload);
    assert body[8..42] == body[8..10] + body[10..42];
  }

  /** The contracts identify a generated message by its chain, emitter and sequence number, and
      find its payload behind the signatures and the header. */
  lemma MessageRead(keys: Keys, index: nat, signers: seq<bytes>, h: Header, payload: bytes, vaa: bytes)
    requires SignedVaa(keys, 1, index, signers, h, payload) == Some(vaa) && |h.emitter| == 32
    ensures |vaa| > 5 && h.sequence < U64 && MessageOf(vaa) == Some(Message(ToBE(h.chain, 2) + h.emitter, h.sequence))
    ensures ReadInt(vaa, 1, 4) == Some(index)
    ensures PayloadAt(vaa, payload)
  {
    hide FromBE, ToBE, Body, SignedVaa, SignaturesTo;
    var body := SignedShape(keys, 1, index, signers, h, payload, vaa);
    BodyShape(h, payload, body);
    var off := SigStart(|signers|);
    SliceOfSlice(vaa, off, |vaa|, 8, 42);
    SliceOfSlice(vaa, off, |vaa|, 42, 50);
    SliceOfSlice(vaa, off, |vaa|, 51, |body|);
    assert vaa[off..|vaa|] == body;
    FromBEByte(vaa[0]);
    assert vaa[0..1] == [vaa[0]];
    FromBEBound(vaa[off + 42..off + 50]);
  }

  /** The payload starts after the signatures and 51 bytes of header. */
  predicate PayloadAt(vaa: bytes, payload: bytes) {
    && |vaa| > 5
    && vaa[5] as nat * 66 + 57 <= |vaa|
    && vaa[vaa[5] as nat * 66 + 57..] == payload
  }

  // ---------- signatures ----------

  lemma SignatureBytes(keys: Keys, version: nat, index: nat, signers: seq<bytes>, h: Header, payload: bytes, vaa: bytes, k: nat)
    requires SignedVaa(keys, version, index, signers, h, payload) == Some(vaa) && k < |signers|
    ensures |signers| <= 255 && Body(h, payload).Some? && SigStart(k + 1) <= |vaa|
    ensures SigAt(vaa, k) == SignatureAt(keys, keys.keccak(keys.keccak(Body(h, payload).value)), signers, k) && Signer(vaa, k) == k
  {
    hide Body, SignedVaa, SignaturesTo, FromBE;
    var body := SignedShape(keys, version, index, signers, h, payload, vaa);
    var hash := keys.keccak(keys.keccak(body));
    VaaRoundTrip.SignatureIn(keys, hash, signers, |signers|, k);
    SliceOfSlice(vaa, 6, SigStart(|signers|), 66 * k, 66 * k + 66);
    assert SigAt(vaa, k)[0] == vaa[SigStart(k)];
  }

  /** The signers hold the first keys of a set: what each signs, cut into r, s and the recovery
      id, recovers to its key. */
  ghost predicate SignersMatch(crypto: Crypto, keys: Keys, signers: seq<bytes>, hash: bytes, setKeys: bytes) {
    && |signers| <= 255 && 20 * |signers| <= |setKeys|
    && forall k: nat | k < |signers| :: SignsAs(crypto, hash, keys.sign(hash, signers[k]), setKeys[20 * k..20 * k + 20])
  }

  predicate SignsAs(crypto: Crypto, hash: bytes, sig: Signature, key: bytes) {
    Signatures.RecoversTo(crypto, hash, sig[64], sig[0..32], sig[32..64], key)
  }

  lemma SignatureKey(crypto: Crypto, keys: Keys, hash: bytes, signers: seq<bytes>, k: nat, key: bytes)
    requires k < |signers| && k < 256 && SignsAs(crypto, hash, keys.sign(hash, signers[k]), key)
    ensures KeyOf(crypto, hash, SignatureAt(keys, hash, signers, k)) == Some(key)
  {
    hide KeyOf, Signatures.RecoversTo;
    var sig, record := keys.sign(hash, signers[k]), SignatureAt(keys, hash, signers, k);
    assert record[65] == sig[64] && record[1..33] == sig[0..32] && record[33..65] == sig[32..64];
    Signatures.RecordExactly(crypto, record, hash, key);
  }

  /** A message generated by more than two thirds, and at most the first 32, of a set's
      guardians carries a quorum of it. With `SubmitVaa.ClientCompleteness` it is therefore
      accepted. */
  lemma GeneratedIsSigned(crypto: Crypto, keys: Keys, version: nat, index: nat, signers: seq<bytes>, h: Header, payload: bytes, vaa: bytes, set_: StoredSet)
    requires SignedVaa(keys, version, index, signers, h, payload) == Some(vaa) && crypto.keccak == keys.keccak
    requires |set_.keys| == 20 * set_.n && Quorate(set_.n, |signers|) && |signers| <= 32
    requires Body(h, payload).Some? && SignersMatch(crypto, keys, signers, keys.keccak(keys.keccak(Body(h, payload).value)), set_.keys)
    ensures SubmitVaa.WellSigned(crypto, set_, vaa)
  {
    hide Body, SignedVaa, SignaturesTo, FromBE, KeyOf, SignatureAt, SignsAs;
    var body := SignedShape(keys, version, index, signers, h, payload, vaa);
    assert Digest(crypto, vaa) == Some(keys.keccak(keys.keccak(body)));
    forall k | 0 <= k < |signers| ensures SignedBy(crypto, set_.keys, vaa, Digest(crypto, vaa).value, k) && Signer(vaa, k) == k {
      SignatureBytes(keys, version, index, signers, h, payload, vaa, k);
      assert SignsAs(crypto, keys.keccak(keys.keccak(body)), keys.sign(keys.keccak(keys.keccak(body)), signers[k]), set_.keys[20 * k..20 * k + 20]);
      SignatureKey(crypto, keys, keys.keccak(keys.keccak(body)), signers, k, set_.keys[20 * k..20 * k + 20]);
    }
  }

  /** From the generator through the client to the contract: what a quorum of the stored set
      signs is submitted and accepted. */
  lemma GeneratedIsAccepted(env: Core.Env, st: Core.CoreState, pages: LocalBlob.Pages, set_: StoredSet,
                            keys: Keys, version: nat, index: nat, signers: seq<bytes>, h: Header, payload: bytes, vaa: bytes,
                            accts: seq<bytes>, sender: bytes, fee: uint64, group: Group, now: uint64)
    requires SignedVaa(keys, version, index, signers, h, payload) == Some(vaa) && env.crypto.keccak == keys.keccak
    requires Quorate(set_.n, |signers|) && |signers| <= 32
    requires Body(h, payload).Some? && SignersMatch(env.crypto, keys, signers, keys.keccak(keys.keccak(Body(h, payload).value)), set_.keys)
    requires SubmitVaa.Usable(env, st, vaa, accts, set_, now)
    requires LocalBlob.Paged(pages) && st.cells[accts[1]] == LocalBlob.CellOf(pages)
    requires Client.NonzeroBefore(LocalBlob.CellOf(pages), SubmitVaa.KeyPages(set_.n))
    requires SubmitVaa.Submitted(env, vaa, Client.NonzeroFrom(pages, 0), accts, sender, fee, group)
    requires forall i | SubmitVaa.Batches(vaa) <= i < |group| :: group[i].sender != env.verifier
    ensures Authorised(env.crypto, env.verifier, group) && SubmitVaa.Batches(vaa) < |group|
    ensures
      Core.After(env, st, group, now, SubmitVaa.Batches(vaa) + 1)
        == Some((st, [Protocol.Verified(vaa, FromBE(vaa[1..5]), now)]))
  {
    LoadedKeys(st.cells[accts[1]], set_);
    hide *;
    GeneratedIsSigned(env.crypto, keys, version, index, signers, h, payload, vaa, set_);
    SubmitVaa.ClientCompleteness(env, st, pages, set_, vaa, accts, sender, fee, group, now);
  }

  lemma LoadedKeys(c: LocalBlob.Cell, set_: StoredSet)
    requires LoadSet(c) == Some(set_)
    ensures |set_.keys| == 20 * set_.n
  {
    hide FromBE;
  }

  // ---------- payloads ----------

  lemma UpgradeFields(vaa: bytes, start: nat, targetSet: nat, n: byte, all: bytes)
    requires start <= |vaa| && targetSet < Pow(256, 4)
    requires vaa[start..] == CORE + ([2] + ([0, 0] + (ToBE(targetSet, 4) + ([n] + all))))
    ensures start + 40 <= |vaa| && vaa[start..start + 32] == CORE && vaa[start + 32] == 2 && vaa[start + 33..start + 35] == [0, 0]
    ensures ReadInt(vaa, start + 35, 4) == Some(targetSet)
    ensures vaa[start + 39] == n && vaa[start + 39..] == [n] + all
  {
    hide FromBE, ToBE;
    var t := ToBE(targetSet, 4);
    Take(vaa, start, CORE, [2] + ([0, 0] + (t + ([n] + all))));
    Take(vaa, start + 32, [2], [0, 0] + (t + ([n] + all)));
    Take(vaa, start + 33, [0, 0], t + ([n] + all));
    TakeInt(vaa, start + 35, t, [n] + all);
    FromToBE(targetSet, 4);
    Take(vaa, start + 39, [n], all);
    assert vaa[start + 32] == vaa[start + 32..start + 33][0];
    assert vaa[start + 39] == vaa[start + 39..start + 40][0];
  }

  lemma RecordRead(vaa: bytes, off: nat, n: byte, all: bytes)
    requires |vaa| > 5 && off == Core.ActionOffset(vaa[5]) + 7 && off < |vaa|
    requires n > 0 && |all| == 20 * n && vaa[off] == n && vaa[off..] == [n] + all
    ensures Core.SetRecord(vaa) == Some([n] + all)
  {
    hide FromBE;
    assert vaa[off..off + (1 + 20 * n)] == [n] + all;
  }

  /** A generated guardian set, as the core contract reads it. */
  lemma UpgradeRead(vaa: bytes, targetSet: nat, guardians: seq<bytes>, p: bytes)
    requires forall i | 0 <= i < |guardians| :: |guardians[i]| == 20
    requires UpgradePayload(targetSet, guardians) == Some(p) && PayloadAt(vaa, p) && |guardians| > 0
    ensures
      var off := Core.ActionOffset(vaa[5]);
      && off + 7 < |vaa| && vaa[off] == 2 && vaa[off + 1..off + 3] == Core.ANY_CHAIN
      && vaa[off - 32..off] == Core.CORE_MODULE
      && ReadInt(vaa, off + 3, 4) == Some(targetSet)
      && |guardians| <= 255 && Core.SetRecord(vaa) == Some([|guardians|] + AllKeys(guardians))
  {
    hide FromBE, AllKeys, ToBE, Core.SetRecord, ReadInt;
    var num: nat := vaa[5];
    var start := num * 66 + 57;
    VaaRoundTrip.KeysLength(guardians);
    EncodeByte(|guardians|);
    UpgradeFields(vaa, start, targetSet, |guardians|, AllKeys(guardians));
    RecordRead(vaa, start + 39, |guardians|, AllKeys(guardians));
  }

  lemma FeeFields(vaa: bytes, amount: uint64, p: bytes)
    requires SetFeePayload(amount) == Some(p) && PayloadAt(vaa, p)
    ensures
      var start := vaa[5] as nat * 66 + 57;
      && ReadInt(vaa, 5, 1) == Some(vaa[5]) && Core.ActionOffset(vaa[5]) == start + 32 && start + 67 <= |vaa|
      && vaa[start..start + 32] == Core.CORE_MODULE && vaa[start + 32] == 3
      && vaa[start + 33..start + 35] == Core.THIS_CHAIN && ReadInt(vaa, start + 59, 8) == Some(amount)
  {
    hide FromBE, ToBE;
    var num: nat := vaa[5];
    var start := num * 66 + 57;
    FromBEByte(vaa[5]);
    Take(vaa, start, CORE, [3] + ([0, 8] + ToBE(amount, 32)));
    Take(vaa, start + 32, [3], [0, 8] + ToBE(amount, 32));
    Take(vaa, start + 33, [0, 8], ToBE(amount, 32));
    assert vaa[start + 32] == vaa[start + 32..start + 33][0];
    Pow256();
    LowBytes(amount, 32, 8);
    var wide := ToBE(amount, 32);
    assert wide[24..] == wide[24..32];
    assert vaa[start + 35..][24..32] == vaa[start + 59..start + 67];
  }

  /** A generated fee message sets exactly that fee. */
  lemma FeeRead(env: Core.Env, st: Core.CoreState, tx: Txn, isBoot: bool, now: uint64, amount: uint64, p: bytes, g: (Core.CoreState, seq<Protocol.Event>))
    requires |tx.args| > 1 && SetFeePayload(amount) == Some(p) && PayloadAt(tx.args[1], p)
    requires Core.HandleGovernance(env, st, tx, isBoot, now) == Some(g)
    ensures g == (st.(messageFee := amount), [])
  {
    hide Core.InstallSet, SetFeePayload, PayloadAt;
    FeeFields(tx.args[1], amount, p);
  }

  /** The last eight bytes of a wide number hold it if it fits a word. */
  lemma {:induction false} LowBytes(n: nat, width: nat, k: nat)
    requires k <= width && n < Pow(256, k)
    ensures FromBE(ToBE(n, width)[width - k..]) == n
  {
    if k == 0 {
      assert ToBE(n, width)[width..] == [];
    } else {
      var s := ToBE(n, width);
      LowBytes(n / 256, width - 1, k - 1);
      assert s == ToBE(n / 256, width - 1) + [n % 256];
      var tail := s[width - k..];
      assert tail[..k - 1] == ToBE(n / 256, width - 1)[width - k..];
      assert tail[k - 1] == n % 256;
    }
  }

  lemma EncodedWidth(width: nat, n: nat)
    requires Encode(width, n).Some?
    ensures Encode(width, n).value == ToBE(n, width)
  {
  }

  lemma RegistrationFields(vaa: bytes, chain: nat, addr: bytes, p: bytes)
    requires |addr| == 32 && RegisterChainPayload(chain, addr) == Some(p) && PayloadAt(vaa, p)
    ensures
      var start := vaa[5] as nat * 66 + 57;
      && start + 69 <= |vaa| && ReadInt(vaa, start + 32, 1) == Some(1)
      && vaa[start + 35..start + 37] == ToBE(chain, 2) && vaa[start + 37..start + 69] == addr
  {
    hide FromBE, ToBE, ReadInt, Encode;
    var start := vaa[5] as nat * 66 + 57;
    var c := Encode(2, chain).value;
    EncodedWidth(2, chain);
    Take(vaa, start, TOKEN_BRIDGE, [1] + ([0, 0] + (c + addr)));
    TakeInt(vaa, start + 32, [1], [0, 0] + (c + addr));
    FromBEByte(1);
    Take(vaa, start + 33, [0, 0], c + addr);
    Take(vaa, start + 35, c, addr);
    assert addr + [] == addr;
    Take(vaa, start + 37, addr, []);
  }

  /** The bridge's registration branch. */
  lemma RegistrationBranch(env: TokenBridge.Env, st: TokenBridge.BridgeState, group: seq<Txn>, t: nat, out: TokenBridge.Outside,
                           r: (TokenBridge.BridgeState, seq<TokenBridge.Entry>))
    requires t < |group| && |group[t].args| > 1 && |group[t].args[1]| > 5
    requires ReadInt(group[t].args[1], group[t].args[1][5] as nat * 66 + 89, 1) == Some(1)
    requires TokenBridge.Governance(env, st, group, t, out) == Some(r)
    ensures
      var vaa, start := group[t].args[1], group[t].args[1][5] as nat * 66 + 57;
      && start + 69 <= |vaa| && vaa[start + 35..start + 37] !in st.chains
      && r.0.chains == st.chains[vaa[start + 35..start + 37] := vaa[start + 37..start + 69]]
      && r.0.updateHash == st.updateHash && r.0.ledger == st.ledger
  {
    hide ReadInt, Mark, MessageOf, TokenBridge.VerifiesFor;
  }

  /** A generated registration gives its chain exactly its emitter, and changes no other. */
  lemma RegistrationRead(env: TokenBridge.Env, st: TokenBridge.BridgeState, group: seq<Txn>, t: nat, out: TokenBridge.Outside,
                         chain: nat, addr: bytes, p: bytes, r: (TokenBridge.BridgeState, seq<TokenBridge.Entry>))
    requires t < |group| && |group[t].args| > 1 && |addr| == 32
    requires RegisterChainPayload(chain, addr) == Some(p) && PayloadAt(group[t].args[1], p)
    requires TokenBridge.Governance(env, st, group, t, out) == Some(r)
    ensures r.0.chains == st.chains[ToBE(chain, 2) := addr] && ToBE(chain, 2) !in st.chains
    ensures r.0.updateHash == st.updateHash && r.0.ledger == st.ledger
  {
    hide ToBE, RegisterChainPayload, TokenBridge.Governance, ReadInt;
    RegistrationFields(group[t].args[1], chain, addr, p);
    RegistrationBranch(env, st, group, t, out, r);
  }

  /** A generated transfer, as the bridge reads it, provided its amounts fit a word. */
  lemma TransferRead(vaa: bytes, amount: nat, token: bytes, tokenChain: nat, to: bytes, toChain: nat, fee: nat, p: bytes)
    requires |token| <= 32 && |to| <= 32 && fee <= amount && amount * 100000000 < U64
    requires TransferPayload(amount, token, tokenChain, to, toChain, fee) == Some(p) && PayloadAt(vaa, p)
    ensures fee * 100000000 < U64
    ensures TokenBridge.ReadTransfer(vaa, vaa[5] as nat * 66 + 57) == Some(TokenBridge.Transfer(
      1, amount * 100000000, TokenBridge.LeftPad(token), tokenChain, TokenBridge.LeftPad(to), toChain, fee * 100000000))
  {
    hide ToBE, FromBE, Padding, TokenBridge.LeftPad, TokenBridge.Payload, TokenBridge.ReadTransfer, Itob;
    var num: nat := vaa[5];
    var off := num * 66 + 57;
    var a, f := amount * 100000000, fee * 100000000;
    WideNumber(a);
    WideNumber(f);
    FromToBE(tokenChain, 2);
    FromToBE(toChain, 2);
    var chain, toC := Encode(2, tokenChain).value, Encode(2, toChain).value;
    SamePayload(a, token, chain, to, toC, f, p);
    PayloadRead(vaa, off, false, a, token, chain, to, toC, f, TokenBridge.ZEROS_24 + Itob(f));
  }

  /** The generator's transfer and the bridge's have the same layout. */
  lemma SamePayload(a: uint64, token: bytes, chain: bytes, to: bytes, toC: bytes, f: uint64, p: bytes)
    requires |token| <= 32 && |to| <= 32
    requires ToBE(a, 32) == TokenBridge.ZEROS_24 + Itob(a) && ToBE(f, 32) == TokenBridge.ZEROS_24 + Itob(f)
    requires p == [1] + (ToBE(a, 32) + ((Padding(|token|) + token) + (chain + ((Padding(|to|) + to) + (toC + ToBE(f, 32))))))
    ensures p == TokenBridge.Payload(false, a, token, chain, to, toC, TokenBridge.ZEROS_24 + Itob(f))
  {
    hide ToBE, Itob;
    var rest := TokenBridge.LeftPad(token) + (chain + (TokenBridge.LeftPad(to) + (toC + ToBE(f, 32))));
    assert TokenBridge.ZEROS_24 + Itob(a) + rest == TokenBridge.ZEROS_24 + (Itob(a) + rest);
  }

  lemma WideNumber(n: uint64)
    ensures ToBE(n, 32) == TokenBridge.ZEROS_24 + Itob(n)
  {
    var s, z := ToBE(n, 32), TokenBridge.ZEROS_24 + Itob(n);
    Pow256();
    LeadingZeros(24, Itob(n));
    ItobBtoi(n);
    WideBound(n);
    FromToBE(n, 32);
    FromBEInjective(s, z);
  }

  lemma WideBound(n: uint64)
    ensures n < Pow(256, 32)
  {
    Pow256();
    PowMonotone(8, 32);
  }

  lemma AttestFields(vaa: bytes, off: nat, tok: bytes, c: bytes, d: bytes, sym: bytes, nm: bytes)
    requires |tok| == |sym| == |nm| == 32 && |c| == 2 && |d| == 1
    requires off <= |vaa| && vaa[off..] == [2] + (tok + (c + (d + (sym + nm))))
    ensures TokenBridge.ReadAttestation(vaa, off) == Some(TokenBridge.Attestation(
      tok, FromBE(c), if FromBE(d) > 8 then 8 else FromBE(d), Slice(TokenBridge.TrimBytes(sym), 0, 8), TokenBridge.TrimBytes(nm)))
  {
    hide FromBE, TokenBridge.TrimBytes, ReadInt, Slice;
    FromBEByte(2);
    TakeInt(vaa, off, [2], tok + (c + (d + (sym + nm))));
    Take(vaa, off + 1, tok, c + (d + (sym + nm)));
    TakeInt(vaa, off + 33, c, d + (sym + nm));
    TakeInt(vaa, off + 35, d, sym + nm);
    Take(vaa, off + 36, sym, nm);
    assert nm + [] == nm;
    Take(vaa, off + 68, nm, []);
  }

  /** A generated attestation, as the bridge reads it: names without zero bytes come through,
      the symbol cut to eight. */
  lemma AttestRead(vaa: bytes, token: bytes, chain: nat, decimals: nat, symbol: bytes, name: bytes, p: bytes)
    requires |token| <= 32 && |symbol| <= 32 && |name| <= 32 && 0 !in symbol && 0 !in name
    requires AttestPayload(token, chain, decimals, symbol, name) == Some(p) && PayloadAt(vaa, p)
    ensures TokenBridge.ReadAttestation(vaa, vaa[5] as nat * 66 + 57) == Some(TokenBridge.Attestation(
      TokenBridge.LeftPad(token), chain, if decimals > 8 then 8 else decimals, Slice(symbol, 0, 8), name))
  {
    hide FromBE, ToBE, TokenBridge.TrimBytes, TokenBridge.ReadAttestation, Slice;
    FromToBE(chain, 2);
    FromToBE(decimals, 1);
    TrimPadded(symbol, 32 - |symbol|);
    TrimPadded(name, 32 - |name|);
    AttestFields(vaa, vaa[5] as nat * 66 + 57, Padding(|token|) + token, ToBE(chain, 2), ToBE(decimals, 1), symbol + Padding(|symbol|), name + Padding(|name|));
  }

  lemma {:induction false} TrimPadded(s: bytes, n: nat)
    requires 0 !in s
    ensures TokenBridge.TrimBytes(s + Zeros(n)) == s
  {
    if s == [] {
      assert s + Zeros(n) == Zeros(n);
    } else {
      assert s[0] in s;
      assert (s + Zeros(n))[1..] == s[1..] + Zeros(n);
      TrimPadded(s[1..], n);
    }
  }
}
