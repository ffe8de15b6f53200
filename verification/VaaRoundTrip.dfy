/** What the generator builds, the parser reads back, each message as its own kind; with one
    family of exceptions, which is described exactly. */
module VaaRoundTrip {
  import opened Teal
  import opened VaaPrint
  import opened VaaParse
  import opened Replay
  import Client
  import Template

  /** Reading the field in front of the cursor. */
  lemma Next(s: bytes, off: nat, f: bytes, rest: bytes)
    requires Rest(s, off) == f + rest
    ensures Slice(s, off, off + |f|) == f && Rest(s, off + |f|) == rest
  {
    SliceRest(s, off, 0, |f|);
    SliceRest(s, off, |f|, |f|);
    assert (f + rest)[0..|f|] == f;
    assert (f + rest)[|f|..] == rest;
  }

  lemma NextInt(s: bytes, off: nat, width: nat, n: nat, rest: bytes)
    requires Encode(width, n).Some? && Rest(s, off) == Encode(width, n).value + rest
    ensures Int(s, off, off + width) == n && Slice(s, off, off + width) == ToBE(n, width) && Rest(s, off + width) == rest
  {
    Next(s, off, ToBE(n, width), rest);
    FromToBE(n, width);
  }

  lemma RestAll(s: bytes)
    ensures Rest(s, 0) == s
  {
  }

  // ---------- the envelope ----------

  lemma {:induction false} SignatureIn(keys: Keys, hash: bytes, signers: seq<bytes>, n: nat, i: nat)
    requires i < n <= |signers| && n <= 256
    ensures SignaturesTo(keys, hash, signers, n)[66 * i..66 * i + 66] == SignatureAt(keys, hash, signers, i)
  {
    var s := SignaturesTo(keys, hash, signers, n - 1);
    if i < n - 1 {
      SignatureIn(keys, hash, signers, n - 1, i);
      assert (s + SignatureAt(keys, hash, signers, n - 1))[66 * i..66 * i + 66] == s[66 * i..66 * i + 66];
    }
  }

  lemma {:induction false} SigsAt(vaa: bytes, n: nat)
    ensures |Sigs(vaa, n)| == n
    ensures forall i | 0 <= i < n :: Sigs(vaa, n)[i] == Slice(vaa, 6 + i * 66, 6 + i * 66 + 66)
  {
    if n > 0 { SigsAt(vaa, n - 1); }
  }

  /** Everything the envelope says is read back. */
  ghost predicate EnvelopeRead(p: Parsed, keys: Keys, version: nat, index: nat, signers: seq<bytes>, h: Header, body: bytes)
  {
    && p.version == version && p.index == index && p.siglen == |signers| == |p.sigs| <= 255
    && p.digest == body
    && (forall i | 0 <= i < |signers| :: p.sigs[i] == SignatureAt(keys, keys.keccak(keys.keccak(body)), signers, i))
    && p.signatures == SignaturesTo(keys, keys.keccak(keys.keccak(body)), signers, |signers|)
  }

  ghost predicate HeaderRead(p: Parsed, h: Header) {
    && p.timestamp == h.timestamp && p.nonce == h.nonce
    && p.chain == h.chain && p.chainRaw == ToBE(h.chain, 2)
    && Some(p.emitter) == Bytes32(h.emitter)
    && p.sequence == h.sequence && p.consistency == h.consistency
  }

  lemma BodyFields(h: Header, payload: bytes, body: bytes)
    requires Body(h, payload) == Some(body)
    ensures Int(body, 0, 4) == h.timestamp && Int(body, 4, 8) == h.nonce
    ensures Int(body, 8, 10) == h.chain && Slice(body, 8, 10) == ToBE(h.chain, 2)
    ensures Some(Slice(body, 10, 42)) == Bytes32(h.emitter)
    ensures Int(body, 42, 50) == h.sequence && Int(body, 50, 51) == h.consistency
    ensures Rest(body, 51) == payload
  {
    hide Slice, Rest, Int, Encode, Bytes32;
    var ts, nonce, chain := Encode(4, h.timestamp).value, Encode(4, h.nonce).value, Encode(2, h.chain).value;
    var emitter, sequence, consistency := Bytes32(h.emitter).value, Encode(8, h.sequence).value, Encode(1, h.consistency).value;
    RestAll(body);
    NextInt(body, 0, 4, h.timestamp, nonce + (chain + (emitter + (sequence + (consistency + payload)))));
    NextInt(body, 4, 4, h.nonce, chain + (emitter + (sequence + (consistency + payload))));
    NextInt(body, 8, 2, h.chain, emitter + (sequence + (consistency + payload)));
    Next(body, 10, emitter, sequence + (consistency + payload));
    NextInt(body, 42, 8, h.sequence, consistency + payload);
    NextInt(body, 50, 1, h.consistency, payload);
  }

  lemma EnvelopeFields(keys: Keys, version: nat, index: nat, signers: seq<bytes>, h: Header, payload: bytes, vaa: bytes) returns (body: bytes)
    requires SignedVaa(keys, version, index, signers, h, payload) == Some(vaa)
    ensures Body(h, payload) == Some(body) && |signers| <= 255
    ensures Int(vaa, 0, 1) == version && Int(vaa, 1, 5) == index && Int(vaa, 5, 6) == |signers|
    ensures Slice(vaa, 6, 6 + 66 * |signers|) == SignaturesTo(keys, keys.keccak(keys.keccak(body)), signers, |signers|)
    ensures Rest(vaa, 6 + 66 * |signers|) == body
  {
    hide Slice, Rest, Int, Body, SignaturesTo;
    Pow256();
    body := Body(h, payload).value;
    var sigs := SignaturesTo(keys, keys.keccak(keys.keccak(body)), signers, |signers|);
    var set_, count := Encode(4, index).value, Encode(1, |signers|).value;
    RestAll(vaa);
    NextInt(vaa, 0, 1, version, set_ + (count + (sigs + body)));
    NextInt(vaa, 1, 4, index, count + (sigs + body));
    NextInt(vaa, 5, 1, |signers|, sigs + body);
    Next(vaa, 6, sigs, body);
  }

  lemma SigsRead(keys: Keys, hash: bytes, signers: seq<bytes>, vaa: bytes)
    requires |signers| <= 255
    requires Slice(vaa, 6, 6 + 66 * |signers|) == SignaturesTo(keys, hash, signers, |signers|)
    ensures |Sigs(vaa, |signers|)| == |signers|
    ensures forall i | 0 <= i < |signers| :: Sigs(vaa, |signers|)[i] == SignatureAt(keys, hash, signers, i)
  {
    hide SignaturesTo, SignatureAt, Sigs;
    var n := |signers|;
    SigsAt(vaa, n);
    forall i | 0 <= i < n ensures Sigs(vaa, n)[i] == SignatureAt(keys, hash, signers, i) {
      SignatureIn(keys, hash, signers, n, i);
      SliceOfSlice(vaa, 6, 6 + 66 * n, 66 * i, 66 * i + 66);
    }
  }

  /** For up to 255 signers and any payload, the header is read back and the payload is what
      is left. */
  lemma HeaderRoundTrip(keys: Keys, version: nat, index: nat, signers: seq<bytes>, h: Header, payload: bytes, vaa: bytes) returns (body: bytes)
    requires SignedVaa(keys, version, index, signers, h, payload) == Some(vaa)
    ensures Body(h, payload) == Some(body)
    ensures EnvelopeRead(HeaderOf(vaa).0, keys, version, index, signers, h, body) && HeaderRead(HeaderOf(vaa).0, h)
    ensures HeaderOf(vaa).1 == payload
  {
    hide Slice, Rest, Int, SignaturesTo, SignatureAt, Body, SignedVaa, Sigs, Bytes32, ToBE;
    body := EnvelopeFields(keys, version, index, signers, h, payload, vaa);
    assert Int(vaa, 5, 6) * 66 + 6 == 6 + 66 * |signers|;
    BodyFields(h, payload, body);
    SigsRead(keys, keys.keccak(keys.keccak(body)), signers, vaa);
  }

  predicate SameHeader(r: Parsed, q: Parsed) {
    && q.version == r.version && q.index == r.index && q.siglen == r.siglen && q.signatures == r.signatures && q.sigs == r.sigs
    && q.digest == r.digest && q.timestamp == r.timestamp && q.nonce == r.nonce && q.chainRaw == r.chainRaw && q.chain == r.chain
    && q.emitter == r.emitter && q.sequence == r.sequence && q.consistency == r.consistency
  }

  lemma StagesKeepHeader(r: Parsed, p: bytes)
    ensures SameHeader(r, BridgeOf(r, p).0) && SameHeader(r, CoreOf(r, p).0) && SameHeader(r, AttestOf(r, p).0)
    ensures SameHeader(r, TransferOf(r, p).0) && SameHeader(r, PayloadTransferOf(r, p))
  {
    hide Int, Slice;
  }

  /** The payload's stages leave the envelope's fields alone. */
  lemma ContentsKeepHeader(r: Parsed, p: bytes)
    ensures SameHeader(r, Contents(r, p))
  {
    hide BridgeOf, CoreOf, AttestOf, TransferOf, PayloadTransferOf;
    var s1 := BridgeOf(r, p);
    var s2 := CoreOf(s1.0, s1.1);
    var s3 := AttestOf(s2.0, s2.1);
    var s4 := TransferOf(s3.0, s3.1);
    StagesKeepHeader(r, p);
    StagesKeepHeader(s1.0, s1.1);
    StagesKeepHeader(s2.0, s2.1);
    StagesKeepHeader(s3.0, s3.1);
    StagesKeepHeader(s4.0, s4.1);
  }

  // ---------- the kinds ----------

  lemma Lead(p: bytes, b: byte, rest: bytes)
    requires p == [b] + rest && b != 0
    ensures Slice(p, 0, 32) != TOKEN_BRIDGE && Slice(p, 0, 32) != CORE
    ensures Int(p, 0, 1) == b && Rest(p, 1) == rest
  {
    FromBEByte(b);
    RestAll(p);
    Next(p, 0, [b], rest);
    assert |p| >= 32 ==> Slice(p, 0, 32)[0] == b;
    assert TOKEN_BRIDGE[0] == 0 && CORE[0] == 0;
  }

  lemma TransferContents(r: Parsed, amount: nat, token: bytes, tokenChain: nat, to: bytes, toChain: nat, fee: nat, p: bytes)
    requires |token| <= 32 && |to| <= 32
    requires TransferPayload(amount, token, tokenChain, to, toChain, fee) == Some(p)
    ensures
      var q := Contents(r, p);
      && q.meta == Transfer && q.kind == Some(1)
      && q.amount == Some(ToBE(amount * 100000000, 32))
      && q.contract == Some(Zeros(32 - |token|) + token) && q.fromChain == Some(tokenChain)
      && q.toAddress == Some(Zeros(32 - |to|) + to) && q.toChain == Some(toChain)
      && q.fee == Some(ToBE(fee * 100000000, 32))
  {
    hide Slice, Rest, Int, Encode;
    var a, c, t, f := Encode(32, amount * 100000000).value, Encode(2, tokenChain).value, Encode(2, toChain).value, Encode(32, fee * 100000000).value;
    var tok, dest := Zeros(32 - |token|) + token, Zeros(32 - |to|) + to;
    Lead(p, 1, a + (tok + (c + (dest + (t + f)))));
    NextInt(p, 1, 32, amount * 100000000, tok + (c + (dest + (t + f))));
    Next(p, 33, tok, c + (dest + (t + f)));
    NextInt(p, 65, 2, tokenChain, dest + (t + f));
    Next(p, 67, dest, t + f);
    NextInt(p, 99, 2, toChain, f);
    assert f + [] == f;
    NextInt(p, 101, 32, fee * 100000000, []);
  }

  lemma AttestContents(r: Parsed, token: bytes, chain: nat, decimals: nat, symbol: bytes, name: bytes, p: bytes)
    requires |token| <= 32 && |symbol| <= 32 && |name| <= 32
    requires AttestPayload(token, chain, decimals, symbol, name) == Some(p)
    ensures
      var q := Contents(r, p);
      && q.meta == Attest && q.kind == Some(2)
      && q.contract == Some(Zeros(32 - |token|) + token) && q.fromChain == Some(chain) && q.decimals == Some(decimals)
      && q.symbol == Some(symbol + Zeros(32 - |symbol|)) && q.name == Some(name + Zeros(32 - |name|))
  {
    hide Slice, Rest, Int, Encode;
    var c, d := Encode(2, chain).value, Encode(1, decimals).value;
    var tok, sym, nm := Zeros(32 - |token|) + token, symbol + Zeros(32 - |symbol|), name + Zeros(32 - |name|);
    Lead(p, 2, tok + (c + (d + (sym + nm))));
    Next(p, 1, tok, c + (d + (sym + nm)));
    NextInt(p, 33, 2, chain, d + (sym + nm));
    NextInt(p, 35, 1, decimals, sym + nm);
    Next(p, 36, sym, nm);
    assert nm + [] == nm;
    Next(p, 68, nm, []);
  }

  lemma RegisterChainContents(r: Parsed, chain: nat, addr: bytes, p: bytes)
    requires |addr| == 32 && RegisterChainPayload(chain, addr) == Some(p)
    ensures
      var q := Contents(r, p);
      && q.meta == RegisterChain && q.module_ == Some(TOKEN_BRIDGE) && q.action == Some(1)
      && q.targetChain == Some(0) && q.emitterChain == Some(chain) && q.targetEmitter == Some(addr)
  {
    hide Slice, Rest, Int, Encode;
    var c := Encode(2, chain).value;
    RestAll(p);
    Next(p, 0, TOKEN_BRIDGE, [1] + ([0, 0] + (c + addr)));
    SmallInts();
    NextInt(p, 32, 1, 1, [0, 0] + (c + addr));
    NextInt(p, 33, 2, 0, c + addr);
    NextInt(p, 35, 2, chain, addr);
    assert addr + [] == addr;
    Next(p, 37, addr, []);
    ShortRest(Rest(p, 69));
  }

  lemma SmallInts()
    ensures Encode(1, 1) == Some([1]) && Encode(1, 2) == Some([2]) && Encode(2, 0) == Some([0, 0])
  {
    EncodeByte(1);
    EncodeByte(2);
    Pow256();
    assert ToBE(0, 2) == ToBE(0, 1) + [0] == [0, 0];
  }

  lemma ShortRest(p: bytes)
    requires |p| < 32
    ensures Slice(p, 0, 32) != CORE
  {
  }

  lemma {:induction false} KeysLength(guardians: seq<bytes>)
    requires forall i | 0 <= i < |guardians| :: |guardians[i]| == 20
    ensures |AllKeys(guardians)| == 20 * |guardians|
  {
    if guardians != [] { KeysLength(guardians[..|guardians| - 1]); }
  }

  lemma TopByte(n: nat)
    requires n < Pow(256, 4)
    ensures ToBE(n, 4)[0] == n / 0x100_0000
  {
    Pow256();
    assert ToBE(n, 4) == ToBE(n / 256, 3) + [n % 256];
    assert ToBE(n / 256, 3) == ToBE(n / 256 / 256, 2) + [n / 256 % 256];
    assert ToBE(n / 256 / 256, 2) == ToBE(n / 256 / 256 / 256, 1) + [n / 256 / 256 % 256];
    assert ToBE(n / 256 / 256 / 256, 1) == ToBE(n / 256 / 256 / 256 / 256, 0) + [n / 256 / 256 / 256 % 256];
  }

  /** The new index is always read, but the parser's cursor stays in front of it, so the last
      test takes the index's first byte for a message type: a set of seven or more guardians
      whose index starts with byte 3 is taken for a transfer with payload. Every other upgrade
      is recognised. */
  lemma UpgradeContents(r: Parsed, targetSet: nat, guardians: seq<bytes>, p: bytes)
    requires forall i | 0 <= i < |guardians| :: |guardians[i]| == 20
    requires UpgradePayload(targetSet, guardians) == Some(p)
    ensures
      var q := Contents(r, p);
      && q.module_ == Some(CORE) && q.action == Some(2) && q.targetChain == Some(0) && q.newSetIndex == Some(targetSet)
      && q.meta == (if targetSet / 0x100_0000 == 3 && |guardians| >= 7 then TransferWithPayload else CoreGovernance)
  {
    hide Slice, Rest, Int;
    var t, n := Encode(4, targetSet).value, Encode(1, |guardians|).value;
    var tail := n + AllKeys(guardians);
    KeysLength(guardians);
    RestAll(p);
    Next(p, 0, CORE, [2] + ([0, 0] + (t + tail)));
    assert CORE[30] != TOKEN_BRIDGE[30];
    SmallInts();
    NextInt(p, 32, 1, 2, [0, 0] + (t + tail));
    NextInt(p, 33, 2, 0, t + tail);
    NextInt(p, 35, 4, targetSet, tail);
    var rest := Rest(p, 35);
    TopByte(targetSet);
    FirstByte(rest, t[0]);
  }

  lemma FirstByte(s: bytes, b: byte)
    requires |s| > 0 && s[0] == b
    ensures Int(s, 0, 1) == b
  {
    FromBEByte(b);
    assert s[0..1] == [b];
  }

  // ---------- whole messages ----------

  /** What the parser says about the envelope of a message it was given whole. */
  ghost predicate Faithful(p: Parsed, keys: Keys, version: nat, index: nat, signers: seq<bytes>, h: Header, payload: bytes) {
    && Body(h, payload).Some?
    && EnvelopeRead(p, keys, version, index, signers, h, Body(h, payload).value)
    && HeaderRead(p, h)
  }

  lemma Whole(keys: Keys, version: nat, index: nat, signers: seq<bytes>, h: Header, payload: bytes, vaa: bytes)
    requires SignedVaa(keys, version, index, signers, h, payload) == Some(vaa)
    ensures Faithful(Parse(vaa), keys, version, index, signers, h, payload)
    ensures Parse(vaa) == Contents(HeaderOf(vaa).0, payload)
  {
    hide Contents, HeaderOf, SignedVaa;
    var body := HeaderRoundTrip(keys, version, index, signers, h, payload, vaa);
    ContentsKeepHeader(HeaderOf(vaa).0, payload);
  }

  lemma TransferRoundTrip(keys: Keys, version: nat, index: nat, signers: seq<bytes>, h: Header, vaa: bytes,
                          amount: nat, token: bytes, tokenChain: nat, to: bytes, toChain: nat, fee: nat)
    requires |token| <= 32 && |to| <= 32 && TransferPayload(amount, token, tokenChain, to, toChain, fee).Some?
    requires SignedVaa(keys, version, index, signers, h, TransferPayload(amount, token, tokenChain, to, toChain, fee).value) == Some(vaa)
    ensures
      var q := Parse(vaa);
      && Faithful(q, keys, version, index, signers, h, TransferPayload(amount, token, tokenChain, to, toChain, fee).value)
      && q.meta == Transfer && q.kind == Some(1)
      && q.amount == Some(ToBE(amount * 100000000, 32))
      && q.contract == Some(Zeros(32 - |token|) + token) && q.fromChain == Some(tokenChain)
      && q.toAddress == Some(Zeros(32 - |to|) + to) && q.toChain == Some(toChain)
      && q.fee == Some(ToBE(fee * 100000000, 32))
  {
    hide Parse, Contents, Faithful, SignedVaa;
    var payload := TransferPayload(amount, token, tokenChain, to, toChain, fee).value;
    Whole(keys, version, index, signers, h, payload, vaa);
    TransferContents(HeaderOf(vaa).0, amount, token, tokenChain, to, toChain, fee, payload);
  }

  lemma AttestRoundTrip(keys: Keys, version: nat, index: nat, signers: seq<bytes>, h: Header, vaa: bytes,
                        token: bytes, chain: nat, decimals: nat, symbol: bytes, name: bytes)
    requires |token| <= 32 && |symbol| <= 32 && |name| <= 32 && AttestPayload(token, chain, decimals, symbol, name).Some?
    requires SignedVaa(keys, version, index, signers, h, AttestPayload(token, chain, decimals, symbol, name).value) == Some(vaa)
    ensures
      var q := Parse(vaa);
      && Faithful(q, keys, version, index, signers, h, AttestPayload(token, chain, decimals, symbol, name).value)
      && q.meta == Attest && q.kind == Some(2)
      && q.contract == Some(Zeros(32 - |token|) + token) && q.fromChain == Some(chain) && q.decimals == Some(decimals)
      && q.symbol == Some(symbol + Zeros(32 - |symbol|)) && q.name == Some(name + Zeros(32 - |name|))
  {
    hide Parse, Contents, Faithful, SignedVaa;
    var payload := AttestPayload(token, chain, decimals, symbol, name).value;
    Whole(keys, version, index, signers, h, payload, vaa);
    AttestContents(HeaderOf(vaa).0, token, chain, decimals, symbol, name, payload);
  }

  lemma RegisterChainRoundTrip(keys: Keys, version: nat, index: nat, signers: seq<bytes>, h: Header, vaa: bytes, chain: nat, addr: bytes)
    requires |addr| == 32 && RegisterChainPayload(chain, addr).Some?
    requires SignedVaa(keys, version, index, signers, h, RegisterChainPayload(chain, addr).value) == Some(vaa)
    ensures
      var q := Parse(vaa);
      && Faithful(q, keys, version, index, signers, h, RegisterChainPayload(chain, addr).value)
      && q.meta == RegisterChain && q.module_ == Some(TOKEN_BRIDGE) && q.action == Some(1)
      && q.targetChain == Some(0) && q.emitterChain == Some(chain) && q.targetEmitter == Some(addr)
  {
    hide Parse, Contents, Faithful, SignedVaa;
    var payload := RegisterChainPayload(chain, addr).value;
    Whole(keys, version, index, signers, h, payload, vaa);
    RegisterChainContents(HeaderOf(vaa).0, chain, addr, payload);
  }

  lemma UpgradeRoundTrip(keys: Keys, version: nat, index: nat, signers: seq<bytes>, h: Header, vaa: bytes, targetSet: nat, guardians: seq<bytes>)
    requires forall i | 0 <= i < |guardians| :: |guardians[i]| == 20
    requires UpgradePayload(targetSet, guardians).Some?
    requires SignedVaa(keys, version, index, signers, h, UpgradePayload(targetSet, guardians).value) == Some(vaa)
    ensures
      var q := Parse(vaa);
      && Faithful(q, keys, version, index, signers, h, UpgradePayload(targetSet, guardians).value)
      && q.module_ == Some(CORE) && q.action == Some(2) && q.targetChain == Some(0) && q.newSetIndex == Some(targetSet)
      && (q.meta == CoreGovernance <==> !(targetSet / 0x100_0000 == 3 && |guardians| >= 7))
  {
    hide Parse, Contents, Faithful, SignedVaa;
    var payload := UpgradePayload(targetSet, guardians).value;
    Whole(keys, version, index, signers, h, payload, vaa);
    UpgradeContents(HeaderOf(vaa).0, targetSet, guardians, payload);
  }

  // ---------- the contract's reading ----------

  /** Client and contract read the same emitter and sequence number out of a VAA. */
  lemma SameFields(vaa: bytes, m: Message)
    requires MessageOf(vaa) == Some(m)
    ensures Parse(vaa).chainRaw + Parse(vaa).emitter == m.emitter && Parse(vaa).sequence == m.sequence
  {
    hide FromBE, Parse;
    var num: nat := vaa[5];
    var off := num * 66 + 6;
    FromBEByte(vaa[5]);
    assert Slice(vaa, 5, 6) == [vaa[5]];
    ParsedFrom(vaa);
    SliceRest(vaa, off, 8, 10);
    SliceRest(vaa, off, 10, 42);
    SliceRest(vaa, off, 42, 50);
    assert vaa[off + 8..off + 10] + vaa[off + 10..off + 42] == vaa[off + 8..off + 42];
  }

  /** The account the client opts in and passes along for a message. */
  function ClientAccount(at: Template.Locator, vaa: bytes): bytes
    requires Parse(vaa).sequence < U64
  {
    at(Client.ClientBlock(Parse(vaa).sequence), Parse(vaa).chainRaw + Parse(vaa).emitter)
  }

  /** It is the account in which the contract looks for the message if and only if the
      client's division is exact; otherwise the contract refuses the call, whatever the
      accounts hold. */
  lemma SameMessage(at: Template.Locator, vaa: bytes, m: Message)
    requires Template.Injective(at) && MessageOf(vaa) == Some(m)
    ensures Parse(vaa).chainRaw + Parse(vaa).emitter == m.emitter && Parse(vaa).sequence == m.sequence
    ensures ClientAccount(at, vaa) == at(SlotOf(m.sequence).block, m.emitter) <==> Client.BlockExact(m.sequence)
    ensures !Client.BlockExact(m.sequence) ==> forall cells: Cells :: Mark(at, cells, vaa, ClientAccount(at, vaa)) == None
  {
    hide Parse, MessageOf, Client.BlockExact, Client.ClientBlock;
    SameFields(vaa, m);
    Client.ClientBlockIs(m.sequence);
  }

  lemma ParsedFrom(vaa: bytes)
    ensures
      var p, body := Parse(vaa), Rest(vaa, Int(vaa, 5, 6) * 66 + 6);
      p.chainRaw == Slice(body, 8, 10) && p.emitter == Slice(body, 10, 42) && p.sequence == Int(body, 42, 50)
  {
    hide FromBE, Contents, Sigs, Slice, Rest;
    ContentsKeepHeader(HeaderOf(vaa).0, HeaderOf(vaa).1);
  }
}
