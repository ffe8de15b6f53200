/** The client's parser: walks the VAA with a running offset, decides what kind of message it
    is, and cuts the fields out. Slices never fail; they come out short. */
module VaaParse {
  import opened Teal
  import opened VaaPrint

  datatype Kind = Unknown | TokenBridge | RegisterChain | UpgradeContract | CoreGovernance | Attest | Transfer | TransferWithPayload

  /** The dictionary the parser fills; a field it never sets stays empty. */
  datatype Parsed = Parsed(
    version: nat, index: nat, siglen: nat, signatures: bytes, sigs: seq<bytes>, digest: bytes,
    timestamp: nat, nonce: nat, chainRaw: bytes, chain: nat, emitter: bytes, sequence: nat, consistency: nat,
    meta: Kind,
    module_: Option<bytes>, action: Option<nat>, targetChain: Option<nat>,
    emitterChain: Option<nat>, targetEmitter: Option<bytes>, newContract: Option<bytes>, newSetIndex: Option<nat>,
    kind: Option<nat>, contract: Option<bytes>, fromChain: Option<nat>, decimals: Option<nat>, symbol: Option<bytes>, name: Option<bytes>,
    amount: Option<bytes>, toAddress: Option<bytes>, toChain: Option<nat>, fee: Option<bytes>,
    fromAddress: Option<bytes>, payload: Option<bytes>)

  /** `int.from_bytes(s[a:b], "big")` */
  function Int(s: bytes, a: nat, b: nat): nat {
    FromBE(Slice(s, a, b))
  }

  function Rest(s: bytes, off: nat): bytes {
    Slice(s, off, |s|)
  }

  lemma SliceRest(s: bytes, off: nat, a: nat, b: nat)
    requires a <= b
    ensures Slice(s, off + a, off + b) == Slice(Rest(s, off), a, b)
    ensures Rest(s, off + a) == Rest(Rest(s, off), a)
  {
    if off <= |s| {
      var r := Rest(s, off);
      var hi := if b <= |r| then b else |r|;
      assert r == s[off..];
      if a <= hi {
        SliceOfSlice(s, off, |s|, a, hi);
      }
      if a <= |r| {
        assert s[off + a..] == s[off..][a..];
      }
    }
  }

  // ---------- the parts, with offsets counted from the start of each ----------

  const NO_FIELDS: Parsed := Parsed(0, 0, 0, [], [], [], 0, 0, [], 0, [], 0, 0, Unknown,
    None, None, None, None, None, None, None, None, None, None, None, None, None, None, None, None, None, None, None)

  function Sigs(vaa: bytes, n: nat): seq<bytes> {
    if n == 0 then [] else Sigs(vaa, n - 1) + [Slice(vaa, 6 + (n - 1) * 66, 6 + (n - 1) * 66 + 66)]
  }

  /** The envelope and the body's header; the rest is the payload. */
  function HeaderOf(vaa: bytes): (Parsed, bytes) {
    var n := Int(vaa, 5, 6);
    var body := Rest(vaa, n * 66 + 6);
    (NO_FIELDS.(
      version := Int(vaa, 0, 1), index := Int(vaa, 1, 5), siglen := n,
      signatures := Slice(vaa, 6, n * 66 + 6), sigs := Sigs(vaa, n), digest := body,
      timestamp := Int(body, 0, 4), nonce := Int(body, 4, 8), chainRaw := Slice(body, 8, 10), chain := Int(body, 8, 10),
      emitter := Slice(body, 10, 42), sequence := Int(body, 42, 50), consistency := Int(body, 50, 51)),
     Rest(body, 51))
  }

  function BridgeOf(r: Parsed, p: bytes): (Parsed, bytes) {
    if Slice(p, 0, 32) != TOKEN_BRIDGE then (r, p)
    else
      var s := r.(meta := TokenBridge, module_ := Some(Slice(p, 0, 32)), action := Some(Int(p, 32, 33)));
      if Int(p, 32, 33) == 1 then
        (s.(meta := RegisterChain, targetChain := Some(Int(p, 33, 35)), emitterChain := Some(Int(p, 35, 37)), targetEmitter := Some(Slice(p, 37, 69))),
         Rest(p, 69))
      else if Int(p, 32, 33) == 2 then
        (s.(meta := UpgradeContract, targetChain := Some(Int(p, 33, 35)), newContract := Some(Slice(p, 35, 67))), Rest(p, 67))
      else (s, Rest(p, 33))
  }

  /** After the target chain the offset stays at the new index or contract. */
  function CoreOf(r: Parsed, p: bytes): (Parsed, bytes) {
    if Slice(p, 0, 32) != CORE then (r, p)
    else
      var s := r.(meta := CoreGovernance, module_ := Some(Slice(p, 0, 32)), action := Some(Int(p, 32, 33)), targetChain := Some(Int(p, 33, 35)));
      if Int(p, 32, 33) == 2 then (s.(newSetIndex := Some(Int(p, 35, 39))), Rest(p, 35))
      else (s.(contract := Some(Slice(p, 35, 67))), Rest(p, 35))
  }

  /** The name is read without moving past it. */
  function AttestOf(r: Parsed, p: bytes): (Parsed, bytes) {
    if |p| == 100 && Int(p, 0, 1) == 2 then
      (r.(meta := Attest, kind := Some(Int(p, 0, 1)), contract := Some(Slice(p, 1, 33)), fromChain := Some(Int(p, 33, 35)),
          decimals := Some(Int(p, 35, 36)), symbol := Some(Slice(p, 36, 68)), name := Some(Slice(p, 68, 100))),
       Rest(p, 68))
    else (r, p)
  }

  function MoneyOf(r: Parsed, p: bytes): Parsed {
    r.(kind := Some(Int(p, 0, 1)), amount := Some(Slice(p, 1, 33)), contract := Some(Slice(p, 33, 65)),
       fromChain := Some(Int(p, 65, 67)), toAddress := Some(Slice(p, 67, 99)), toChain := Some(Int(p, 99, 101)))
  }

  function TransferOf(r: Parsed, p: bytes): (Parsed, bytes) {
    if |p| == 133 && Int(p, 0, 1) == 1 then (MoneyOf(r, p).(meta := Transfer, fee := Some(Slice(p, 101, 133))), Rest(p, 101))
    else (r, p)
  }

  /** No fee is carried; thirty-two zero bytes stand for it. */
  function PayloadTransferOf(r: Parsed, p: bytes): Parsed {
    if |p| > 133 && Int(p, 0, 1) == 3 then
      MoneyOf(r, p).(meta := TransferWithPayload, fee := Some(Zeros(32)), fromAddress := Some(Slice(p, 101, 133)), payload := Some(Rest(p, 133)))
    else r
  }

  function Contents(r: Parsed, p: bytes): Parsed {
    var s1 := BridgeOf(r, p);
    var s2 := CoreOf(s1.0, s1.1);
    var s3 := AttestOf(s2.0, s2.1);
    var s4 := TransferOf(s3.0, s3.1);
    PayloadTransferOf(s4.0, s4.1)
  }

  function Parse(vaa: bytes): Parsed {
    var h := HeaderOf(vaa);
    Contents(h.0, h.1)
  }

  // ---------- the running offset ----------

  method ParseHeader(vaa: bytes) returns (ret: Parsed, off: nat)
    ensures (ret, Rest(vaa, off)) == HeaderOf(vaa)
  {
    hide FromBE, Slice;
    ret := NO_FIELDS.(version := Int(vaa, 0, 1), index := Int(vaa, 1, 5), siglen := Int(vaa, 5, 6));
    ret := ret.(signatures := Slice(vaa, 6, ret.siglen * 66 + 6));
    var sigs := [];
    for i := 0 to ret.siglen
      invariant sigs == Sigs(vaa, i)
    {
      sigs := sigs + [Slice(vaa, 6 + i * 66, 6 + i * 66 + 66)];
    }
    ret := ret.(sigs := sigs);
    off := ret.siglen * 66 + 6;
    ghost var start := off;
    ret := ret.(digest := Rest(vaa, off));
    SliceRest(vaa, start, 0, 4);
    ret := ret.(timestamp := Int(vaa, off, off + 4));
    off := off + 4;
    SliceRest(vaa, start, 4, 8);
    ret := ret.(nonce := Int(vaa, off, off + 4));
    off := off + 4;
    SliceRest(vaa, start, 8, 10);
    ret := ret.(chainRaw := Slice(vaa, off, off + 2), chain := Int(vaa, off, off + 2));
    off := off + 2;
    SliceRest(vaa, start, 10, 42);
    ret := ret.(emitter := Slice(vaa, off, off + 32));
    off := off + 32;
    SliceRest(vaa, start, 42, 50);
    ret := ret.(sequence := Int(vaa, off, off + 8));
    off := off + 8;
    SliceRest(vaa, start, 50, 51);
    ret := ret.(consistency := Int(vaa, off, off + 1));
    off := off + 1;
    SliceRest(vaa, start, 51, 51);
  }

  method ParseBridge(vaa: bytes, off0: nat, ret0: Parsed) returns (ret: Parsed, off: nat)
    ensures (ret, Rest(vaa, off)) == BridgeOf(ret0, Rest(vaa, off0))
  {
    hide FromBE, Slice;
    ret, off := ret0, off0;
    SliceRest(vaa, off0, 0, 32);
    SliceRest(vaa, off0, 32, 33);
    SliceRest(vaa, off0, 33, 35);
    if Slice(vaa, off, off + 32) == TOKEN_BRIDGE {
      ret := ret.(meta := TokenBridge, module_ := Some(Slice(vaa, off, off + 32)));
      off := off + 32;
      ret := ret.(action := Some(Int(vaa, off, off + 1)));
      off := off + 1;
      if ret.action == Some(1) {
        SliceRest(vaa, off0, 35, 37);
        SliceRest(vaa, off0, 37, 69);
        SliceRest(vaa, off0, 69, 69);
        ret := ret.(meta := RegisterChain, targetChain := Some(Int(vaa, off, off + 2)));
        off := off + 2;
        ret := ret.(emitterChain := Some(Int(vaa, off, off + 2)));
        off := off + 2;
        ret := ret.(targetEmitter := Some(Slice(vaa, off, off + 32)));
        off := off + 32;
      }
      if ret.action == Some(2) {
        SliceRest(vaa, off0, 35, 67);
        SliceRest(vaa, off0, 67, 67);
        ret := ret.(meta := UpgradeContract, targetChain := Some(Int(vaa, off, off + 2)));
        off := off + 2;
        ret := ret.(newContract := Some(Slice(vaa, off, off + 32)));
        off := off + 32;
      }
    }
  }

  method ParseCore(vaa: bytes, off0: nat, ret0: Parsed) returns (ret: Parsed, off: nat)
    ensures (ret, Rest(vaa, off)) == CoreOf(ret0, Rest(vaa, off0))
  {
    hide FromBE, Slice;
    ret, off := ret0, off0;
    SliceRest(vaa, off0, 0, 32);
    SliceRest(vaa, off0, 32, 33);
    SliceRest(vaa, off0, 33, 35);
    SliceRest(vaa, off0, 35, 39);
    SliceRest(vaa, off0, 35, 67);
    if Slice(vaa, off, off + 32) == CORE {
      ret := ret.(meta := CoreGovernance, module_ := Some(Slice(vaa, off, off + 32)));
      off := off + 32;
      ret := ret.(action := Some(Int(vaa, off, off + 1)));
      off := off + 1;
      ret := ret.(targetChain := Some(Int(vaa, off, off + 2)));
      off := off + 2;
      if ret.action == Some(2) {
        ret := ret.(newSetIndex := Some(Int(vaa, off, off + 4)));
      } else {
        ret := ret.(contract := Some(Slice(vaa, off, off + 32)));
      }
    }
  }

  method ParseAttest(vaa: bytes, off0: nat, ret0: Parsed) returns (ret: Parsed, off: nat)
    ensures (ret, Rest(vaa, off)) == AttestOf(ret0, Rest(vaa, off0))
  {
    hide FromBE, Slice;
    ret, off := ret0, off0;
    SliceRest(vaa, off0, 0, 1);
    if |Rest(vaa, off)| == 100 && Int(vaa, off, off + 1) == 2 {
      SliceRest(vaa, off0, 1, 33);
      SliceRest(vaa, off0, 33, 35);
      SliceRest(vaa, off0, 35, 36);
      SliceRest(vaa, off0, 36, 68);
      SliceRest(vaa, off0, 68, 100);
      ret := ret.(meta := Attest, kind := Some(Int(vaa, off, off + 1)));
      off := off + 1;
      ret := ret.(contract := Some(Slice(vaa, off, off + 32)));
      off := off + 32;
      ret := ret.(fromChain := Some(Int(vaa, off, off + 2)));
      off := off + 2;
      ret := ret.(decimals := Some(Int(vaa, off, off + 1)));
      off := off + 1;
      ret := ret.(symbol := Some(Slice(vaa, off, off + 32)));
      off := off + 32;
      ret := ret.(name := Some(Slice(vaa, off, off + 32)));
    }
  }

  /** The fields both kinds of transfer share. */
  method ParseMoney(vaa: bytes, off0: nat, ret0: Parsed) returns (ret: Parsed, off: nat)
    ensures ret == MoneyOf(ret0, Rest(vaa, off0)) && off == off0 + 101
  {
    hide FromBE, Slice;
    SliceRest(vaa, off0, 0, 1);
    SliceRest(vaa, off0, 1, 33);
    SliceRest(vaa, off0, 33, 65);
    SliceRest(vaa, off0, 65, 67);
    SliceRest(vaa, off0, 67, 99);
    SliceRest(vaa, off0, 99, 101);
    ret, off := ret0, off0;
    ret := ret.(kind := Some(Int(vaa, off, off + 1)));
    off := off + 1;
    ret := ret.(amount := Some(Slice(vaa, off, off + 32)));
    off := off + 32;
    ret := ret.(contract := Some(Slice(vaa, off, off + 32)));
    off := off + 32;
    ret := ret.(fromChain := Some(Int(vaa, off, off + 2)));
    off := off + 2;
    ret := ret.(toAddress := Some(Slice(vaa, off, off + 32)));
    off := off + 32;
    ret := ret.(toChain := Some(Int(vaa, off, off + 2)));
    off := off + 2;
  }

  /** `parseVAA` */
  method ParseVaa(vaa: bytes) returns (ret: Parsed)
    ensures ret == Parse(vaa)
  {
    hide FromBE, Slice, HeaderOf, BridgeOf, CoreOf, AttestOf;
    var off;
    ret, off := ParseHeader(vaa);
    ret, off := ParseBridge(vaa, off, ret);
    ret, off := ParseCore(vaa, off, ret);
    ret, off := ParseAttest(vaa, off, ret);
    SliceRest(vaa, off, 0, 1);
    if |Rest(vaa, off)| == 133 && Int(vaa, off, off + 1) == 1 {
      SliceRest(vaa, off, 101, 133);
      ret, off := ParseMoney(vaa, off, ret.(meta := Transfer));
      ret := ret.(fee := Some(Slice(vaa, off, off + 32)));
    }
    SliceRest(vaa, off, 0, 1);
    if |Rest(vaa, off)| > 133 && Int(vaa, off, off + 1) == 3 {
      SliceRest(vaa, off, 101, 133);
      SliceRest(vaa, off, 133, 133);
      ret, off := ParseMoney(vaa, off, ret.(meta := TransferWithPayload));
      ret := ret.(fee := Some(Zeros(32)), fromAddress := Some(Slice(vaa, off, off + 32)));
      off := off + 32;
      ret := ret.(payload := Some(Rest(vaa, off)));
    }
  }
}
