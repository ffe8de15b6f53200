/** The fragment of the Algorand virtual machine that the contracts rely on: bounded
    words, byte strings, and instructions that trap instead of returning a value. */
module Teal {

  /** `None` is a trap: the transaction group that meets it is abandoned as a whole. */
  datatype Option<+T> = None | Some(value: T) {
    predicate IsFailure() { None? }

    function PropagateFailure<U>(): Option<U>
      requires None?
    {
      None
    }

    function Extract(): T
      requires Some?
    {
      value
    }
  }

  /** The outcome of an `assert` instruction; propagates as a trap. */
  datatype Check = Pass | Trap {
    predicate IsFailure() { Trap? }

    function PropagateFailure<U>(): Option<U>
      requires Trap?
    {
      None
    }
  }

  function Require(condition: bool): Check {
    if condition then Pass else Trap
  }

  const U64: int := 0x1_0000_0000_0000_0000

  type byte = b: int | 0 <= b < 256
  type bytes = seq<byte>
  type uint64 = n: int | 0 <= n < U64

  /** The bytes of an ASCII literal. */
  function Ascii(s: string): (r: bytes)
    requires forall i | 0 <= i < |s| :: s[i] < 128 as char
    ensures |r| == |s|
  {
    seq(|s|, i requires 0 <= i < |s| => s[i] as int)
  }

  function Zeros(n: nat): (r: bytes)
    ensures |r| == n
  {
    seq(n, _ => 0)
  }

  // ---------- slices ----------

  /** `extract3`: traps when the range leaves the string. */
  function Extract(s: bytes, start: nat, len: nat): Option<bytes> {
    if start + len <= |s| then Some(s[start..start + len]) else None
  }

  /** `substring3`: additionally traps when the bounds are out of order. */
  function Substring(s: bytes, start: nat, end: nat): Option<bytes> {
    if start <= end <= |s| then Some(s[start..end]) else None
  }

  /** `setbyte`, within bounds. */
  function ReplaceAt(s: bytes, i: nat, b: byte): (r: bytes)
    requires i < |s|
    ensures |r| == |s|
  {
    s[i := b]
  }

  /** A Python slice `s[a:b]` with non-negative bounds: clamps instead of failing. */
  function Slice(s: bytes, a: nat, b: nat): bytes {
    var hi := if b <= |s| then b else |s|;
    if a <= hi then s[a..hi] else []
  }

  lemma SliceOfSlice(s: bytes, a: nat, b: nat, c: nat, d: nat)
    requires a <= b <= |s| && c <= d <= b - a
    ensures s[a..b][c..d] == s[a + c..a + d]
  {
    assert forall i | 0 <= i < d - c :: s[a..b][c..d][i] == s[a + c..a + d][i];
  }

  // ---------- big-endian integers ----------

  function Pow(base: nat, k: nat): nat {
    if k == 0 then 1 else base * Pow(base, k - 1)
  }

  /** The `k` low-order bytes of `n`, most significant first. */
  function ToBE(n: nat, k: nat): (s: bytes)
    ensures |s| == k
  {
    if k == 0 then [] else ToBE(n / 256, k - 1) + [n % 256]
  }

  function FromBE(s: bytes): nat {
    if s == [] then 0 else FromBE(s[..|s| - 1]) * 256 + s[|s| - 1]
  }

  lemma {:induction false} FromToBE(n: nat, k: nat)
    requires n < Pow(256, k)
    ensures FromBE(ToBE(n, k)) == n
  {
    if k > 0 {
      FromToBE(n / 256, k - 1);
      assert ToBE(n, k)[..k - 1] == ToBE(n / 256, k - 1);
    }
  }

  lemma {:induction false} ToFromBE(s: bytes)
    ensures FromBE(s) < Pow(256, |s|)
    ensures ToBE(FromBE(s), |s|) == s
  {
    if s != [] {
      ToFromBE(s[..|s| - 1]);
    }
  }

  lemma {:induction false} FromBEBound(s: bytes)
    requires |s| <= 8
    ensures FromBE(s) < U64
  {
    ToFromBE(s);
    Pow256();
    PowMonotone(|s|, 8);
  }

  lemma PowMonotone(j: nat, k: nat)
    requires j <= k
    ensures 1 <= Pow(256, j) <= Pow(256, k)
  {
  }

  lemma Pow256()
    ensures Pow(256, 1) == 0x100 && Pow(256, 2) == 0x1_0000 && Pow(256, 3) == 0x100_0000
    ensures Pow(256, 4) == 0x1_0000_0000 && Pow(256, 8) == U64
  {
    assert Pow(256, 5) == 0x100_0000_0000;
    assert Pow(256, 6) == 0x1_0000_0000_0000;
    assert Pow(256, 7) == 0x100_0000_0000_0000;
  }

  lemma {:induction false} FromBEZeros(n: nat)
    ensures FromBE(Zeros(n)) == 0
  {
    if n > 0 {
      FromBEZeros(n - 1);
      assert Zeros(n)[..n - 1] == Zeros(n - 1);
    }
  }

  lemma {:induction false} FromBEInjective(s: bytes, t: bytes)
    requires |s| == |t| && FromBE(s) == FromBE(t)
    ensures s == t
  {
    ToFromBE(s);
    ToFromBE(t);
  }

  /** `itob` */
  function Itob(n: uint64): (s: bytes)
    ensures |s| == 8
  {
    ToBE(n, 8)
  }

  /** `btoi`: traps on more than eight bytes. */
  function Btoi(s: bytes): Option<uint64> {
    if |s| <= 8 then
      FromBEBound(s);
      Some(FromBE(s))
    else None
  }

  lemma ItobBtoi(n: uint64)
    ensures Btoi(Itob(n)) == Some(n)
  {
    Pow256();
    FromToBE(n, 8);
  }

  lemma FromBEByte(b: byte)
    ensures FromBE([b]) == b
  {
    assert [b][..0] == [];
  }

  /** Reads a big-endian integer in place; traps like `btoi(extract3 ...)`. */
  function ReadInt(s: bytes, start: nat, len: nat): (r: Option<uint64>)
    requires len <= 8
    ensures r.Some? <==> start + len <= |s|
    ensures r.Some? ==> r.value == FromBE(s[start..start + len])
    ensures r.Some? && len == 1 ==> r.value == s[start]
  {
    var b :- Extract(s, start, len);
    if len == 1 then FromBEByte(s[start]); assert b == [s[start]]; Btoi(b) else Btoi(b)
  }

  // ---------- bits ----------

  /** Bit `i` of an integer, counted from the least significant bit. */
  predicate Bit(n: nat, i: nat) {
    if i == 0 then n % 2 == 1 else Bit(n / 2, i - 1)
  }

  function SetBit(n: nat, i: nat): nat {
    if i == 0 then n - n % 2 + 1 else 2 * SetBit(n / 2, i - 1) + n % 2
  }

  lemma {:induction false} SetBitEffect(n: nat, i: nat, j: nat)
    ensures Bit(SetBit(n, i), j) <==> j == i || Bit(n, j)
  {
    if i == 0 {
      assert j > 0 ==> SetBit(n, 0) / 2 == n / 2;
    } else {
      assert SetBit(n, i) / 2 == SetBit(n / 2, i - 1) && SetBit(n, i) % 2 == n % 2;
      if j > 0 {
        SetBitEffect(n / 2, i - 1, j - 1);
      }
    }
  }

  lemma {:induction false} SetBitBound(n: nat, i: nat, width: nat)
    requires n < Pow(2, width) && i < width
    ensures SetBit(n, i) < Pow(2, width)
  {
    if i > 0 {
      SetBitBound(n / 2, i - 1, width - 1);
    }
  }

  lemma SetBitByte(b: byte, i: nat)
    requires i < 8
    ensures SetBit(b, i) < 256
  {
    assert Pow(2, 4) == 16;
    assert Pow(2, 8) == 256;
    SetBitBound(b, i, 8);
  }

  lemma {:induction false} ZeroHasNoBits(i: nat)
    ensures !Bit(0, i)
  {
    if i > 0 { ZeroHasNoBits(i - 1); }
  }

  /** `getbit` on a byte string counts from the first byte's most significant bit. */
  function GetBitOfBytes(s: bytes, i: nat): Option<bool> {
    if i < 8 * |s| then Some(Bit(s[i / 8], 7 - i % 8)) else None
  }

  function SetBitOfBytes(s: bytes, i: nat): (r: Option<bytes>)
    ensures r.Some? <==> i < 8 * |s|
    ensures r.Some? ==> |r.value| == |s|
  {
    if i < 8 * |s| then
      SetBitByte(s[i / 8], 7 - i % 8);
      Some(s[i / 8 := SetBit(s[i / 8], 7 - i % 8)])
    else None
  }

  lemma SetBitOfBytesEffect(s: bytes, i: nat, j: nat)
    requires i < 8 * |s| && j < 8 * |s|
    ensures GetBitOfBytes(SetBitOfBytes(s, i).value, j) == Some(j == i || GetBitOfBytes(s, j).value)
  {
    SetBitEffect(s[i / 8], 7 - i % 8, 7 - j % 8);
  }
}
