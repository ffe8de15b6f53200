/** Unsigned LEB128 (section 7.6 of DWARF Version 5), as the contracts encode it with an
    accumulator and as the off-chain library encodes it digit by digit. */
module Leb128 {
  import opened Teal

  /** `x | 128` for a byte `x`. */
  function OrHighBit(x: byte): byte {
    if x < 128 then x + 128 else x
  }

  /** The on-chain recursion: `acc` is the byte produced by the caller, and each level
      hands the next seven bits down before appending. */
  function EncodeUvarint(val: nat, acc: bytes): bytes
    decreases val
  {
    acc + (if val >= 128 then EncodeUvarint(val / 128, [OrHighBit(val % 256)]) else [val % 256])
  }

  /** The digits a LEB128 string stands for. */
  function Value(s: bytes): nat {
    if s == [] then 0 else s[0] % 128 + 128 * Value(s[1..])
  }

  /** What the standard asks of an encoding: every byte but the last has its high bit set,
      the last has not, and no shorter string has the same value. */
  ghost predicate IsLeb128(s: bytes, n: nat) {
    && |s| > 0
    && (forall i | 0 <= i < |s| - 1 :: s[i] >= 128)
    && s[|s| - 1] < 128
    && (|s| > 1 ==> s[|s| - 1] != 0)
    && Value(s) == n
  }

  /** The client library's encoder. */
  function Uvarint(n: nat): (s: bytes)
    ensures |s| > 0
  {
    if n < 128 then [n] else [128 + n % 128] + Uvarint(n / 128)
  }

  /** Reads one number off the front of a string. */
  function Decode(s: bytes): (r: Option<(nat, bytes)>)
    ensures r.Some? ==> |r.value.1| < |s|
  {
    if s == [] then None
    else if s[0] < 128 then Some((s[0], s[1..]))
    else
      var rest :- Decode(s[1..]);
      Some((s[0] - 128 + 128 * rest.0, rest.1))
  }

  lemma {:induction false} ContractAgreesWithLibrary(n: nat, acc: bytes)
    ensures EncodeUvarint(n, acc) == acc + Uvarint(n)
    decreases n
  {
    if n >= 128 {
      assert OrHighBit(n % 256) == 128 + n % 128;
      ContractAgreesWithLibrary(n / 128, [OrHighBit(n % 256)]);
    }
  }

  lemma EncodeFromEmpty(n: nat)
    ensures EncodeUvarint(n, []) == Uvarint(n)
  {
    ContractAgreesWithLibrary(n, []);
    assert [] + Uvarint(n) == Uvarint(n);
  }

  lemma {:induction false} UvarintIsLeb128(n: nat)
    ensures IsLeb128(Uvarint(n), n)
    ensures n > 0 ==> Uvarint(n)[|Uvarint(n)| - 1] != 0
  {
    if n >= 128 {
      var tail := Uvarint(n / 128);
      UvarintIsLeb128(n / 128);
      assert Uvarint(n) == [128 + n % 128] + tail;
      assert Uvarint(n)[1..] == tail;
      forall i | 0 <= i < |Uvarint(n)| - 1 ensures Uvarint(n)[i] >= 128 {
        if i > 0 { assert Uvarint(n)[i] == tail[i - 1]; }
      }
    } else {
      assert Uvarint(n)[1..] == [];
    }
  }

  lemma {:induction false} Leb128Unique(s: bytes, n: nat)
    requires IsLeb128(s, n)
    ensures s == Uvarint(n)
  {
    if |s| == 1 {
      assert s[1..] == [];
      assert s == [s[0]];
    } else {
      Leb128NonZero(s[1..]);
      assert IsLeb128(s[1..], n / 128);
      Leb128Unique(s[1..], n / 128);
      assert s == [s[0]] + s[1..];
    }
  }

  lemma {:induction false} Leb128NonZero(s: bytes)
    requires |s| > 0 && s[|s| - 1] < 128 && s[|s| - 1] != 0
    ensures Value(s) > 0
  {
    if |s| > 1 { Leb128NonZero(s[1..]); }
  }

  /** The contract's encoder produces the LEB128 string of the number and nothing else. */
  lemma EncodeIsLeb128(n: nat, s: bytes)
    ensures IsLeb128(s, n) <==> s == EncodeUvarint(n, [])
  {
    EncodeFromEmpty(n);
    UvarintIsLeb128(n);
    if IsLeb128(s, n) { Leb128Unique(s, n); }
  }

  lemma {:induction false} DecodeUvarint(n: nat, rest: bytes)
    ensures Decode(Uvarint(n) + rest) == Some((n, rest))
  {
    if n >= 128 {
      DecodeUvarint(n / 128, rest);
      assert (Uvarint(n) + rest)[1..] == Uvarint(n / 128) + rest;
    } else {
      assert (Uvarint(n) + rest)[1..] == rest;
    }
  }

  /** Decoding undoes the contract's encoder, whatever bytes follow. */
  lemma DecodeEncode(n: nat, rest: bytes)
    ensures Decode(EncodeUvarint(n, []) + rest) == Some((n, rest))
  {
    EncodeFromEmpty(n);
    DecodeUvarint(n, rest);
  }

  /** Encodings are self-delimiting: two of them followed by anything agree only when the
      numbers and the remainders agree. In particular none is a proper prefix of another. */
  lemma PrefixFree(m: nat, n: nat, x: bytes, y: bytes)
    requires EncodeUvarint(m, []) + x == EncodeUvarint(n, []) + y
    ensures m == n && x == y
  {
    DecodeEncode(m, x);
    DecodeEncode(n, y);
  }
}
