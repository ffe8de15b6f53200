/** The client's view of the paged accounts: it receives their entries as a list in no
    particular order, and rebuilds from it the guardian keys and the replay bits. */
module Client {
  import opened Teal
  import opened Template
  import opened LocalBlob
  import opened Replay
  import opened Doubles

  /** The entries of an account, as the node lists them. */
  type Entries = seq<(bytes, bytes)>

  ghost predicate Lists(kvs: Entries, m: Pages) {
    && (forall i | 0 <= i < |kvs| :: kvs[i].0 in m && m[kvs[i].0] == kvs[i].1)
    && (forall key | key in m :: (key, m[key]) in kvs)
  }

  const ZERO_PAGE: bytes := Zeros(127)

  // ---------- sorted ----------

  lemma {:induction false} Min(keys: set<nat>) returns (m: nat)
    requires keys != {}
    ensures m in keys && forall k | k in keys :: m <= k
  {
    var x :| x in keys;
    m := x;
    var rest := keys - {x};
    if rest != {} {
      var r := Min(rest);
      if r < x { m := r; }
    }
    forall k | k in keys ensures m <= k {
      if k != x { assert k in rest; }
    }
  }

  lemma MinExists(keys: set<nat>)
    requires keys != {}
    ensures exists m :: m in keys && forall k | k in keys :: m <= k
  {
    var m := Min(keys);
  }

  /** The numbers of a set in ascending order. */
  function Sorted(keys: set<nat>): seq<nat> {
    if keys == {} then []
    else
      MinExists(keys);
      var m :| m in keys && forall k | k in keys :: m <= k;
      [m] + Sorted(keys - {m})
  }

  lemma SortedFirst(keys: set<nat>, m: nat)
    requires m in keys && forall k | k in keys :: m <= k
    ensures Sorted(keys) == [m] + Sorted(keys - {m})
  {
  }

  // ---------- decodeLocalState ----------

  /** What the entries contribute: every page that is not all zero, by number, and the role
      tag under a number larger than any page's. */
  const META_KEY: nat := 0x6d657461

  ghost predicate Decoding(m: Pages, kvs: Entries, i: nat, vals: map<nat, bytes>)
    requires i <= |kvs|
  {
    && (forall n | n in vals ::
          && (n < MAX_KEYS || n == META_KEY)
          && (n < MAX_KEYS ==> [n] in m && vals[n] == m[[n]])
          && (n == META_KEY ==> META in m && vals[n] == m[META])
          && vals[n] != ZERO_PAGE)
    && (forall j | 0 <= j < i && kvs[j].1 != ZERO_PAGE :: FromBE(kvs[j].0) in vals)
  }

  lemma KeyNumbers(k: byte)
    ensures FromBE([k]) == k && FromBE(META) == META_KEY
  {
    FromBEByte(k);
    FromBEByte(109);
    var two: bytes, three: bytes := [109, 101], [109, 101, 116];
    assert two[..1] == [109];
    assert FromBE(two) == 28005;
    assert three[..2] == two;
    assert FromBE(three) == 7169396;
    assert META[..3] == three;
  }

  lemma DecodingStep(m: Pages, kvs: Entries, i: nat, vals: map<nat, bytes>)
    requires Paged(m) && Lists(kvs, m) && i < |kvs| && Decoding(m, kvs, i, vals)
    ensures Decoding(m, kvs, i + 1, if kvs[i].1 != ZERO_PAGE then vals[FromBE(kvs[i].0) := kvs[i].1] else vals)
  {
    var key := kvs[i].0;
    if key == META {
      KeyNumbers(0);
    } else {
      KeyNumbers(key[0]);
      assert key == [key[0]];
    }
  }

  /** The pages from number `k` on that are not all zero, followed by the tag's value: it is
      compared with a name of another type, so it is never skipped. */
  ghost function NonzeroFrom(m: Pages, k: nat): bytes
    requires Paged(m) && k <= MAX_KEYS
    decreases MAX_KEYS - k
  {
    if k == MAX_KEYS then if META in m && m[META] != ZERO_PAGE then m[META] else []
    else (if m[[k]] != ZERO_PAGE then m[[k]] else []) + NonzeroFrom(m, k + 1)
  }

  /** The values in the order of a list of keys. */
  function Gather(vals: map<nat, bytes>, keys: seq<nat>): bytes
    requires forall k | k in keys :: k in vals
  {
    if keys == [] then [] else Gather(vals, keys[..|keys| - 1]) + vals[keys[|keys| - 1]]
  }

  lemma {:induction false} GatherFront(vals: map<nat, bytes>, k: nat, keys: seq<nat>)
    requires k in vals && forall k | k in keys :: k in vals
    ensures Gather(vals, [k] + keys) == vals[k] + Gather(vals, keys)
  {
    var all := [k] + keys;
    if keys == [] {
      assert all[..0] == [];
    } else {
      assert all[..|all| - 1] == [k] + keys[..|keys| - 1];
      GatherFront(vals, k, keys[..|keys| - 1]);
    }
  }

  ghost function AtLeast(keys: set<nat>, k: nat): set<nat> {
    set x | x in keys && k <= x
  }

  /** What has been decoded once every entry was visited. */
  ghost predicate Decoded(m: Pages, vals: map<nat, bytes>)
    requires Paged(m)
  {
    && (forall k | 0 <= k < MAX_KEYS :: k in vals <==> m[[k]] != ZERO_PAGE)
    && (forall k | 0 <= k < MAX_KEYS && k in vals :: vals[k] == m[[k]])
    && (META_KEY in vals <==> META in m && m[META] != ZERO_PAGE)
    && (META_KEY in vals ==> vals[META_KEY] == m[META])
    && (forall n | n in vals :: n < MAX_KEYS || n == META_KEY)
  }

  lemma DecodingDone(m: Pages, kvs: Entries, vals: map<nat, bytes>)
    requires Paged(m) && Lists(kvs, m) && Decoding(m, kvs, |kvs|, vals)
    ensures Decoded(m, vals)
  {
    hide FromBE;
    KeyNumbers(0);
    assert META in m ==> (META, m[META]) in kvs;
    forall k | 0 <= k < MAX_KEYS ensures k in vals <==> m[[k]] != ZERO_PAGE {
      KeyNumbers(k);
      assert ([k], m[[k]]) in kvs;
    }
  }

  lemma GatherTop(m: Pages, vals: map<nat, bytes>)
    requires Paged(m) && Decoded(m, vals)
    ensures forall x | x in Sorted(AtLeast(vals.Keys, MAX_KEYS)) :: x in vals
    ensures Gather(vals, Sorted(AtLeast(vals.Keys, MAX_KEYS))) == NonzeroFrom(m, MAX_KEYS)
  {
    var keys := AtLeast(vals.Keys, MAX_KEYS);
    if META_KEY in vals {
      assert keys == {META_KEY};
      SortedFirst(keys, META_KEY);
      assert keys - {META_KEY} == {};
      assert Sorted(keys) == [META_KEY];
      assert [META_KEY][..0] == [];
    } else {
      assert keys == {};
    }
  }

  lemma GatherStep(m: Pages, vals: map<nat, bytes>, k: nat)
    requires Paged(m) && Decoded(m, vals) && k < MAX_KEYS
    requires forall x | x in Sorted(AtLeast(vals.Keys, k + 1)) :: x in vals
    ensures forall x | x in Sorted(AtLeast(vals.Keys, k)) :: x in vals
    ensures Gather(vals, Sorted(AtLeast(vals.Keys, k)))
         == (if m[[k]] != ZERO_PAGE then m[[k]] else []) + Gather(vals, Sorted(AtLeast(vals.Keys, k + 1)))
  {
    hide Sorted, Gather, Paged;
    var keys := AtLeast(vals.Keys, k);
    if k in vals {
      SortedFirst(keys, k);
      assert keys - {k} == AtLeast(vals.Keys, k + 1);
      GatherFront(vals, k, Sorted(AtLeast(vals.Keys, k + 1)));
    } else {
      assert keys == AtLeast(vals.Keys, k + 1);
    }
  }

  lemma {:induction false} GatherSorted(m: Pages, vals: map<nat, bytes>, k: nat)
    requires Paged(m) && Decoded(m, vals) && k <= MAX_KEYS
    ensures forall x | x in Sorted(AtLeast(vals.Keys, k)) :: x in vals
    ensures Gather(vals, Sorted(AtLeast(vals.Keys, k))) == NonzeroFrom(m, k)
    decreases MAX_KEYS - k
  {
    hide Sorted, Gather, Decoded;
    if k == MAX_KEYS {
      GatherTop(m, vals);
    } else {
      GatherSorted(m, vals, k + 1);
      GatherStep(m, vals, k);
    }
  }

  lemma GatherAll(m: Pages, vals: map<nat, bytes>)
    requires Paged(m) && Decoded(m, vals)
    ensures forall x | x in Sorted(vals.Keys) :: x in vals
    ensures Gather(vals, Sorted(vals.Keys)) == NonzeroFrom(m, 0)
  {
    hide Sorted;
    GatherSorted(m, vals, 0);
    assert AtLeast(vals.Keys, 0) == vals.Keys;
  }

  /** The list's order does not matter: the result is the nonzero pages by number, then the
      tag. */
  method DecodeLocalState(kvs: Entries, ghost m: Pages) returns (r: bytes)
    requires Paged(m) && Lists(kvs, m)
    ensures r == NonzeroFrom(m, 0)
  {
    hide Sorted, NonzeroFrom, Decoding, Decoded, Lists, Paged, FromBE;
    var vals: map<nat, bytes> := map[];
    DecodingStart(m, kvs);
    for i := 0 to |kvs|
      invariant Decoding(m, kvs, i, vals)
    {
      DecodingStep(m, kvs, i, vals);
      var v := kvs[i].1;
      if v != ZERO_PAGE {
        vals := vals[FromBE(kvs[i].0) := v];
      }
    }
    DecodingDone(m, kvs, vals);
    GatherAll(m, vals);
    r := [];
    var keys := Sorted(vals.Keys);
    for i := 0 to |keys|
      invariant forall k | k in keys :: k in vals
      invariant r == Gather(vals, keys[..i])
    {
      assert keys[..i + 1][..i] == keys[..i];
      r := r + vals[keys[i]];
    }
    assert keys[..|keys|] == keys;
  }

  lemma DecodingStart(m: Pages, kvs: Entries)
    ensures Decoding(m, kvs, 0, map[])
  {
  }

  // ---------- when the client sees what the contract sees ----------

  ghost predicate NonzeroBefore(c: Cell, n: nat)
    requires n <= MAX_KEYS
  {
    forall k | 0 <= k < n :: c.flat[127 * k..127 * k + 127] != ZERO_PAGE
  }

  lemma NonzeroStep(m: Pages, k: nat)
    requires Paged(m) && k < MAX_KEYS
    ensures m[[k]] != ZERO_PAGE ==> NonzeroFrom(m, k) == m[[k]] + NonzeroFrom(m, k + 1)
    ensures m[[k]] == ZERO_PAGE ==> NonzeroFrom(m, k) == NonzeroFrom(m, k + 1)
  {
  }

  lemma WholePage(m: Pages, k: nat)
    requires Paged(m) && k < MAX_KEYS
    ensures CellOf(m).flat[127 * k..127 * k + 127] == m[[k]]
  {
    PageSlice(m, k, 0, PAGE_SIZE);
    assert m[[k]][0..127] == m[[k]];
  }

  lemma {:induction false} NonzeroPrefix(m: Pages, n: nat, k: nat)
    requires Paged(m) && k <= n <= MAX_KEYS && NonzeroBefore(CellOf(m), n)
    ensures NonzeroFrom(m, k) == CellOf(m).flat[127 * k..127 * n] + NonzeroFrom(m, n)
    decreases n - k
  {
    hide NonzeroFrom, CellOf;
    var f, rest := CellOf(m).flat, NonzeroFrom(m, n);
    if k == n {
      assert f[127 * k..127 * n] + rest == rest;
    } else {
      WholePage(m, k);
      NonzeroPrefix(m, n, k + 1);
      NonzeroStep(m, k);
      Regroup(f, rest, 127 * k, 127 * k + 127, 127 * n);
    }
  }

  lemma Regroup(f: bytes, rest: bytes, a: nat, b: nat, c: nat)
    requires a <= b <= c <= |f|
    ensures f[a..b] + (f[b..c] + rest) == f[a..c] + rest
  {
    assert f[a..b] + f[b..c] == f[a..c];
  }

  /** A range of the account is read back unchanged when no page up to its end is all zero. */
  lemma ClientReads(m: Pages, a: nat, b: nat)
    requires Paged(m) && a <= b <= MAX_BYTES && NonzeroBefore(CellOf(m), (b + 126) / 127)
    ensures Slice(NonzeroFrom(m, 0), a, b) == CellOf(m).flat[a..b]
  {
    hide NonzeroFrom, CellOf, NonzeroBefore, Paged;
    var n := (b + 126) / 127;
    NonzeroPrefix(m, n, 0);
    PrefixSlice(CellOf(m).flat, NonzeroFrom(m, n), 127 * n, a, b);
  }

  lemma PrefixSlice(f: bytes, rest: bytes, n: nat, a: nat, b: nat)
    requires a <= b <= n <= |f|
    ensures Slice(f[0..n] + rest, a, b) == f[a..b]
  {
    assert (f[0..n] + rest)[a..b] == f[0..n][a..b];
  }

  /** What follows a skipped page is the tag, or starts with a page that is not zero. */
  lemma {:induction false} NextPage(m: Pages, k: nat)
    requires Paged(m) && k <= MAX_KEYS && ShortTag(m)
    ensures |NonzeroFrom(m, k)| >= 127 ==> NonzeroFrom(m, k)[..127] != ZERO_PAGE
    decreases MAX_KEYS - k
  {
    hide Paged;
    if k == MAX_KEYS {
      assert NonzeroFrom(m, k) == if META in m && m[META] != ZERO_PAGE then m[META] else [];
    } else {
      NextPage(m, k + 1);
      NonzeroFirst(m, k);
    }
  }

  lemma NonzeroFirst(m: Pages, k: nat)
    requires Paged(m) && k < MAX_KEYS
    ensures if m[[k]] == ZERO_PAGE then NonzeroFrom(m, k) == NonzeroFrom(m, k + 1)
      else |NonzeroFrom(m, k)| >= 127 && NonzeroFrom(m, k)[..127] == m[[k]]
  {
    hide NonzeroFrom;
    NonzeroStep(m, k);
  }

  /** Every role's tag is. */
  ghost predicate ShortTag(m: Pages) {
    META in m ==> |m[META]| < 127
  }

  lemma FirstZeroPage(c: Cell, n: nat) returns (k: nat)
    requires n <= MAX_KEYS && !NonzeroBefore(c, n)
    ensures k < n && NonzeroBefore(c, k) && c.flat[127 * k..127 * k + 127] == ZERO_PAGE
  {
    k := 0;
    while c.flat[127 * k..127 * k + 127] != ZERO_PAGE
      invariant k < n && NonzeroBefore(c, k)
      decreases n - k
    {
      k := k + 1;
    }
  }

  /** The first pages are read back as they are if and only if none of them is all zero. */
  lemma PagesReadExactly(m: Pages, n: nat)
    requires Paged(m) && n <= MAX_KEYS && ShortTag(m)
    ensures Slice(NonzeroFrom(m, 0), 0, 127 * n) == CellOf(m).flat[..127 * n] <==> NonzeroBefore(CellOf(m), n)
  {
    hide NonzeroFrom, CellOf, NonzeroBefore, Paged, ShortTag;
    var f := CellOf(m).flat;
    if NonzeroBefore(CellOf(m), n) {
      assert (127 * n + 126) / 127 == n;
      ClientReads(m, 0, 127 * n);
    } else {
      var k := FirstZeroPage(CellOf(m), n);
      WholePage(m, k);
      NonzeroPrefix(m, k, 0);
      NonzeroStep(m, k);
      NextPage(m, k + 1);
      Misread(f, NonzeroFrom(m, k + 1), k, n);
    }
  }

  lemma Misread(f: bytes, rest: bytes, k: nat, n: nat)
    requires k < n && 127 * n <= |f| && f[127 * k..127 * k + 127] == ZERO_PAGE
    requires |rest| >= 127 ==> rest[..127] != ZERO_PAGE
    ensures Slice(f[0..127 * k] + rest, 0, 127 * n) != f[..127 * n]
  {
    var s := f[0..127 * k] + rest;
    if 127 * n <= |s| {
      assert Slice(s, 0, 127 * n)[127 * k..127 * k + 127] == rest[..127];
      assert f[..127 * n][127 * k..127 * k + 127] == ZERO_PAGE;
    }
  }

  /** Past the last page that is not zero the client reads the tag. */
  lemma {:induction false} OnlyTag(m: Pages, k: nat)
    requires Paged(m) && k <= MAX_KEYS && META in m && m[META] != ZERO_PAGE
    requires forall j | k <= j < MAX_KEYS :: m[[j]] == ZERO_PAGE
    ensures NonzeroFrom(m, k) == m[META]
    decreases MAX_KEYS - k
  {
    if k < MAX_KEYS {
      OnlyTag(m, k + 1);
      NonzeroStep(m, k);
    }
  }

  // ---------- byte by byte ----------

  /** The pages the client keeps. */
  ghost function KeptPages(c: Cell, k: nat): seq<nat>
    requires k <= MAX_KEYS
    decreases MAX_KEYS - k
  {
    if k == MAX_KEYS then []
    else (if c.flat[127 * k..127 * k + 127] != ZERO_PAGE then [k] else []) + KeptPages(c, k + 1)
  }

  lemma {:induction false} KeptInRange(c: Cell, k: nat)
    requires k <= MAX_KEYS
    ensures forall j | 0 <= j < |KeptPages(c, k)| :: KeptPages(c, k)[j] < MAX_KEYS
    decreases MAX_KEYS - k
  {
    if k < MAX_KEYS { KeptInRange(c, k + 1); }
  }

  /** The byte the client reads at a position: that of the page kept in that place, or of the
      tag after the last. */
  ghost function ByteRead(c: Cell, k: nat, i: nat): Option<byte>
    requires k <= MAX_KEYS
  {
    KeptInRange(c, k);
    var kept := KeptPages(c, k);
    if i < 127 * |kept| then Some(c.flat[127 * kept[i / 127] + i % 127])
    else if c.tag.Some? && i - 127 * |kept| < |c.tag.value| then Some(c.tag.value[i - 127 * |kept|])
    else None
  }

  lemma KeptFirst(c: Cell, k: nat, i: nat)
    requires k < MAX_KEYS
    ensures
      if c.flat[127 * k..127 * k + 127] == ZERO_PAGE then ByteRead(c, k, i) == ByteRead(c, k + 1, i)
      else if i < 127 then ByteRead(c, k, i) == Some(c.flat[127 * k + i])
      else ByteRead(c, k, i) == ByteRead(c, k + 1, i - 127)
  {
    if c.flat[127 * k..127 * k + 127] != ZERO_PAGE {
      var rest := KeptPages(c, k + 1);
      assert KeptPages(c, k) == [k] + rest;
      if 127 <= i {
        assert i / 127 == (i - 127) / 127 + 1 && i % 127 == (i - 127) % 127;
      }
    }
  }

  /** What the client decodes, byte by byte. */
  lemma {:induction false} DecodedByte(m: Pages, k: nat, i: nat)
    requires Paged(m) && ShortTag(m) && k <= MAX_KEYS
    ensures ByteRead(CellOf(m), k, i) == if i < |NonzeroFrom(m, k)| then Some(NonzeroFrom(m, k)[i]) else None
    decreases MAX_KEYS - k
  {
    hide ByteRead, NonzeroFrom, CellOf;
    if k == MAX_KEYS {
      OnlyTagLeft(m, i);
    } else {
      WholePage(m, k);
      NonzeroStep(m, k);
      KeptFirst(CellOf(m), k, i);
      if m[[k]] == ZERO_PAGE {
        DecodedByte(m, k + 1, i);
      } else if i < 127 {
        assert NonzeroFrom(m, k)[i] == m[[k]][i] == CellOf(m).flat[127 * k..127 * k + 127][i];
      } else {
        DecodedByte(m, k + 1, i - 127);
      }
    }
  }

  lemma OnlyTagLeft(m: Pages, i: nat)
    requires Paged(m) && ShortTag(m)
    ensures ByteRead(CellOf(m), MAX_KEYS, i) == if i < |NonzeroFrom(m, MAX_KEYS)| then Some(NonzeroFrom(m, MAX_KEYS)[i]) else None
  {
  }

  // ---------- bits ----------

  /** `a & b` */
  function And(a: nat, b: nat): nat {
    if a == 0 || b == 0 then 0
    else (if a % 2 == 1 && b % 2 == 1 then 1 else 0) + 2 * And(a / 2, b / 2)
  }

  lemma {:induction false} AndPower(a: nat, k: nat)
    ensures And(a, Pow(2, k)) != 0 <==> Bit(a, k)
  {
    if a == 0 {
      ZeroHasNoBits(k);
    } else if k > 0 {
      AndPower(a / 2, k - 1);
    } else {
      assert And(a / 2, 0) == 0;
    }
  }

  const BITS_PER_KEY: nat := 1016

  // ---------- the block of a sequence number ----------

  /** The client divides in floating point. */
  function ClientBlock(seq_: uint64): nat {
    IntOfQuotient(seq_, MAX_BITS)
  }

  /** The division loses nothing: what is missing to the next block is more than half a unit
      in the last place of the block number. */
  predicate BlockExact(seq_: uint64) {
    CutsExactly(seq_, MAX_BITS)
  }

  /** The client finds the contract's block if the division is exact, and the one after it
      otherwise. */
  lemma ClientBlockIs(seq_: uint64)
    ensures ClientBlock(seq_) == SlotOf(seq_).block + if BlockExact(seq_) then 0 else 1
  {
    hide CutsExactly, IntOfQuotient;
    IntOfQuotientIs(seq_, MAX_BITS);
  }

  /** The last sequence number of block 2^40. */
  const FIRST_INEXACT: uint64 := 16756557207321479

  lemma LogAt(q: nat, e: nat)
    requires Pow(2, e) <= q < Pow(2, e + 1)
    ensures q > 0 && Log2(q) == e
  {
    hide Log2, Pow;
    PowPositive(e);
    LeadingBit(q);
    if Log2(q) < e { PowGrows(Log2(q) + 1, e); }
    if e < Log2(q) { PowGrows(e + 1, Log2(q)); }
  }

  /** It is the first for which the client goes wrong. */
  lemma FirstInexact(seq_: uint64)
    ensures seq_ < FIRST_INEXACT ==> BlockExact(seq_)
    ensures !BlockExact(FIRST_INEXACT) && ClientBlock(FIRST_INEXACT) == 0x100_0000_0001 && SlotOf(FIRST_INEXACT).block == 0x100_0000_0000
  {
    hide Log2, Pow;
    Powers();
    PowTwice(40);
    LogAt(0x100_0000_0000, 40);
    ClientBlockIs(FIRST_INEXACT);
    if seq_ < 0x100_0000_0000 * MAX_BITS {
      SmallQuotient(seq_, MAX_BITS, 40);
    } else if seq_ < FIRST_INEXACT {
      assert seq_ / MAX_BITS == 0x100_0000_0000 && MAX_BITS - seq_ % MAX_BITS >= 2;
    }
  }

  /** Where the client goes wrong, less than two pages of bits are missing to the next
      block. */
  lemma InexactNearEnd(seq_: uint64)
    requires !BlockExact(seq_)
    ensures MAX_BITS - seq_ % MAX_BITS <= 1905
  {
    hide Log2, Pow;
    var q, gap := seq_ / MAX_BITS, MAX_BITS - seq_ % MAX_BITS;
    Powers();
    PowSum(11, 40);
    assert Pow(2, 11) == 2048 && Pow(2, 3) == 8 by { SmallPowers(); }
    LogBelow(q, 51);
    PowGrows(3, 53 - Log2(q));
    MulMono(8, Pow(2, 53 - Log2(q)), gap);
  }

  lemma SmallPowers()
    ensures Pow(2, 11) == 2048 && Pow(2, 3) == 8
  {
    assert Pow(2, 8) == 256;
  }

  // ---------- check_bits_set ----------

  lemma SamePlace(seq_: nat)
    ensures
      var rest := seq_ - seq_ / MAX_BITS * MAX_BITS;
      var s := rest / BITS_PER_KEY;
      var b := (rest - s * BITS_PER_KEY) / 8;
      && 0 <= rest < MAX_BITS && s < MAX_KEYS && 0 <= b < 127
      && 127 * s + b == seq_ / 8 % MAX_BYTES
  {
    var block := seq_ / MAX_BITS;
    var rest := seq_ - block * MAX_BITS;
    var s := rest / BITS_PER_KEY;
    var q := (rest - s * BITS_PER_KEY) / 8;
    var bit := (rest - s * BITS_PER_KEY) % 8;
    SlotBijection(seq_, Slot(block, 127 * s + q, bit));
  }

  /** Page and index the client computes: the contract's, or counted back from the next
      block. */
  lemma ClientPlace(seq_: uint64)
    ensures
      var rest := seq_ - ClientBlock(seq_) * MAX_BITS;
      && -16384 < rest < 16384
      && var s := IntDiv(rest, BITS_PER_KEY);
         -16384 < rest - s * BITS_PER_KEY < 16384
         && var b := IntDiv(rest - s * BITS_PER_KEY, 8);
         var short := MAX_BITS - seq_ % MAX_BITS;
         if BlockExact(seq_) then 0 <= s < MAX_KEYS && 0 <= b < 127 && 127 * s + b == SlotOf(seq_).byteAt
         else (s < 0 <==> short >= BITS_PER_KEY) && (short < BITS_PER_KEY ==> s == 0 && b == 0 - short / 8)
  {
    hide BlockExact, ClientBlock, IntOfQuotient;
    ClientBlockIs(seq_);
    var rest := seq_ - ClientBlock(seq_) * MAX_BITS;
    var short := MAX_BITS - seq_ % MAX_BITS;
    SamePlace(seq_);
    if BlockExact(seq_) {
      SmallDiv(rest, BITS_PER_KEY);
      SmallDiv(rest - rest / BITS_PER_KEY * BITS_PER_KEY, 8);
    } else {
      assert rest == 0 - short;
      SmallDiv(short, BITS_PER_KEY);
      if short < BITS_PER_KEY { SmallDiv(short, 8); }
    }
  }

  /** What `check_bits_set` looks at in an account's bytes; `None` when it raises an error. */
  ghost function BitRead(flat: Flat, seq_: uint64): Option<bool> {
    var short := MAX_BITS - seq_ % MAX_BITS;
    if BlockExact(seq_) then Some(Bit(flat[SlotOf(seq_).byteAt], SlotOf(seq_).bit))
    else if short >= BITS_PER_KEY then None
    else Some(Bit(flat[if short < 8 then 0 else 127 - short / 8], seq_ % 8))
  }

  /** `check_bits_set` on the entries of an account: the contract's bit when the division is
      exact; otherwise another bit, of the first page and counted from its end, or an error
      because the page number is negative. */
  method CheckBitsSet(kvs: Entries, seq_: uint64, ghost m: Pages) returns (r: Option<bool>)
    requires Paged(m) && Lists(kvs, m)
    ensures r == BitRead(CellOf(m).flat, seq_)
  {
    hide IntOfQuotient, IntDiv, BlockExact;
    ClientPlace(seq_);
    BlockOf(seq_);
    var start := IntOfQuotient(seq_, MAX_BITS) * MAX_BITS;
    var s := IntDiv(seq_ - start, BITS_PER_KEY);
    var b := IntDiv((seq_ - start) - s * BITS_PER_KEY, 8);
    if s < 0 || 255 < s { return None; }
    var k: bytes := [s];
    assert (k, m[k]) in kvs;
    ghost var index := if b < 0 then 127 + b else b;
    PageSlice(m, s, index, index + 1);
    assert CellOf(m).flat[127 * s + index] == m[k][index] by {
      assert CellOf(m).flat[127 * s + index..127 * s + (index + 1)][0] == m[k][index..index + 1][0];
    }
    for i := 0 to |kvs|
      invariant forall j | 0 <= j < i :: kvs[j].0 != k
    {
      if kvs[i].0 == k {
        var v := kvs[i].1;
        var bt := Pow(2, seq_ % 8);
        var byteAt := v[if b < 0 then |v| + b else b];
        AndPower(byteAt, seq_ % 8);
        return Some(And(byteAt, bt) != 0);
      }
    }
    assert false;
  }

  lemma BlockOf(seq_: uint64)
    ensures IntOfQuotient(seq_, MAX_BITS) == ClientBlock(seq_)
  {
  }

  /** The client and the contract agree, through different arithmetic, on whether a message
      has been accepted, if the division is exact; otherwise the client looks at the account
      of the next block, and there at the bit said. */
  method AlreadyAccepted(at: Locator, ghost accounts: map<bytes, Pages>, m: Message, state: Option<Entries>) returns (r: Option<bool>)
    requires AllPaged(accounts)
    requires
      var a := at(ClientBlock(m.sequence), m.emitter);
      && (state.Some? <==> a in accounts)
      && (state.Some? ==> Lists(state.value, accounts[a]))
    ensures BlockExact(m.sequence) ==> r == Some(Seen(at, CellsOf(accounts), m))
    ensures !BlockExact(m.sequence) ==>
      var a := at(SlotOf(m.sequence).block + 1, m.emitter);
      r == if a in accounts then BitRead(CellsOf(accounts)[a].flat, m.sequence) else Some(false)
  {
    hide BlockExact, ClientBlock;
    ClientBlockIs(m.sequence);
    if state.None? { return Some(false); }
    r := CheckBitsSet(state.value, m.sequence, accounts[at(ClientBlock(m.sequence), m.emitter)]);
  }
}
