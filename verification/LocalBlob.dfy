/** An account's local state used as one large byte string: fifteen pages of 127 bytes
    under one-byte keys, plus a `meta` entry naming the account's role. */
module LocalBlob {
  import opened Teal

  const PAGE_SIZE: nat := 127
  const MAX_KEYS: nat := 15
  const MAX_BYTES: nat := 1905

  /** Page keys keep only the low byte of the page number, so indices repeat with this
      period. */
  const WINDOW: nat := 32512

  /** "meta" */
  const META: bytes := [109, 101, 116, 97]

  type Pages = map<bytes, bytes>

  /** The key of page `i`: the last byte of its eight-byte encoding. */
  function IntKey(i: nat): bytes {
    [i % 256]
  }

  lemma IntKeyIsLowByte(i: uint64)
    ensures Extract(Itob(i), 7, 1) == Some(IntKey(i))
  {
    var s := ToBE(i, 8);
    assert s == ToBE(i / 256, 7) + [i % 256];
    assert s[7..7 + 1] == [i % 256];
  }

  // ---------- the flat view ----------

  type Flat = s: bytes | |s| == MAX_BYTES witness Zeros(MAX_BYTES)

  /** A storage account as its users see it. */
  datatype Cell = Cell(flat: Flat, tag: Option<bytes>)

  const EMPTY_CELL: Cell := Cell(Zeros(MAX_BYTES), None)

  ghost predicate IsPageKey(key: bytes, n: nat) {
    |key| == 1 && key[0] < n
  }

  ghost predicate Paged(m: Pages) {
    && (forall k | 0 <= k < MAX_KEYS :: [k] in m && |m[[k]]| == PAGE_SIZE)
    && (forall key | key in m :: key == META || IsPageKey(key, MAX_KEYS))
  }

  ghost function CellOf(m: Pages): Cell
    requires Paged(m)
  {
    Cell(seq(MAX_BYTES, i requires 0 <= i < MAX_BYTES => m[[i / PAGE_SIZE]][i % PAGE_SIZE]),
         if META in m then Some(m[META]) else None)
  }

  function Splice(s: Flat, start: nat, buff: bytes): Flat
    requires start + |buff| <= MAX_BYTES
  {
    s[..start] + buff + s[start + |buff|..]
  }

  function CellGet(c: Cell, idx: nat): Option<byte> {
    if idx % WINDOW < MAX_BYTES then Some(c.flat[idx % WINDOW]) else None
  }

  function CellPut(c: Cell, idx: nat, b: byte): Option<Cell> {
    if idx % WINDOW < MAX_BYTES then Some(c.(flat := ReplaceAt(c.flat, idx % WINDOW, b))) else None
  }

  /** A range is readable when it ends before the last byte of the blob is passed; a range
      whose start lies on a later page than its end reads as empty. */
  function CellRead(c: Cell, start: nat, end: nat): Option<bytes> {
    if start / PAGE_SIZE > end / PAGE_SIZE then Some([])
    else if start <= end && start / WINDOW == end / WINDOW && end % WINDOW < MAX_BYTES
    then Some(c.flat[start % WINDOW..end % WINDOW])
    else None
  }

  function CellWrite(c: Cell, start: nat, buff: bytes): Option<Cell> {
    var end := start + |buff|;
    if start / WINDOW == end / WINDOW && end % WINDOW < MAX_BYTES
    then Some(c.(flat := Splice(c.flat, start % WINDOW, buff)))
    else None
  }

  lemma FoldIndex(idx: nat)
    ensures idx / PAGE_SIZE / 256 == idx / WINDOW
    ensures idx / PAGE_SIZE % 256 == idx % WINDOW / PAGE_SIZE
    ensures idx % PAGE_SIZE == idx % WINDOW % PAGE_SIZE
  {
    var q, r := idx / WINDOW, idx % WINDOW;
    assert idx == 127 * (256 * q + r / 127) + r % 127;
  }

  lemma PageSlice(m: Pages, k: nat, s: nat, t: nat)
    requires Paged(m) && k < MAX_KEYS && s <= t <= PAGE_SIZE
    ensures CellOf(m).flat[127 * k + s..127 * k + t] == m[[k]][s..t]
  {
    var f := CellOf(m).flat;
    forall j | s <= j < t ensures f[127 * k + j] == m[[k]][j] {
      assert (127 * k + j) / PAGE_SIZE == k || j == 127;
    }
  }

  lemma PutPage(m: Pages, k: nat, page: bytes)
    requires Paged(m) && k < MAX_KEYS && |page| == PAGE_SIZE
    ensures Paged(m[[k] := page])
    ensures CellOf(m[[k] := page]) == CellOf(m).(flat := Splice(CellOf(m).flat, 127 * k, page))
  {
    var m' := m[[k] := page];
    var f, f' := CellOf(m).flat, CellOf(m').flat;
    assert [k] != META;
    forall i | 0 <= i < MAX_BYTES ensures f'[i] == Splice(f, 127 * k, page)[i] {
      if i / PAGE_SIZE == k {
        assert i == 127 * k + i % PAGE_SIZE;
      } else {
        assert [i / PAGE_SIZE] != [k];
      }
    }
  }

  lemma PutByte(m: Pages, idx: nat, b: byte)
    requires Paged(m) && idx % WINDOW < MAX_BYTES
    ensures idx / PAGE_SIZE % 256 < MAX_KEYS
    ensures
      var key: bytes := [idx / PAGE_SIZE % 256];
      && Paged(m[key := ReplaceAt(m[key], idx % PAGE_SIZE, b)])
      && CellPut(CellOf(m), idx, b) == Some(CellOf(m[key := ReplaceAt(m[key], idx % PAGE_SIZE, b)]))
  {
    FoldIndex(idx);
    var k, o := idx / PAGE_SIZE % 256, idx % PAGE_SIZE;
    var page := ReplaceAt(m[[k]], o, b);
    PutPage(m, k, page);
    PageSlice(m, k, 0, PAGE_SIZE);
    var f := CellOf(m).flat;
    assert m[[k]] == f[127 * k..127 * k + 127];
    assert idx % WINDOW == 127 * k + o;
    assert Splice(f, 127 * k, page) == ReplaceAt(f, 127 * k + o, b);
  }

  lemma PutTag(m: Pages, val: bytes)
    requires Paged(m)
    ensures Paged(m[META := val]) && CellOf(m[META := val]) == CellOf(m).(tag := Some(val))
  {
    var m' := m[META := val];
    assert forall i | 0 <= i < MAX_BYTES :: m'[[i / PAGE_SIZE]] == m[[i / PAGE_SIZE]];
    assert CellOf(m').flat == CellOf(m).flat;
  }

  /** A byte range as the loops see it: first and last page with the offsets in them. */
  datatype Range = Range(startKey: nat, startOffset: nat, stopKey: nat, stopOffset: nat) {
    function PartStart(key: nat): nat { if key == startKey then startOffset else 0 }

    function PartStop(key: nat): nat { if key == stopKey then stopOffset else PAGE_SIZE }

    /** How many bytes of the range lie before page `key`. */
    function Before(key: nat): int {
      if key == startKey then 0
      else if key <= stopKey then 127 * (key - startKey) - startOffset
      else 127 * (stopKey - startKey) + stopOffset - startOffset
    }

    ghost predicate Offsets() { startOffset < PAGE_SIZE && stopOffset < PAGE_SIZE }

    /** `base` is the window the range starts in, and the range ends within its fifteen pages. */
    ghost predicate Fits(base: nat) {
      base % 256 == 0 && base <= startKey <= stopKey < base + MAX_KEYS
    }

    ghost predicate SameWindow(base: nat) {
      base % 256 == 0 && base <= startKey <= stopKey < base + 256
    }

    /** Where the range starts in the flat string. */
    ghost function From(base: nat): int { 127 * (startKey - base) + startOffset }

    function Length(): int { Before(stopKey + 1) }

    lemma PartInPlace(base: nat, key: nat)
      requires Offsets() && startKey <= key <= stopKey
      ensures Before(key + 1) == Before(key) + PartStop(key) - PartStart(key)
      ensures Length() >= 0 ==> PartStart(key) <= PartStop(key)
      ensures Length() < 0 ==> PartStart(key) > PartStop(key)
      ensures Length() >= 0 ==> 0 <= Before(key) <= Before(key + 1) <= Length()
      ensures SameWindow(base) ==> key % 256 == key - base
      ensures From(base) + Before(key) == 127 * (key - base) + PartStart(key)
    {
    }
  }

  function RangeOf(start: nat, end: nat): (r: Range)
    ensures r.startOffset < PAGE_SIZE && r.stopOffset < PAGE_SIZE
    ensures start == 127 * r.startKey + r.startOffset && end == 127 * r.stopKey + r.stopOffset
    ensures r.startKey == start / PAGE_SIZE && r.stopKey == end / PAGE_SIZE
  {
    Range(start / PAGE_SIZE, start % PAGE_SIZE, end / PAGE_SIZE, end % PAGE_SIZE)
  }

  lemma WindowOf(start: nat, end: nat)
    requires start / PAGE_SIZE <= end / PAGE_SIZE
    ensures
      var p, base := RangeOf(start, end), start / WINDOW * 256;
      && (p.SameWindow(base) <==> start / WINDOW == end / WINDOW)
      && (p.Fits(base) <==> start / WINDOW == end / WINDOW && end % WINDOW < MAX_BYTES)
      && p.From(base) == start % WINDOW
      && p.Length() == end - start
      && (p.SameWindow(base) ==> p.From(base) + p.Length() == end % WINDOW)
  {
    FoldIndex(start);
    FoldIndex(end);
  }

  /** The part of page `key` that a range covers, if there is such a page. */
  function PagePart(m: Pages, key: nat, start: nat, stop: nat): Option<bytes> {
    if [key % 256] in m then Substring(m[[key % 256]], start, stop) else None
  }

  lemma ReadPart(m: Pages, from: nat, n: nat, buff: bytes, key: nat, start: nat, stop: nat)
    requires Paged(m) && key % 256 < MAX_KEYS && start <= stop <= PAGE_SIZE
    requires from + n == 127 * (key % 256) + start && buff == CellOf(m).flat[from..from + n]
    ensures from + n + (stop - start) <= MAX_BYTES
    ensures PagePart(m, key, start, stop).Some?
    ensures buff + PagePart(m, key, start, stop).value == CellOf(m).flat[from..from + n + (stop - start)]
  {
    PageSlice(m, key % 256, start, stop);
  }

  /** What the read loop maintains before page `key`. */
  ghost predicate Reading(m: Pages, p: Range, base: nat, key: nat, buff: bytes)
    requires Paged(m)
  {
    if key == p.startKey then buff == []
    else
      && p.startKey < key <= p.stopKey + 1
      && p.Length() >= 0 && key - base <= MAX_KEYS
      && 0 <= p.From(base) <= p.From(base) + p.Before(key) <= MAX_BYTES
      && buff == CellOf(m).flat[p.From(base)..p.From(base) + p.Before(key)]
  }

  lemma ReadStep(m: Pages, p: Range, base: nat, key: nat, buff: bytes)
    requires Paged(m) && p.Offsets() && base % 256 == 0 && base <= p.startKey < base + 256
    requires p.startKey <= key <= p.stopKey && Reading(m, p, base, key, buff)
    ensures
      var part := PagePart(m, key, p.PartStart(key), p.PartStop(key));
      && (part.Some? <==> key - base < MAX_KEYS && p.Length() >= 0)
      && (part.Some? ==> Reading(m, p, base, key + 1, buff + part.value))
  {
    p.PartInPlace(base, key);
    assert key % 256 == key - base;
    assert [key % 256] != META;
    if key - base < MAX_KEYS && p.Length() >= 0 {
      ReadPart(m, p.From(base), p.Before(key), buff, key, p.PartStart(key), p.PartStop(key));
    }
  }

  /** The loop of `blob.read` on one account's pages. */
  method ReadRange(m: Pages, p: Range, ghost base: nat) returns (r: Option<bytes>)
    requires Paged(m) && p.Offsets() && base % 256 == 0 && base <= p.startKey < base + 256
    ensures p.startKey > p.stopKey ==> r == Some([])
    ensures p.Fits(base) && p.Length() >= 0 ==>
      r.Some? && p.From(base) + p.Length() <= MAX_BYTES && r.value == CellOf(m).flat[p.From(base)..p.From(base) + p.Length()]
    ensures p.startKey <= p.stopKey && (!p.Fits(base) || p.Length() < 0) ==> r == None
  {
    var key: nat, buff := p.startKey, [];
    while key <= p.stopKey
      invariant p.startKey <= key && Reading(m, p, base, key, buff)
    {
      ReadStep(m, p, base, key, buff);
      var part :- PagePart(m, key, p.PartStart(key), p.PartStop(key));
      buff := buff + part;
      key := key + 1;
    }
    return Some(buff);
  }

  /** Overwriting part of page `k` continues a splice that stopped where the part begins. */
  lemma SpliceExtend(f: Flat, a: nat, buff: bytes, w: nat, w': nat, k: nat, start: nat)
    requires w <= w' <= |buff| && a + w == 127 * k + start && k < MAX_KEYS && start + (w' - w) <= PAGE_SIZE
    ensures
      var f1 := Splice(f, a, buff[..w]);
      var page := f1[127 * k..127 * k + 127];
      Splice(f1, 127 * k, page[..start] + buff[w..w'] + page[start + (w' - w)..]) == Splice(f, a, buff[..w'])
  {
    var f1 := Splice(f, a, buff[..w]);
    var page := f1[127 * k..127 * k + 127];
    var page' := page[..start] + buff[w..w'] + page[start + (w' - w)..];
    var l, r := Splice(f1, 127 * k, page'), Splice(f, a, buff[..w']);
    forall i | 0 <= i < MAX_BYTES ensures l[i] == r[i] {
      if a + w <= i < a + w' {
        assert l[i] == page'[i - 127 * k] == buff[w + (i - a - w)];
      } else if 127 * k <= i < 127 * k + 127 {
        assert l[i] == page'[i - 127 * k] == page[i - 127 * k] == f1[i];
      }
    }
  }

  /** The new value of a page when bytes `start` to `stop` of it are overwritten: the old page
      is consulted only for a partial write. */
  function NewPage(m: Pages, key: nat, start: nat, stop: nat, part: bytes): Option<bytes> {
    if stop != PAGE_SIZE || start != 0 then
      var head :- PagePart(m, key, 0, start);
      var tail :- PagePart(m, key, stop, PAGE_SIZE);
      Some(head + part + tail)
    else
      Some(part)
  }

  /** `m` is `m0` with the first `n` bytes of `buff` spliced in at `from`. */
  ghost predicate WrittenSoFar(m0: Pages, m: Pages, from: nat, buff: bytes, n: nat)
    requires Paged(m0)
  {
    && n <= |buff| && from + n <= MAX_BYTES
    && Paged(m)
    && CellOf(m) == CellOf(m0).(flat := Splice(CellOf(m0).flat, from, buff[..n]))
  }

  lemma NewPageValue(m: Pages, key: nat, start: nat, part: bytes)
    requires Paged(m) && key % 256 < MAX_KEYS && start + |part| <= PAGE_SIZE
    ensures
      var f := CellOf(m).flat;
      var page := f[127 * (key % 256)..127 * (key % 256) + 127];
      NewPage(m, key, start, start + |part|, part) == Some(page[..start] + part + page[start + |part|..])
  {
    var k := key % 256;
    PageSlice(m, k, 0, PAGE_SIZE);
    assert m[[k]][0..PAGE_SIZE] == m[[k]];
    if start == 0 && |part| == PAGE_SIZE {
      assert m[[k]][..start] + part + m[[k]][start + |part|..] == part;
    }
  }

  lemma WritePart(m0: Pages, m: Pages, from: nat, buff: bytes, n: nat, n': nat, key: nat, start: nat)
    requires Paged(m0) && WrittenSoFar(m0, m, from, buff, n)
    requires n <= n' <= |buff| && key % 256 < MAX_KEYS && start + (n' - n) <= PAGE_SIZE
    requires from + n == 127 * (key % 256) + start
    ensures NewPage(m, key, start, start + (n' - n), buff[n..n']).Some?
    ensures WrittenSoFar(m0, m[[key % 256] := NewPage(m, key, start, start + (n' - n), buff[n..n']).value], from, buff, n')
  {
    var k := key % 256;
    NewPageValue(m, key, start, buff[n..n']);
    var page := NewPage(m, key, start, start + (n' - n), buff[n..n']).value;
    SpliceExtend(CellOf(m0).flat, from, buff, n, n', k, start);
    PutPage(m, k, page);
  }

  /** A range that stays in its window but runs past the last page ends on a page that does
      not exist, and no earlier step of the loop creates it. */
  ghost predicate Doomed(m: Pages, p: Range, key: nat) {
    key <= p.stopKey && [p.stopKey % 256] !in m
  }

  lemma DoomedStep(m: Pages, p: Range, base: nat, key: nat, part: bytes)
    requires p.Offsets() && p.SameWindow(base) && Doomed(m, p, key) && p.startKey <= key
    ensures
      var page := NewPage(m, key, p.PartStart(key), p.PartStop(key), part);
      page.Some? ==> Doomed(m[[key % 256] := page.value], p, key + 1)
  {
    if key < p.stopKey {
      assert key % 256 == key - base && p.stopKey % 256 == p.stopKey - base;
      assert [key % 256] != [p.stopKey % 256];
    }
  }

  /** What the write loop maintains before page `key`. */
  ghost predicate Writing(m0: Pages, m: Pages, p: Range, base: nat, buff: bytes, key: nat)
    requires Paged(m0)
  {
    && 0 <= p.Before(key) <= |buff|
    && (p.Fits(base) ==> WrittenSoFar(m0, m, p.From(base), buff, p.Before(key)))
    && (p.SameWindow(base) && !p.Fits(base) ==> Doomed(m, p, key))
  }

  lemma WriteStart(m0: Pages, p: Range, base: nat, buff: bytes)
    requires Paged(m0) && p.Offsets() && p.startKey <= p.stopKey && p.Length() == |buff|
    ensures Writing(m0, m0, p, base, buff, p.startKey)
  {
    assert p.Fits(base) ==> Splice(CellOf(m0).flat, p.From(base), buff[..0]) == CellOf(m0).flat;
    assert [p.stopKey % 256] != META;
  }

  lemma WriteStep(m0: Pages, m: Pages, p: Range, base: nat, buff: bytes, key: nat, part: bytes)
    requires Paged(m0) && p.Offsets() && p.Length() == |buff|
    requires p.startKey <= key <= p.stopKey && Writing(m0, m, p, base, buff, key)
    requires 0 <= p.Before(key) <= p.Before(key + 1) <= |buff| && part == buff[p.Before(key)..p.Before(key + 1)]
    ensures
      var page := NewPage(m, key, p.PartStart(key), p.PartStop(key), part);
      && (p.Fits(base) ==> page.Some?)
      && (page.Some? ==> Writing(m0, m[IntKey(key) := page.value], p, base, buff, key + 1))
  {
    p.PartInPlace(base, key);
    if p.Fits(base) {
      WritePart(m0, m, p.From(base), buff, p.Before(key), p.Before(key + 1), key, p.PartStart(key));
    } else if p.SameWindow(base) {
      DoomedStep(m, p, base, key, part);
    }
  }

  /** The loop of `blob.write` on one account's pages. */
  method WriteRange(m0: Pages, p: Range, buff: bytes, ghost base: nat) returns (r: Option<(Pages, nat)>)
    requires Paged(m0) && p.Offsets() && p.startKey <= p.stopKey && p.Length() == |buff|
    ensures p.Fits(base) ==> r.Some? && r.value.1 == |buff| && WrittenSoFar(m0, r.value.0, p.From(base), buff, |buff|)
    ensures p.SameWindow(base) && !p.Fits(base) ==> r == None
  {
    var m := m0;
    var key: nat, written: nat := p.startKey, 0;
    WriteStart(m0, p, base, buff);
    while key <= p.stopKey
      invariant p.startKey <= key <= p.stopKey + 1 && written == p.Before(key)
      invariant Writing(m0, m, p, base, buff, key)
    {
      p.PartInPlace(base, key);
      var delta := p.PartStop(key) - p.PartStart(key);
      var part := buff[written..written + delta];
      WriteStep(m0, m, p, base, buff, key, part);
      var page :- NewPage(m, key, p.PartStart(key), p.PartStop(key), part);
      m := m[IntKey(key) := page];
      written := written + delta;
      key := key + 1;
    }
    return Some((m, written));
  }

  lemma WriteDone(m0: Pages, m: Pages, bstart: nat, buff: bytes)
    requires Paged(m0)
    requires
      var p, base := RangeOf(bstart, bstart + |buff|), bstart / WINDOW * 256;
      p.Fits(base) && WrittenSoFar(m0, m, p.From(base), buff, |buff|)
    ensures CellWrite(CellOf(m0), bstart, buff) == Some(CellOf(m))
  {
    WindowOf(bstart, bstart + |buff|);
    assert buff[..|buff|] == buff;
  }

  /** The loop of `blob.zero`. */
  method ZeroPages() returns (m: Pages)
    ensures Paged(m) && CellOf(m) == EMPTY_CELL
  {
    m := map[];
    var i := 0;
    while i < MAX_KEYS
      invariant 0 <= i <= MAX_KEYS
      invariant Zeroed(m, i)
    {
      ZeroedStep(m, i);
      m := m[IntKey(i) := Zeros(PAGE_SIZE)];
      i := i + 1;
    }
    ZeroedIsEmpty(m);
  }

  ghost predicate AllPaged(accounts: map<bytes, Pages>) {
    forall a | a in accounts :: Paged(accounts[a])
  }

  ghost function CellsOf(accounts: map<bytes, Pages>): map<bytes, Cell>
    requires AllPaged(accounts)
  {
    map a | a in accounts :: CellOf(accounts[a])
  }

  lemma PutPages(accounts: map<bytes, Pages>, acct: bytes, m: Pages)
    requires AllPaged(accounts) && Paged(m)
    ensures AllPaged(accounts[acct := m])
    ensures CellsOf(accounts[acct := m]) == CellsOf(accounts)[acct := CellOf(m)]
  {
  }

  ghost predicate Zeroed(m: Pages, n: nat) {
    && (forall k | 0 <= k < n :: [k] in m && m[[k]] == Zeros(PAGE_SIZE))
    && (forall key | key in m :: IsPageKey(key, n))
  }

  lemma ZeroedStep(m: Pages, n: nat)
    requires Zeroed(m, n) && n < MAX_KEYS
    ensures Zeroed(m[[n] := Zeros(PAGE_SIZE)], n + 1)
  {
    var m' := m[[n] := Zeros(PAGE_SIZE)];
    forall k | 0 <= k < n + 1 ensures [k] in m' && m'[[k]] == Zeros(PAGE_SIZE) {
      assert k != n ==> [k] != [n];
    }
    forall key | key in m' ensures IsPageKey(key, n + 1) {
      assert key != [n] ==> key in m;
    }
  }

  lemma ZeroedIsEmpty(m: Pages)
    requires Zeroed(m, MAX_KEYS)
    ensures Paged(m) && CellOf(m) == EMPTY_CELL
  {
    assert META !in m;
  }

  // ---------- the paged implementation ----------

  class LocalBlob {
    /** Local state of every account that has opted in. */
    var accounts: map<bytes, Pages>

    constructor ()
      ensures accounts == map[] && Valid()
    {
      accounts := map[];
    }

    ghost predicate Valid()
      reads this
    {
      AllPaged(accounts)
    }

    ghost function Cells(): map<bytes, Cell>
      requires Valid()
      reads this
    {
      CellsOf(accounts)
    }

    /** Reading a key that was never written yields an integer, which every byte-string
        instruction rejects. */
    function LocalGet(acct: bytes, key: bytes): Option<bytes>
      reads this
    {
      if acct in accounts && key in accounts[acct] then Some(accounts[acct][key]) else None
    }

    /** A fresh opt-in: the account gets its fifteen zero pages. */
    method Zero(acct: bytes)
      requires Valid()
      modifies this
      ensures Valid() && Cells() == old(Cells())[acct := EMPTY_CELL]
    {
      var pages := ZeroPages();
      PutPages(accounts, acct, pages);
      accounts := accounts[acct := pages];
    }

    function GetByte(acct: bytes, idx: uint64): (r: Option<byte>)
      requires Valid()
      reads this
      ensures acct !in accounts ==> r == None
      ensures acct in accounts ==> r == CellGet(Cells()[acct], idx)
    {
      FoldIndex(idx);
      var key, offset := idx / PAGE_SIZE, idx % PAGE_SIZE;
      var page :- LocalGet(acct, IntKey(key));
      if offset < |page| then Some(page[offset]) else None
    }

    method SetByte(acct: bytes, idx: uint64, b: byte) returns (r: Option<()>)
      requires Valid()
      modifies this
      ensures acct !in old(accounts) ==> r == None
      ensures acct in old(accounts) && CellPut(old(Cells())[acct], idx, b) == None ==> r == None
      ensures acct in old(accounts) && CellPut(old(Cells())[acct], idx, b).Some? ==>
        && r == Some(())
        && Valid()
        && Cells() == old(Cells())[acct := CellPut(old(Cells())[acct], idx, b).value]
    {
      FoldIndex(idx);
      var key, offset := idx / PAGE_SIZE, idx % PAGE_SIZE;
      var page :- LocalGet(acct, IntKey(key));
      if offset >= |page| { return None; }
      PutByte(accounts[acct], idx, b);
      PutPages(accounts, acct, accounts[acct][IntKey(key) := ReplaceAt(page, offset, b)]);
      accounts := accounts[acct := accounts[acct][IntKey(key) := ReplaceAt(page, offset, b)]];
      return Some(());
    }

    /** `blob.read`: the pages from that of `bstart` to that of `bend`, cut to size and
        joined, are the flat range. */
    method Read(acct: bytes, bstart: uint64, bend: uint64) returns (r: Option<bytes>)
      requires Valid()
      ensures acct in accounts ==> r == CellRead(Cells()[acct], bstart, bend)
      ensures acct !in accounts ==> r == if bstart / PAGE_SIZE > bend / PAGE_SIZE then Some([]) else None
    {
      if acct !in accounts {
        return if bstart / PAGE_SIZE > bend / PAGE_SIZE then Some([]) else None;
      }
      if bstart / PAGE_SIZE <= bend / PAGE_SIZE { WindowOf(bstart, bend); }
      FoldIndex(bstart);
      r := ReadRange(accounts[acct], RangeOf(bstart, bend), bstart / WINDOW * 256);
    }

    /** `blob.write`: pages touched in part keep their other bytes, pages covered whole are
        replaced; together this is one splice into the flat string. */
    method Write(acct: bytes, bstart: uint64, buff: bytes) returns (r: Option<nat>)
      requires Valid()
      modifies this
      ensures acct !in old(accounts) || bstart + |buff| >= U64 ==> r == None
      ensures acct in old(accounts) && bstart + |buff| < U64 && bstart / WINDOW == (bstart + |buff|) / WINDOW ==>
        match CellWrite(old(Cells())[acct], bstart, buff)
        case Some(c) => r == Some(|buff|) && Valid() && Cells() == old(Cells())[acct := c]
        case None => r == None
    {
      var bend := bstart + |buff|;
      if bend >= U64 || acct !in accounts { return None; }
      ghost var p, base := RangeOf(bstart, bend), bstart / WINDOW * 256;
      WindowOf(bstart, bend);
      var w :- WriteRange(accounts[acct], RangeOf(bstart, bend), buff, base);
      if p.Fits(base) {
        WriteDone(accounts[acct], w.0, bstart, buff);
        PutPages(accounts, acct, w.0);
      }
      accounts := accounts[acct := w.0];
      return Some(w.1);
    }

    method Meta(acct: bytes, val: bytes) returns (r: Option<()>)
      requires Valid()
      modifies this
      ensures r.Some? <==> acct in old(accounts)
      ensures r.Some? ==> Valid() && Cells() == old(Cells())[acct := old(Cells())[acct].(tag := Some(val))]
    {
      if acct !in accounts { return None; }
      PutTag(accounts[acct], val);
      PutPages(accounts, acct, accounts[acct][META := val]);
      accounts := accounts[acct := accounts[acct][META := val]];
      return Some(());
    }

    function CheckMeta(acct: bytes, val: bytes): Check
      requires Valid()
      reads this
      ensures CheckMeta(acct, val).Pass? <==> acct in accounts && Cells()[acct].tag == Some(val)
    {
      Require(LocalGet(acct, META) == Some(val))
    }
  }
}
