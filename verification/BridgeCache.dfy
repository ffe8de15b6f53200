/** The write-through cache over the bridge table: what it answers is what the table holds.
    Calls run one at a time; a call of the table that fails changes nothing. */
module BridgeCache {
  import opened Teal

  type int32 = n: int | -0x8000_0000 <= n < 0x8000_0000

  datatype BridgeType = BridgeType(name: string, url: string, confirmations: nat, minimumPayment: int, credentials: string, createdAt: int, updatedAt: int)

  /** The fields an update may change. */
  datatype BridgeRequest = BridgeRequest(url: string, confirmations: nat, minimumPayment: int)

  datatype BridgeResponse = BridgeResponse(dotId: string, specId: int32, value: bytes, finishedAt: int)

  datatype Stored = Stored(value: bytes, finishedAt: int)

  type Table = map<string, BridgeType>

  const NO_BRIDGE: BridgeType := BridgeType("", "", 0, 0, "", 0, 0)

  // ---------- lists of names ----------

  /** The rows of a list of names, in the list's order. */
  function Rows(table: Table, names: seq<string>): seq<BridgeType> {
    if names == [] then [] else Rows(table, names[..|names| - 1]) + [RowOf(table, names[|names| - 1])]
  }

  predicate Distinct(names: seq<string>) {
    forall i, j | 0 <= i < j < |names| :: names[i] != names[j]
  }

  predicate AllIn(names: seq<string>, table: Table) {
    forall n | n in names :: n in table
  }

  /** The names that are not in the cache, in order. */
  function Uncached(types: Table, names: seq<string>): seq<string> {
    if names == [] then []
    else
      var n := names[|names| - 1];
      Uncached(types, names[..|names| - 1]) + (if n in types then [] else [n])
  }

  function Cached(types: Table, names: seq<string>): seq<string> {
    if names == [] then []
    else
      var n := names[|names| - 1];
      Cached(types, names[..|names| - 1]) + (if n in types then [n] else [])
  }

  /** When the table answers: each name asked for once, and every one there. */
  predicate OrmAnswers(table: Table, names: seq<string>) {
    names != [] && Distinct(names) && AllIn(names, table)
  }

  /** When the cache answers, if the table can be reached: only the names it has to look up
      need be distinct. */
  predicate CacheAnswers(types: Table, table: Table, names: seq<string>) {
    names != [] && Distinct(Uncached(types, names)) && AllIn(names, table)
  }

  lemma {:induction false} UncachedMembers(types: Table, names: seq<string>)
    ensures forall n :: n in Uncached(types, names) <==> n in names && n !in types
  {
    if names != [] {
      var init, last := names[..|names| - 1], names[|names| - 1];
      UncachedMembers(types, init);
      assert names == init + [last];
    }
  }

  lemma {:induction false} UncachedDistinct(types: Table, names: seq<string>)
    requires Distinct(names)
    ensures Distinct(Uncached(types, names))
  {
    if names != [] {
      var init := names[..|names| - 1];
      UncachedDistinct(types, init);
      UncachedMembers(types, init);
    }
  }

  /** On distinct names the cache answers exactly when the table does; with repetitions it
      differs from the table exactly when every name is there and none of those it must look
      up is repeated. */
  lemma AnswersAgree(types: Table, table: Table, names: seq<string>)
    ensures OrmAnswers(table, names) ==> CacheAnswers(types, table, names)
    ensures (CacheAnswers(types, table, names) <==> OrmAnswers(table, names))
      <==> (Distinct(names) || !AllIn(names, table) || !Distinct(Uncached(types, names)))
  {
    if Distinct(names) { UncachedDistinct(types, names); }
    assert names == [] ==> Distinct(names);
  }

  /** Asking twice for a cached bridge: the cache answers twice, the table refuses. */
  lemma RepeatedName(types: Table, table: Table, name: string)
    requires name in types && name in table
    ensures CacheAnswers(types, table, [name, name]) && !OrmAnswers(table, [name, name])
  {
    var names := [name, name];
    assert names[..1] == [name] && names[..1][..0] == [];
    assert Uncached(types, [name]) == [];
    assert Uncached(types, names) == [];
    assert names[0] == names[1];
  }

  function RowOf(table: Table, n: string): BridgeType {
    if n in table then table[n] else NO_BRIDGE
  }

  lemma RowsAppend(table: Table, names: seq<string>, n: string)
    ensures Rows(table, names + [n]) == Rows(table, names) + [RowOf(table, n)]
  {
    assert (names + [n])[..|names|] == names;
  }

  lemma EmptyParts(table: Table, types: Table)
    ensures Cached(types, []) == [] && Uncached(types, []) == [] && Rows(table, []) == []
  {
  }

  lemma PartsAppend(types: Table, names: seq<string>, n: string)
    ensures Cached(types, names + [n]) == if n in types then Cached(types, names) + [n] else Cached(types, names)
    ensures Uncached(types, names + [n]) == if n in types then Uncached(types, names) else Uncached(types, names) + [n]
  {
    assert (names + [n])[..|names|] == names;
  }

  lemma {:induction false} RowsSplit(types: Table, table: Table, names: seq<string>)
    ensures multiset(Rows(table, names)) == multiset(Rows(table, Cached(types, names))) + multiset(Rows(table, Uncached(types, names)))
    ensures |Cached(types, names)| + |Uncached(types, names)| == |names|
  {
    if names != [] {
      var init, n := names[..|names| - 1], names[|names| - 1];
      assert names == init + [n];
      RowsSplit(types, table, init);
      hide Rows, Cached, Uncached;
      RowsAppend(table, init, n);
      PartsAppend(types, init, n);
      RowsAppend(table, Cached(types, init), n);
      RowsAppend(table, Uncached(types, init), n);
    }
  }

  lemma {:induction false} RowsAt(table: Table, names: seq<string>)
    ensures |Rows(table, names)| == |names|
    ensures forall i | 0 <= i < |names| :: Rows(table, names)[i] == RowOf(table, names[i])
  {
    if names != [] { RowsAt(table, names[..|names| - 1]); }
  }

  // ---------- the table ----------

  /** Rows are stored under their own names. */
  ghost predicate Keyed(table: Table) {
    forall n | n in table :: table[n].name == n
  }

  /** The database behind the cache. `fails` stands for any failure of the connection. */
  class Orm {
    var bridges: Table
    var responses: map<(string, int32), Stored>

    ghost predicate Valid()
      reads this
    {
      Keyed(bridges)
    }

    constructor (bridges: Table, responses: map<(string, int32), Stored>)
      requires Keyed(bridges)
      ensures Valid() && this.bridges == bridges && this.responses == responses
    {
      this.bridges, this.responses := bridges, responses;
    }

    method FindBridge(name: string, fails: bool) returns (r: Option<BridgeType>)
      ensures r == if !fails && name in bridges then Some(bridges[name]) else None
    {
      if fails || name !in bridges { return None; }
      return Some(bridges[name]);
    }

    /** One row for each name that exists, in no promised order; refused if that is not as
        many as were asked for. */
    method FindBridges(names: seq<string>, fails: bool) returns (r: Option<seq<BridgeType>>)
      ensures r.Some? <==> !fails && OrmAnswers(bridges, names)
      ensures r.Some? ==> multiset(r.value) == multiset(Rows(bridges, names)) && |r.value| == |names|
    {
      if fails || names == [] { return None; }
      var rows: seq<BridgeType>, seen: set<string> := [], {};
      var i := 0;
      while i < |names|
        invariant i <= |names| && Looked(bridges, names[..i], rows, seen)
      {
        assert names[..i + 1] == names[..i] + [names[i]];
        LookStep(bridges, names[..i], rows, seen, names[i]);
        if names[i] in bridges && names[i] !in seen {
          rows := rows + [bridges[names[i]]];
          seen := seen + {names[i]};
        }
        i := i + 1;
      }
      assert names[..|names|] == names;
      RowsAt(bridges, names);
      if |rows| != |names| { return None; }
      return Some(rows);
    }

    method Create(bt: BridgeType, now: int, fails: bool) returns (r: Option<BridgeType>)
      requires Valid()
      modifies `bridges
      ensures Valid()
      ensures r.Some? <==> !fails && bt.name !in old(bridges)
      ensures r.Some? ==> r.value == bt.(createdAt := now, updatedAt := now) && bridges == old(bridges)[bt.name := r.value]
      ensures r.None? ==> bridges == old(bridges)
    {
      if fails || bt.name in bridges { return None; }
      var row := bt.(createdAt := now, updatedAt := now);
      bridges := bridges[bt.name := row];
      return Some(row);
    }

    method Update(name: string, btr: BridgeRequest, fails: bool) returns (r: Option<BridgeType>)
      requires Valid()
      modifies `bridges
      ensures Valid()
      ensures r.Some? <==> !fails && name in old(bridges)
      ensures r.Some? ==>
        && r.value == old(bridges)[name].(url := btr.url, confirmations := btr.confirmations, minimumPayment := btr.minimumPayment)
        && bridges == old(bridges)[name := r.value]
      ensures r.None? ==> bridges == old(bridges)
    {
      if fails || name !in bridges { return None; }
      var row := bridges[name].(url := btr.url, confirmations := btr.confirmations, minimumPayment := btr.minimumPayment);
      bridges := bridges[name := row];
      return Some(row);
    }

    /** A name that is not there is an error of its own kind. */
    method Delete(name: string, fails: bool) returns (r: Deletion)
      requires Valid()
      modifies `bridges
      ensures Valid()
      ensures r == if fails then Failed else if name in old(bridges) then Deleted else NoRows
      ensures bridges == if r == Deleted then old(bridges) - {name} else old(bridges)
    {
      if fails { return Failed; }
      if name !in bridges { return NoRows; }
      bridges := bridges - {name};
      return Deleted;
    }

    method GetResponse(dotId: string, specId: int32, maxElapsed: int, now: int, fails: bool) returns (r: Option<Stored>)
      ensures r ==
        if !fails && (dotId, specId) in responses && responses[(dotId, specId)].finishedAt > now - maxElapsed
        then Some(responses[(dotId, specId)]) else None
    {
      if fails || (dotId, specId) !in responses || responses[(dotId, specId)].finishedAt <= now - maxElapsed { return None; }
      return Some(responses[(dotId, specId)]);
    }

    /** One statement for all rows; the database refuses a statement that would write one row
        twice. */
    method BulkUpsert(rs: seq<BridgeResponse>, fails: bool) returns (ok: bool)
      modifies `responses
      ensures ok <==> !fails && DistinctTargets(rs)
      ensures ok ==> responses == Upserted(old(responses), rs)
      ensures !ok ==> responses == old(responses)
    {
      if fails || !DistinctTargets(rs) { return false; }
      var i := 0;
      while i < |rs|
        invariant i <= |rs| && responses == Upserted(old(responses), rs[..i])
      {
        assert rs[..i + 1][..i] == rs[..i];
        responses := responses[(rs[i].dotId, rs[i].specId) := Stored(rs[i].value, rs[i].finishedAt)];
        i := i + 1;
      }
      assert rs[..|rs|] == rs;
      return true;
    }
  }

  datatype Deletion = Deleted | NoRows | Failed

  predicate DistinctTargets(rs: seq<BridgeResponse>) {
    forall i, j | 0 <= i < j < |rs| :: rs[i].dotId != rs[j].dotId || rs[i].specId != rs[j].specId
  }

  function Upserted(m: map<(string, int32), Stored>, rs: seq<BridgeResponse>): map<(string, int32), Stored> {
    if rs == [] then m
    else
      var r := rs[|rs| - 1];
      Upserted(m, rs[..|rs| - 1])[(r.dotId, r.specId) := Stored(r.value, r.finishedAt)]
  }

  /** What one pass over the names finds: a row for each new name that exists. */
  ghost predicate Looked(table: Table, names: seq<string>, rows: seq<BridgeType>, seen: set<string>) {
    && (forall n :: n in seen <==> n in names && n in table)
    && |rows| <= |names|
    && (|rows| == |names| <==> Distinct(names) && AllIn(names, table))
    && (|rows| == |names| ==> rows == Rows(table, names))
  }

  lemma LookStep(table: Table, names: seq<string>, rows: seq<BridgeType>, seen: set<string>, n: string)
    requires Looked(table, names, rows, seen)
    ensures
      if n in table && n !in seen then Looked(table, names + [n], rows + [table[n]], seen + {n})
      else Looked(table, names + [n], rows, seen)
  {
    hide Distinct, AllIn, Rows;
    RowsAppend(table, names, n);
    Extend(names, n, table);
  }

  lemma Extend(names: seq<string>, n: string, table: Table)
    ensures Distinct(names + [n]) <==> Distinct(names) && n !in names
    ensures AllIn(names + [n], table) <==> AllIn(names, table) && n in table
  {
    var s := names + [n];
    if Distinct(s) {
      assert forall j | 0 <= j < |names| :: s[j] == names[j] && s[j] != s[|names|];
      assert forall i, j | 0 <= i < j < |names| :: names[i] == s[i] && names[j] == s[j];
    }
    if AllIn(s, table) { assert s[|names|] in s; }
  }

  // ---------- response keys ----------

  const DIGITS: string := "0123456789"

  function Digits(n: nat): (s: string)
    ensures |s| > 0
  {
    if n < 10 then [DIGITS[n]] else Digits(n / 10) + [DIGITS[n % 10]]
  }

  function Decimal(n: int): string {
    if n < 0 then "-" + Digits(-n) else Digits(n)
  }

  function ResponseKey(dotId: string, specId: int32): string {
    dotId + "||" + Decimal(specId)
  }

  lemma {:induction false} DigitsOnly(n: nat)
    ensures forall c | c in Digits(n) :: c in DIGITS
  {
    if n >= 10 { DigitsOnly(n / 10); }
  }

  lemma {:induction false} DigitsInjective(m: nat, n: nat)
    requires Digits(m) == Digits(n)
    ensures m == n
  {
    var s := Digits(m);
    assert s[|s| - 1] == DIGITS[m % 10] == DIGITS[n % 10];
    DigitAt(m % 10, n % 10);
    if m >= 10 && n >= 10 {
      assert s[..|s| - 1] == Digits(m / 10) == Digits(n / 10);
      DigitsInjective(m / 10, n / 10);
    }
  }

  lemma DigitAt(a: nat, b: nat)
    requires a < 10 && b < 10 && DIGITS[a] == DIGITS[b]
    ensures a == b
  {
  }

  lemma DecimalInjective(m: int, n: int)
    requires Decimal(m) == Decimal(n)
    ensures m == n
  {
    if m < 0 && n < 0 {
      assert Decimal(m)[1..] == Digits(-m) && Decimal(n)[1..] == Digits(-n);
      DigitsInjective(-m, -n);
    } else if m >= 0 && n >= 0 {
      DigitsInjective(m, n);
    } else {
      var p := if m < 0 then n else m;
      NoSign(p);
    }
  }

  lemma NoSign(n: nat)
    ensures Digits(n)[0] != '-'
  {
    DigitsOnly(n);
    assert Digits(n)[0] in Digits(n);
  }

  lemma NoBar(n: int)
    ensures '|' !in Decimal(n)
  {
    DigitsOnly(if n < 0 then -n else n);
  }

  /** The last bar splits a key, so different tasks never share one. */
  lemma ResponseKeyInjective(d: string, s: int32, d': string, s': int32)
    requires ResponseKey(d, s) == ResponseKey(d', s')
    ensures d == d' && s == s'
  {
    NoBar(s);
    NoBar(s');
    var key, x, y := ResponseKey(d, s), Decimal(s), Decimal(s');
    assert key[|d| + 1] == '|' && key[|d'| + 1] == '|';
    assert forall i | |d| + 2 <= i < |key| :: key[i] == x[i - |d| - 2] != '|';
    assert forall i | |d'| + 2 <= i < |key| :: key[i] == y[i - |d'| - 2] != '|';
    assert key[..|d|] == d && key[..|d'|] == d';
    assert key[|d| + 2..] == x && key[|d'| + 2..] == y;
    DecimalInjective(s, s');
  }

  // ---------- the cache ----------

  class Cache {
    const orm: Orm
    var types: Table
    var values: map<string, BridgeResponse>
    /** Every cached bridge is the table's row of that name. */
    ghost predicate Coherent()
      reads this, orm
    {
      forall n | n in types :: n in orm.bridges && types[n] == orm.bridges[n]
    }

    /** Responses are kept under their own keys. */
    ghost predicate Named()
      reads this
    {
      forall k | k in values :: k == ResponseKey(values[k].dotId, values[k].specId)
    }

    /** Nothing is from after `time`, and no cached response is older than the database's. */
    ghost predicate Ahead(time: int)
      reads this, orm
    {
      && (forall k | k in values :: values[k].finishedAt <= time)
      && (forall p | p in orm.responses :: orm.responses[p].finishedAt <= time)
      && (forall k | k in values && (values[k].dotId, values[k].specId) in orm.responses ::
            orm.responses[(values[k].dotId, values[k].specId)].finishedAt <= values[k].finishedAt)
    }

    ghost predicate Valid()
      reads this, orm
    {
      orm.Valid() && Coherent() && Named()
    }

    constructor (orm: Orm)
      requires orm.Valid()
      ensures Valid() && this.orm == orm && types == map[] && values == map[]
      ensures forall time: int :: (forall p | p in orm.responses :: orm.responses[p].finishedAt <= time) ==> Ahead(time)
    {
      this.orm := orm;
      types, values := map[], map[];
    }

    /** What the table itself would answer, from the cache or from the table. */
    method FindBridge(name: string, fails: bool) returns (r: Option<BridgeType>)
      requires Valid()
      modifies `types
      ensures Valid()
      ensures r == if name in orm.bridges && (name in old(types) || !fails) then Some(orm.bridges[name]) else None
      ensures types == if r.Some? then old(types)[name := r.value] else old(types)
    {
      if name in types { return Some(types[name]); }
      r := orm.FindBridge(name, fails);
      if r.Some? {
        types := types[r.value.name := r.value];
      }
    }

    /** Splits the names into cached rows and names to look up. */
    method Split(names: seq<string>) returns (found: seq<BridgeType>, search: seq<string>)
      requires Coherent()
      ensures found == Rows(orm.bridges, Cached(types, names)) && search == Uncached(types, names)
    {
      hide Rows, Cached, Uncached;
      EmptyParts(orm.bridges, types);
      found, search := [], [];
      for i := 0 to |names|
        invariant found == Rows(orm.bridges, Cached(types, names[..i])) && search == Uncached(types, names[..i])
      {
        assert names[..i + 1] == names[..i] + [names[i]];
        PartsAppend(types, names[..i], names[i]);
        RowsAppend(orm.bridges, Cached(types, names[..i]), names[i]);
        if names[i] in types {
          found := found + [types[names[i]]];
        } else {
          search := search + [names[i]];
        }
      }
      assert names[..|names|] == names;
    }

    /** Keeps the rows just read. */
    method Keep(bts: seq<BridgeType>)
      requires Valid() && forall bt | bt in bts :: bt.name in orm.bridges && orm.bridges[bt.name] == bt
      modifies `types
      ensures Valid()
      ensures forall n :: n in types <==> n in old(types) || exists i :: 0 <= i < |bts| && bts[i].name == n
    {
      for i := 0 to |bts|
        invariant Valid()
        invariant forall n :: n in types <==> n in old(types) || exists j :: 0 <= j < i && bts[j].name == n
      {
        types := types[bts[i].name := bts[i]];
      }
    }

    /** A rearrangement of the table's rows for these names, whenever the names that are not
        cached can be looked up; the table is not asked when all are cached. */
    method FindBridges(names: seq<string>, fails: bool) returns (r: Option<seq<BridgeType>>)
      requires Valid()
      modifies `types
      ensures Valid()
      ensures r.Some? <==> CacheAnswers(old(types), orm.bridges, names) && (fails ==> Uncached(old(types), names) == [])
      ensures r.Some? ==> multiset(r.value) == multiset(Rows(orm.bridges, names)) && |r.value| == |names|
      ensures r.Some? ==> forall n :: n in types <==> n in old(types) || n in names
      ensures r.None? ==> types == old(types)
    {
      hide Rows, Cached, Uncached, Distinct, AllIn;
      if names == [] { return None; }
      var found, search := Split(names);
      RowsSplit(types, orm.bridges, names);
      RowsAt(orm.bridges, Cached(types, names));
      CachedInTable(names);
      UncachedMembers(types, names);
      if |found| == |names| {
        NothingToFind(orm.bridges, search);
        return Some(found);
      }
      var bts :- orm.FindBridges(search, fails);
      RowsKnown(orm.bridges, search, bts);
      RowsNamed(orm.bridges, search, bts);
      Keep(bts);
      found := found + bts;
      if |found| != |names| {
        return None;
      }
      return Some(found);
    }

    lemma CachedInTable(names: seq<string>)
      requires Coherent()
      ensures AllIn(Uncached(types, names), orm.bridges) <==> AllIn(names, orm.bridges)
    {
      UncachedMembers(types, names);
    }

    method DeleteBridgeType(name: string, fails: bool) returns (r: Deletion)
      requires Valid()
      modifies `types, orm`bridges
      ensures Valid()
      ensures r == if fails then Failed else if name in old(orm.bridges) then Deleted else NoRows
      ensures orm.bridges == if r == Deleted then old(orm.bridges) - {name} else old(orm.bridges)
      ensures types == if r == Failed then old(types) else old(types) - {name}
    {
      r := orm.Delete(name, fails);
      if r == Failed { return; }
      types := types - {name};
    }

    method CreateBridgeType(bt: BridgeType, now: int, fails: bool) returns (r: Option<BridgeType>)
      requires Valid()
      modifies `types, orm`bridges
      ensures Valid()
      ensures r.Some? <==> !fails && bt.name !in old(orm.bridges)
      ensures r.Some? ==> r.value == bt.(createdAt := now, updatedAt := now)
      ensures r.Some? ==> orm.bridges == old(orm.bridges)[bt.name := r.value] && types == old(types)[bt.name := r.value]
      ensures r.None? ==> orm.bridges == old(orm.bridges) && types == old(types)
    {
      r := orm.Create(bt, now, fails);
      if r.None? { return; }
      types := types[bt.name := r.value];
    }

    method UpdateBridgeType(name: string, btr: BridgeRequest, fails: bool) returns (r: Option<BridgeType>)
      requires Valid()
      modifies `types, orm`bridges
      ensures Valid()
      ensures r.Some? <==> !fails && name in old(orm.bridges)
      ensures r.Some? ==>
        r.value == old(orm.bridges)[name].(url := btr.url, confirmations := btr.confirmations, minimumPayment := btr.minimumPayment)
      ensures r.Some? ==> orm.bridges == old(orm.bridges)[name := r.value] && types == old(types)[name := r.value]
      ensures r.None? ==> orm.bridges == old(orm.bridges) && types == old(types)
    {
      r := orm.Update(name, btr, fails);
      if r.None? { return; }
      types := types[name := r.value];
    }

    // ---------- responses ----------

    ghost predicate FreshIn(dotId: string, specId: int32, since: int)
      reads this
    {
      var k := ResponseKey(dotId, specId);
      k in values && values[k].finishedAt > since
    }

    /** No cached response moves back in time. */
    twostate predicate Forward()
      reads this
    {
      forall k | k in old(values) :: k in values && old(values[k].finishedAt) <= values[k].finishedAt
    }

    /** Every other task's response is what it was. */
    twostate predicate OthersKept(dotId: string, specId: int32)
      reads this
    {
      forall d: string, s: int32 | d != dotId || s != specId ::
        && (ResponseKey(d, s) in values <==> ResponseKey(d, s) in old(values))
        && (ResponseKey(d, s) in values ==> values[ResponseKey(d, s)] == old(values)[ResponseKey(d, s)])
    }

    lemma KeysApart(dotId: string, specId: int32)
      requires Named()
      ensures forall d: string, s: int32 | d != dotId || s != specId :: ResponseKey(d, s) != ResponseKey(dotId, specId)
      ensures
        var k := ResponseKey(dotId, specId);
        k in values ==> values[k].dotId == dotId && values[k].specId == specId
    {
      forall d: string, s: int32 | ResponseKey(d, s) == ResponseKey(dotId, specId) ensures d == dotId && s == specId {
        ResponseKeyInjective(d, s, dotId, specId);
      }
    }

    /** A response no older than asked for, of exactly this task, from the cache if it has one
        and from the database otherwise; the database's clock is read after the cache's. */
    method GetCachedResponse(dotId: string, specId: int32, maxElapsed: int, now: int, later: int, fails: bool, ghost time: int) returns (r: Option<bytes>)
      requires Valid() && now <= later
      modifies `values
      ensures Valid() && Forward()
      ensures old(Ahead(time)) && time <= later ==> Ahead(later)
      ensures old(FreshIn(dotId, specId, now - maxElapsed)) ==>
        r == Some(old(values)[ResponseKey(dotId, specId)].value) && values == old(values)
      ensures !old(FreshIn(dotId, specId, now - maxElapsed)) ==>
        r == if !fails && (dotId, specId) in orm.responses && orm.responses[(dotId, specId)].finishedAt > later - maxElapsed
             then Some(orm.responses[(dotId, specId)].value) else None
      ensures !old(FreshIn(dotId, specId, now - maxElapsed)) ==>
        values == if r.None? then old(values)
          else old(values)[ResponseKey(dotId, specId) := BridgeResponse(dotId, specId, r.value, orm.responses[(dotId, specId)].finishedAt)]
      ensures r.Some? ==> ResponseKey(dotId, specId) in values && values[ResponseKey(dotId, specId)].value == r.value
      ensures r.Some? ==> values[ResponseKey(dotId, specId)].finishedAt > now - maxElapsed
      ensures r.Some? ==> values[ResponseKey(dotId, specId)].dotId == dotId && values[ResponseKey(dotId, specId)].specId == specId
      ensures OthersKept(dotId, specId)
    {
      KeysApart(dotId, specId);
      var k := ResponseKey(dotId, specId);
      if k in values && values[k].finishedAt > now - maxElapsed {
        return Some(values[k].value);
      }
      var stored :- orm.GetResponse(dotId, specId, maxElapsed, later, fails);
      SetValue(dotId, specId, stored.value, stored.finishedAt, time, later);
      return Some(stored.value);
    }

    method SetValue(dotId: string, specId: int32, value: bytes, finishedAt: int, ghost time: int, ghost later: int)
      requires Valid()
      modifies `values
      ensures Valid()
      ensures values == old(values)[ResponseKey(dotId, specId) := BridgeResponse(dotId, specId, value, finishedAt)]
      ensures
        && old(Ahead(time)) && time <= later && finishedAt <= later
        && (((dotId, specId) in orm.responses) ==> (orm.responses[(dotId, specId)].finishedAt <= finishedAt))
        ==> Ahead(later)
    {
      values := values[ResponseKey(dotId, specId) := BridgeResponse(dotId, specId, value, finishedAt)];
    }

    /** Replaces the response unless the cache has one from later than now. */
    method UpsertBridgeResponse(dotId: string, specId: int32, response: bytes, now: int, ghost time: int)
      requires Valid()
      modifies `values
      ensures Valid() && Forward()
      ensures old(Ahead(time)) && time <= now ==> Ahead(now)
      ensures
        if old(FreshIn(dotId, specId, now)) then values == old(values)
        else values == old(values)[ResponseKey(dotId, specId) := BridgeResponse(dotId, specId, response, now)]
      ensures OthersKept(dotId, specId)
    {
      KeysApart(dotId, specId);
      var k := ResponseKey(dotId, specId);
      if k in values && values[k].finishedAt > now { return; }
      SetValue(dotId, specId, response, now, time, now);
    }

    /** All cached responses, in any order. */
    method Values() returns (rs: seq<BridgeResponse>)
      requires Named()
      ensures DistinctTargets(rs) && (rs == [] <==> values == map[])
      ensures forall r :: r in rs <==> ResponseKey(r.dotId, r.specId) in values && values[ResponseKey(r.dotId, r.specId)] == r
    {
      rs := [];
      var keys := values.Keys;
      while keys != {}
        invariant keys <= values.Keys && DistinctTargets(rs) && |rs| + |keys| == |values.Keys|
        invariant forall r :: r in rs <==>
          ResponseKey(r.dotId, r.specId) in values.Keys - keys && values[ResponseKey(r.dotId, r.specId)] == r
        decreases |keys|
      {
        var k :| k in keys;
        rs := rs + [values[k]];
        keys := keys - {k};
      }
    }

    /** The database ends up with every cached response and keeps its other rows: keys of
        different tasks differ, so the statement never writes one row twice. If no cached
        response was older than its row, no row moves back in time. */
    method DoBulkUpsert(fails: bool, ghost time: int) returns (ok: bool)
      requires Valid()
      modifies orm`responses
      ensures Valid()
      ensures ok <==> !fails || values == map[]
      ensures !ok ==> orm.responses == old(orm.responses)
      ensures ok ==> forall k | k in values ::
        && (values[k].dotId, values[k].specId) in orm.responses
        && orm.responses[(values[k].dotId, values[k].specId)] == Stored(values[k].value, values[k].finishedAt)
      ensures ok ==> forall d: string, s: int32 | ResponseKey(d, s) !in values ::
        ((d, s) in orm.responses <==> (d, s) in old(orm.responses))
        && ((d, s) in orm.responses ==> orm.responses[(d, s)] == old(orm.responses)[(d, s)])
      ensures old(Ahead(time)) ==> Ahead(time) && forall p | p in old(orm.responses) ::
        p in orm.responses && old(orm.responses)[p].finishedAt <= orm.responses[p].finishedAt
    {
      var rs := Values();
      if |rs| == 0 {
        return true;
      }
      ok := orm.BulkUpsert(rs, fails);
      UpsertedRows(old(orm.responses), rs);
    }
  }

  lemma NothingToFind(table: Table, names: seq<string>)
    requires |names| == 0
    ensures names == [] && Rows(table, names) == [] && Distinct(names) && AllIn(names, table)
  {
  }

  lemma RowsKnown(table: Table, names: seq<string>, bts: seq<BridgeType>)
    requires Keyed(table) && AllIn(names, table) && multiset(bts) == multiset(Rows(table, names))
    ensures forall bt | bt in bts :: bt.name in table && table[bt.name] == bt
  {
    RowsAt(table, names);
    forall bt | bt in bts ensures bt.name in table && table[bt.name] == bt {
      assert bt in multiset(bts);
      assert bt in Rows(table, names);
      var i :| 0 <= i < |names| && Rows(table, names)[i] == bt;
      assert names[i] in names;
    }
  }

  lemma RowsNamed(table: Table, names: seq<string>, bts: seq<BridgeType>)
    requires Keyed(table) && AllIn(names, table) && multiset(bts) == multiset(Rows(table, names))
    ensures forall n :: n in names <==> exists i :: 0 <= i < |bts| && bts[i].name == n
  {
    RowsAt(table, names);
    forall n | n in names ensures exists i :: 0 <= i < |bts| && bts[i].name == n {
      var j :| 0 <= j < |names| && names[j] == n;
      assert Rows(table, names)[j] in multiset(bts);
      var i :| 0 <= i < |bts| && bts[i] == Rows(table, names)[j];
      assert bts[i].name == n;
    }
    forall i | 0 <= i < |bts| ensures bts[i].name in names {
      assert bts[i] in multiset(bts);
      assert bts[i] in Rows(table, names);
      var j :| 0 <= j < |names| && Rows(table, names)[j] == bts[i];
      assert names[j] in names;
    }
  }

  lemma {:induction false} UpsertedRows(m: map<(string, int32), Stored>, rs: seq<BridgeResponse>)
    requires DistinctTargets(rs)
    ensures forall r | r in rs :: (r.dotId, r.specId) in Upserted(m, rs) && Upserted(m, rs)[(r.dotId, r.specId)] == Stored(r.value, r.finishedAt)
    ensures forall p | p in Upserted(m, rs) && (forall r | r in rs :: p != (r.dotId, r.specId)) :: p in m && Upserted(m, rs)[p] == m[p]
    ensures forall p | p in m :: p in Upserted(m, rs)
  {
    if rs != [] {
      var init, last := rs[..|rs| - 1], rs[|rs| - 1];
      assert rs == init + [last];
      UpsertedRows(m, init);
    }
  }
}
