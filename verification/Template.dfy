/** The storage-account template: a logic signature whose byte code has holes for an index,
    an owner and the application. The client fills the holes by editing the byte code in
    place; the contracts rebuild the same program by concatenation in order to recognise the
    account's address. An address is represented here by the program it is the hash of. */
module Template {
  import opened Teal
  import opened Leb128

  datatype Label = Label(name: string, position: nat, isBytes: bool)

  datatype FieldValue = Number(n: nat) | Hex(data: bytes)

  /** Labels sorted by position, each naming one byte of the byte code. */
  ghost predicate Ordered(src: bytes, labels: seq<Label>) {
    && (forall i | 0 <= i < |labels| :: labels[i].position < |src|)
    && (forall i, j | 0 <= i < j < |labels| :: labels[i].position < labels[j].position)
  }

  /** The bytes put in a hole; `None` is the library's type error. */
  function Field(hole: Label, value: FieldValue): Option<bytes> {
    match value
    case Number(n) => if hole.isBytes then None else Some(Uvarint(n))
    case Hex(data) => if hole.isBytes then Some(Uvarint(|data|) + data) else None
  }

  function GetBytecodeChunk(src: bytes, labels: seq<Label>, idx: nat): bytes
    requires idx <= |labels|
  {
    var start := if idx > 0 then labels[idx - 1].position + 1 else 0;
    var stop := if idx < |labels| then labels[idx].position else |src|;
    Slice(src, start, stop)
  }

  /** What stands in hole `i` afterwards: the value's encoding, or the byte already there
      when no value is supplied. */
  function Hole(src: bytes, labels: seq<Label>, values: map<string, FieldValue>, i: nat): Option<bytes>
    requires i < |labels|
  {
    var l := labels[i];
    if l.name in values then Field(l, values[l.name]) else Some(Slice(src, l.position, l.position + 1))
  }

  /** Chunks and holes in turn, up to and including hole `i - 1`. */
  function JoinedTo(src: bytes, labels: seq<Label>, values: map<string, FieldValue>, i: nat): Option<bytes>
    requires i <= |labels|
  {
    if i == 0 then Some([])
    else
      var before :- JoinedTo(src, labels, values, i - 1);
      var hole :- Hole(src, labels, values, i - 1);
      Some(before + GetBytecodeChunk(src, labels, i - 1) + hole)
  }

  /** The program obtained by concatenating every chunk and every hole. */
  function Joined(src: bytes, labels: seq<Label>, values: map<string, FieldValue>): Option<bytes> {
    var before :- JoinedTo(src, labels, values, |labels|);
    Some(before + GetBytecodeChunk(src, labels, |labels|))
  }

  function Cut(labels: seq<Label>, i: nat): nat
    requires i <= |labels|
  {
    if i > 0 then labels[i - 1].position + 1 else 0
  }

  /** After `i` holes the edited byte code is the joined part followed by the untouched rest,
      and `shift` is how much longer it has become. */
  ghost predicate Spliced(src: bytes, labels: seq<Label>, values: map<string, FieldValue>, i: nat, contract: bytes, shift: int)
    requires i <= |labels|
  {
    var done := JoinedTo(src, labels, values, i);
    && Cut(labels, i) <= |src|
    && done.Some?
    && contract == done.value + src[Cut(labels, i)..]
    && shift == |done.value| - Cut(labels, i)
  }

  lemma JoinedStep(src: bytes, labels: seq<Label>, values: map<string, FieldValue>, i: nat, before: bytes, hole: bytes)
    requires i < |labels| && JoinedTo(src, labels, values, i) == Some(before)
    requires Hole(src, labels, values, i) == Some(hole)
    ensures JoinedTo(src, labels, values, i + 1) == Some(before + GetBytecodeChunk(src, labels, i) + hole)
  {
  }

  lemma ReplaceByte(done: bytes, src: bytes, cut: nat, p: nat, hole: bytes)
    requires cut <= p < |src|
    ensures
      var contract, pos := done + src[cut..], |done| + p - cut;
      && contract[..pos] + hole + contract[pos + 1..] == done + src[cut..p] + hole + src[p + 1..]
      && contract == done + src[cut..p] + [src[p]] + src[p + 1..]
  {
    var contract, pos := done + src[cut..], |done| + p - cut;
    assert contract[..pos] == done + src[cut..p];
    assert contract[pos + 1..] == src[p + 1..];
    assert src[cut..] == src[cut..p] + [src[p]] + src[p + 1..];
  }

  /** One hole further: replacing the byte at the shifted position extends the joined part. */
  lemma SpliceStep(src: bytes, labels: seq<Label>, values: map<string, FieldValue>, i: nat, contract: bytes, shift: int, hole: bytes)
    requires Ordered(src, labels) && i < |labels|
    requires Spliced(src, labels, values, i, contract, shift)
    requires Hole(src, labels, values, i) == Some(hole)
    ensures
      var pos := labels[i].position + shift;
      && 0 <= pos < |contract|
      && Spliced(src, labels, values, i + 1, contract[..pos] + hole + contract[pos + 1..], shift + |hole| - 1)
  {
    hide Hole, GetBytecodeChunk;
    var done := JoinedTo(src, labels, values, i).value;
    ChunkIs(src, labels, i);
    ReplaceByte(done, src, Cut(labels, i), labels[i].position, hole);
    JoinedStep(src, labels, values, i, done, hole);
  }

  /** A hole without a value keeps its byte. */
  lemma KeepStep(src: bytes, labels: seq<Label>, values: map<string, FieldValue>, i: nat, contract: bytes, shift: int)
    requires Ordered(src, labels) && i < |labels|
    requires Spliced(src, labels, values, i, contract, shift)
    requires labels[i].name !in values
    ensures Spliced(src, labels, values, i + 1, contract, shift)
  {
    hide GetBytecodeChunk;
    var done, p := JoinedTo(src, labels, values, i).value, labels[i].position;
    ChunkIs(src, labels, i);
    ReplaceByte(done, src, Cut(labels, i), p, []);
    assert Slice(src, p, p + 1) == [src[p]];
    JoinedStep(src, labels, values, i, done, [src[p]]);
  }

  lemma ChunkIs(src: bytes, labels: seq<Label>, i: nat)
    requires Ordered(src, labels) && i < |labels|
    ensures Cut(labels, i) <= labels[i].position && GetBytecodeChunk(src, labels, i) == src[Cut(labels, i)..labels[i].position]
  {
  }

  lemma SpliceStart(src: bytes, labels: seq<Label>, values: map<string, FieldValue>)
    ensures Spliced(src, labels, values, 0, src, 0)
  {
  }

  lemma SpliceDone(src: bytes, labels: seq<Label>, values: map<string, FieldValue>, contract: bytes, shift: int)
    requires Ordered(src, labels) && Spliced(src, labels, values, |labels|, contract, shift)
    ensures Joined(src, labels, values) == Some(contract)
  {
    assert GetBytecodeChunk(src, labels, |labels|) == src[Cut(labels, |labels|)..];
  }

  /** Filling the holes in place, with a running shift for the bytes inserted so far, yields
      the concatenation, and fails on exactly the same inputs. */
  method Populate(src: bytes, labels: seq<Label>, values: map<string, FieldValue>) returns (r: Option<bytes>)
    requires Ordered(src, labels)
    ensures r == Joined(src, labels, values)
  {
    hide Joined, Spliced, Uvarint;
    var contract := src;
    var shift := 0;
    SpliceStart(src, labels, values);
    for i := 0 to |labels|
      invariant Spliced(src, labels, values, i, contract, shift)
    {
      var v := labels[i];
      if v.name in values {
        var value := values[v.name];
        if v.isBytes != value.Hex? {
          JoinFails(src, labels, values, i);
          return None;
        }
        var pos := v.position + shift;
        if v.isBytes {
          var val := value.data;
          var lbyte := Uvarint(|val|);
          SpliceStep(src, labels, values, i, contract, shift, lbyte + val);
          shift := shift + (|lbyte| - 1) + |val|;
          contract := contract[..pos] + (lbyte + val) + contract[pos + 1..];
        } else {
          var val := Uvarint(value.n);
          SpliceStep(src, labels, values, i, contract, shift, val);
          shift := shift + |val| - 1;
          contract := contract[..pos] + val + contract[pos + 1..];
        }
      } else {
        KeepStep(src, labels, values, i, contract, shift);
      }
    }
    SpliceDone(src, labels, values, contract, shift);
    return Some(contract);
  }

  lemma JoinFails(src: bytes, labels: seq<Label>, values: map<string, FieldValue>, i: nat)
    requires i < |labels| && Hole(src, labels, values, i) == None
    ensures Joined(src, labels, values) == None
  {
    JoinFailsFrom(src, labels, values, i, |labels|);
  }

  lemma {:induction false} JoinFailsFrom(src: bytes, labels: seq<Label>, values: map<string, FieldValue>, i: nat, k: nat)
    requires i < k <= |labels| && Hole(src, labels, values, i) == None
    ensures JoinedTo(src, labels, values, k) == None
  {
    if k > i + 1 { JoinFailsFrom(src, labels, values, i, k - 1); }
  }

  // ---------- the template the bridge ships ----------

  const SRC: bytes :=
    [6, 32, 1, 1, 129, 0, 72, 128, 0, 72, 49, 16, 129, 6, 18, 68, 49, 25, 34, 18, 68, 49, 24, 129, 0]
    + [18, 68, 49, 32, 128, 0]
    + [18, 68, 49, 1, 129, 0, 18, 68, 49, 9, 50, 3, 18, 68, 49, 21, 50, 3, 18, 68, 34]

  const LABELS: seq<Label> := [
    Label("TMPL_ADDR_IDX", 5, false), Label("TMPL_EMITTER_ID", 8, true),
    Label("TMPL_APP_ID", 24, false), Label("TMPL_APP_ADDRESS", 30, true)]

  /** An application: its id and its escrow address. */
  datatype App = App(id: uint64, address: bytes)

  /** `get_sig_address`, up to the hash. */
  function SigProgram(app: App, idx: nat, emitter: bytes): bytes {
    Ascii("Program")
    + (GetBytecodeChunk(SRC, LABELS, 0) + (EncodeUvarint(idx, [])
    + (GetBytecodeChunk(SRC, LABELS, 1) + (EncodeUvarint(|emitter|, []) + (emitter
    + (GetBytecodeChunk(SRC, LABELS, 2) + (EncodeUvarint(app.id, [])
    + (GetBytecodeChunk(SRC, LABELS, 3) + (EncodeUvarint(|app.address|, []) + (app.address
    + GetBytecodeChunk(SRC, LABELS, 4)))))))))))
  }

  function TemplateValues(app: App, idx: nat, emitter: bytes): map<string, FieldValue> {
    map["TMPL_APP_ID" := Number(app.id), "TMPL_APP_ADDRESS" := Hex(app.address),
        "TMPL_ADDR_IDX" := Number(idx), "TMPL_EMITTER_ID" := Hex(emitter)]
  }

  lemma TemplateOrdered()
    ensures Ordered(SRC, LABELS)
  {
  }

  lemma Regroup(p: bytes, c: seq<bytes>, h0: bytes, h1: bytes, e1: bytes, h2: bytes, h3: bytes, e3: bytes)
    requires |c| == 5
    ensures p + ([] + c[0] + h0 + c[1] + (h1 + e1) + c[2] + h2 + c[3] + (h3 + e3) + c[4])
         == p + (c[0] + (h0 + (c[1] + (h1 + (e1 + (c[2] + (h2 + (c[3] + (h3 + (e3 + c[4]))))))))))
  {
    var x := c[3] + (h3 + (e3 + c[4]));
    assert c[3] + (h3 + e3) + c[4] == x;
    var y := c[1] + (h1 + (e1 + (c[2] + (h2 + x))));
    assert c[1] + (h1 + e1) + c[2] + h2 + x == y;
    var left := [] + c[0] + h0 + c[1] + (h1 + e1) + c[2] + h2;
    assert left + c[3] + (h3 + e3) + c[4] == left + x;
    assert left + x == c[0] + (h0 + y);
  }

  /** The program the client submits and the program whose hash the contract compares with
      are the same bytes. */
  lemma ClientAndContractAgree(app: App, idx: nat, emitter: bytes)
    ensures Joined(SRC, LABELS, TemplateValues(app, idx, emitter)).Some?
    ensures Ascii("Program") + Joined(SRC, LABELS, TemplateValues(app, idx, emitter)).value == SigProgram(app, idx, emitter)
  {
    var values := TemplateValues(app, idx, emitter);
    EncodeFromEmpty(idx);
    EncodeFromEmpty(|emitter|);
    EncodeFromEmpty(app.id);
    EncodeFromEmpty(|app.address|);
    var h0, h1, h2, h3 := Uvarint(idx), Uvarint(|emitter|) + emitter, Uvarint(app.id), Uvarint(|app.address|) + app.address;
    var c := seq(5, i requires 0 <= i < 5 => GetBytecodeChunk(SRC, LABELS, i));
    JoinedStep(SRC, LABELS, values, 0, [], h0);
    JoinedStep(SRC, LABELS, values, 1, [] + c[0] + h0, h1);
    JoinedStep(SRC, LABELS, values, 2, [] + c[0] + h0 + c[1] + h1, h2);
    JoinedStep(SRC, LABELS, values, 3, [] + c[0] + h0 + c[1] + h1 + c[2] + h2, h3);
    Regroup(Ascii("Program"), c, Uvarint(idx), Uvarint(|emitter|), emitter, Uvarint(app.id), Uvarint(|app.address|), app.address);
  }

  lemma CommonPrefix(p: bytes, x: bytes, y: bytes)
    requires p + x == p + y
    ensures x == y
  {
    assert (p + x)[|p|..] == x;
    assert (p + y)[|p|..] == y;
  }

  lemma BytesField(a: bytes, b: bytes, x: bytes, y: bytes)
    requires EncodeUvarint(|a|, []) + (a + x) == EncodeUvarint(|b|, []) + (b + y)
    ensures a == b && x == y
  {
    PrefixFree(|a|, |b|, a + x, b + y);
    assert a == (a + x)[..|a|] && b == (b + y)[..|b|];
    CommonPrefix(a, x, y);
  }

  /** Different indices, owners or applications give different programs: no two storage
      accounts of the bridge share an address preimage. */
  lemma SigProgramInjective(app: App, idx: nat, emitter: bytes, app': App, idx': nat, emitter': bytes)
    requires SigProgram(app, idx, emitter) == SigProgram(app', idx', emitter')
    ensures app == app' && idx == idx' && emitter == emitter'
  {
    var c2, c4 := GetBytecodeChunk(SRC, LABELS, 2), GetBytecodeChunk(SRC, LABELS, 4);
    var t3 := GetBytecodeChunk(SRC, LABELS, 3) + (EncodeUvarint(|app.address|, []) + (app.address + c4));
    var t3' := GetBytecodeChunk(SRC, LABELS, 3) + (EncodeUvarint(|app'.address|, []) + (app'.address + c4));
    var t2, t2' := c2 + (EncodeUvarint(app.id, []) + t3), c2 + (EncodeUvarint(app'.id, []) + t3');
    var t1 := GetBytecodeChunk(SRC, LABELS, 1) + (EncodeUvarint(|emitter|, []) + (emitter + t2));
    var t1' := GetBytecodeChunk(SRC, LABELS, 1) + (EncodeUvarint(|emitter'|, []) + (emitter' + t2'));
    HeadInjective(idx, idx', t1, t1');
    CommonPrefix(GetBytecodeChunk(SRC, LABELS, 1), EncodeUvarint(|emitter|, []) + (emitter + t2), EncodeUvarint(|emitter'|, []) + (emitter' + t2'));
    BytesField(emitter, emitter', t2, t2');
    CommonPrefix(c2, EncodeUvarint(app.id, []) + t3, EncodeUvarint(app'.id, []) + t3');
    PrefixFree(app.id, app'.id, t3, t3');
    CommonPrefix(GetBytecodeChunk(SRC, LABELS, 3), EncodeUvarint(|app.address|, []) + (app.address + c4), EncodeUvarint(|app'.address|, []) + (app'.address + c4));
    BytesField(app.address, app'.address, c4, c4);
  }

  lemma HeadInjective(idx: nat, idx': nat, t: bytes, t': bytes)
    requires Ascii("Program") + (GetBytecodeChunk(SRC, LABELS, 0) + (EncodeUvarint(idx, []) + t))
          == Ascii("Program") + (GetBytecodeChunk(SRC, LABELS, 0) + (EncodeUvarint(idx', []) + t'))
    ensures idx == idx' && t == t'
  {
    var c0 := GetBytecodeChunk(SRC, LABELS, 0);
    CommonPrefix(Ascii("Program"), c0 + (EncodeUvarint(idx, []) + t), c0 + (EncodeUvarint(idx', []) + t'));
    CommonPrefix(c0, EncodeUvarint(idx, []) + t, EncodeUvarint(idx', []) + t');
    PrefixFree(idx, idx', t, t');
  }

  // ---------- locators ----------

  /** How a contract finds the storage account for an index and an owner. The protocol
      proofs use only that it never maps two of them to one address. */
  type Locator = (nat, bytes) -> bytes

  ghost predicate Injective(at: Locator) {
    forall i, e, i', e' :: at(i, e) == at(i', e') ==> i == i' && e == e'
  }

  function LocatorOf(app: App): Locator {
    (idx, emitter) => SigProgram(app, idx, emitter)
  }

  lemma LocatorInjective(app: App)
    ensures Injective(LocatorOf(app))
  {
    var at := LocatorOf(app);
    forall i, e, i', e' | at(i, e) == at(i', e') ensures i == i' && e == e' {
      SigProgramInjective(app, i, e, app, i', e');
    }
  }

  /** The account the client opens for an index and an owner is the one the contracts look
      for. */
  method StorageAccount(app: App, idx: nat, emitter: bytes) returns (program: bytes)
    ensures program == LocatorOf(app)(idx, emitter)
  {
    TemplateOrdered();
    ClientAndContractAgree(app, idx, emitter);
    var filled := Populate(SRC, LABELS, TemplateValues(app, idx, emitter));
    return Ascii("Program") + filled.value;
  }
}
