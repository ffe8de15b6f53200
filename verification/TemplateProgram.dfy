/** The storage-account template as a program: the instructions its bytes stand for, run on a
    transaction as the Algorand virtual machine runs them (version 6 of its specification). */
module TemplateProgram {
  import opened Teal
  import opened Transactions
  import opened Leb128
  import opened Template
  import StorageSig

  datatype Value = Num(n: nat) | Str(s: bytes)

  // ---------- the machine ----------

  /** Types are numbered; 6 is an application call. */
  function KindNumber(k: TxnType): nat {
    match k
    case Payment => 1
    case AssetTransfer => 4
    case ApplicationCall => 6
    case OtherType => 2
  }

  function CompletionNumber(c: OnComplete): nat {
    match c
    case NoOp => 0
    case OptIn => 1
    case OtherCompletion => 2
    case UpdateApplication => 4
    case DeleteApplication => 5
  }

  function FieldOf(t: Txn, f: byte): Option<Value> {
    if f == 1 then Some(Num(t.fee))
    else if f == 9 then Some(Str(t.closeTo))
    else if f == 16 then Some(Num(KindNumber(t.kind)))
    else if f == 21 then Some(Str(t.assetCloseTo))
    else if f == 24 then Some(Num(t.appId))
    else if f == 25 then Some(Num(CompletionNumber(t.onCompletion)))
    else if f == 32 then Some(Str(t.rekeyTo))
    else None
  }

  /** `count` numbers from the front of a string. */
  function Numbers(code: bytes, count: nat): (r: Option<(seq<nat>, bytes)>)
    ensures r.Some? ==> |r.value.1| <= |code|
    decreases count
  {
    if count == 0 then Some(([], code))
    else
      var first :- Decode(code);
      var rest :- Numbers(first.1, count - 1);
      Some(([first.0] + rest.0, rest.1))
  }

  /** Runs the instructions the template uses, none of which jumps: `code` is what is still to
      be run, `consts` the integer constants, and the stack has its top first. The program
      approves by ending with a single value that is not zero. */
  predicate Exec(t: Txn, code: bytes, consts: seq<nat>, stack: seq<Value>)
    decreases |code|
  {
    if code == [] then |stack| == 1 && stack[0].Num? && stack[0].n != 0
    else
      var op, args := code[0], code[1..];
      if op == 0x20 then // intcblock
        match Decode(args)
        case None => false
        case Some(count) =>
          match Numbers(count.1, count.0)
          case None => false
          case Some(block) => Exec(t, block.1, block.0, stack)
      else if op == 0x22 then // intc_0
        |consts| > 0 && Exec(t, args, consts, [Num(consts[0])] + stack)
      else if op == 0x81 then // pushint
        match Decode(args)
        case None => false
        case Some(n) => n.0 < U64 && Exec(t, n.1, consts, [Num(n.0)] + stack)
      else if op == 0x80 then // pushbytes
        match Decode(args)
        case None => false
        case Some(n) => n.0 <= |n.1| && Exec(t, n.1[n.0..], consts, [Str(n.1[..n.0])] + stack)
      else if op == 0x31 then // txn
        |args| > 0 && FieldOf(t, args[0]).Some? && Exec(t, args[1..], consts, [FieldOf(t, args[0]).value] + stack)
      else if op == 0x32 then // global ZeroAddress
        |args| > 0 && args[0] == 3 && Exec(t, args[1..], consts, [Str(Zeros(32))] + stack)
      else if op == 0x12 then // ==, of two values of one type
        && |stack| >= 2 && stack[0].Num? == stack[1].Num?
        && Exec(t, args, consts, [Num(if stack[0] == stack[1] then 1 else 0)] + stack[2..])
      else if op == 0x44 then // assert
        |stack| >= 1 && stack[0].Num? && stack[0].n != 0 && Exec(t, args, consts, stack[1..])
      else if op == 0x48 then // pop
        |stack| >= 1 && Exec(t, args, consts, stack[1..])
      else false
  }

  /** A version-6 program approves a transaction. */
  predicate Runs(program: bytes, t: Txn) {
    |program| > 0 && program[0] == 6 && Exec(t, program[1..], [], [])
  }

  // ---------- single instructions ----------

  lemma RunField(t: Txn, f: byte, rest: bytes, consts: seq<nat>, stack: seq<Value>)
    requires FieldOf(t, f).Some?
    ensures Exec(t, [0x31, f] + rest, consts, stack) == Exec(t, rest, consts, [FieldOf(t, f).value] + stack)
  {
    assert ([0x31, f] + rest)[1..][1..] == rest;
  }

  lemma RunPushInt(t: Txn, n: nat, rest: bytes, consts: seq<nat>, stack: seq<Value>)
    requires n < U64
    ensures Exec(t, [0x81] + (EncodeUvarint(n, []) + rest), consts, stack) == Exec(t, rest, consts, [Num(n)] + stack)
  {
    hide EncodeUvarint;
    DecodeEncode(n, rest);
    assert ([0x81] + (EncodeUvarint(n, []) + rest))[1..] == EncodeUvarint(n, []) + rest;
  }

  lemma RunPushBytes(t: Txn, s: bytes, rest: bytes, consts: seq<nat>, stack: seq<Value>)
    ensures Exec(t, [0x80] + (EncodeUvarint(|s|, []) + (s + rest)), consts, stack) == Exec(t, rest, consts, [Str(s)] + stack)
  {
    hide EncodeUvarint;
    DecodeEncode(|s|, s + rest);
    assert ([0x80] + (EncodeUvarint(|s|, []) + (s + rest)))[1..] == EncodeUvarint(|s|, []) + (s + rest);
    assert (s + rest)[|s|..] == rest && (s + rest)[..|s|] == s;
  }

  lemma RunPop(t: Txn, rest: bytes, consts: seq<nat>, v: Value, stack: seq<Value>)
    ensures Exec(t, [0x48] + rest, consts, [v] + stack) == Exec(t, rest, consts, stack)
  {
    assert ([0x48] + rest)[1..] == rest && ([v] + stack)[1..] == stack;
  }

  lemma RunZero(t: Txn, rest: bytes, consts: seq<nat>, stack: seq<Value>)
    ensures Exec(t, [0x32, 3] + rest, consts, stack) == Exec(t, rest, consts, [Str(Zeros(32))] + stack)
  {
    assert ([0x32, 3] + rest)[1..][1..] == rest;
  }

  lemma RunConst(t: Txn, rest: bytes, consts: seq<nat>, stack: seq<Value>)
    requires |consts| > 0
    ensures Exec(t, [0x22] + rest, consts, stack) == Exec(t, rest, consts, [Num(consts[0])] + stack)
  {
    assert ([0x22] + rest)[1..] == rest;
  }

  /** `==` and `assert` let through exactly equal values. */
  lemma RunCheck(t: Txn, rest: bytes, consts: seq<nat>, x: Value, y: Value, stack: seq<Value>)
    requires x.Num? == y.Num?
    ensures Exec(t, [0x12, 0x44] + rest, consts, [x] + ([y] + stack)) <==> x == y && Exec(t, rest, consts, stack)
  {
    var code, s := [0x12, 0x44] + rest, [x] + ([y] + stack);
    assert code[1..] == [0x44] + rest && ([0x44] + rest)[1..] == rest;
    assert s[0] == x && s[1] == y && s[2..] == stack;
    var b := Num(if x == y then 1 else 0);
    assert ([b] + stack)[1..] == stack;
    assert Exec(t, code, consts, s) == Exec(t, [0x44] + rest, consts, [b] + stack);
  }

  // ---------- the checks ----------

  const CHECK: bytes := [0x12, 0x44]

  lemma CheckInt(t: Txn, f: byte, n: nat, rest: bytes)
    requires n < U64 && FieldOf(t, f).Some? && FieldOf(t, f).value.Num?
    ensures Exec(t, [0x31, f] + ([0x81] + (EncodeUvarint(n, []) + (CHECK + rest))), [1], []) <==> FieldOf(t, f).value.n == n && Exec(t, rest, [1], [])
  {
    hide Exec, EncodeUvarint;
    RunField(t, f, [0x81] + (EncodeUvarint(n, []) + (CHECK + rest)), [1], []);
    RunPushInt(t, n, CHECK + rest, [1], [FieldOf(t, f).value] + []);
    RunCheck(t, rest, [1], Num(n), FieldOf(t, f).value, []);
  }

  lemma CheckConst(t: Txn, f: byte, rest: bytes)
    requires FieldOf(t, f).Some? && FieldOf(t, f).value.Num?
    ensures Exec(t, [0x31, f] + ([0x22] + (CHECK + rest)), [1], []) <==> FieldOf(t, f).value.n == 1 && Exec(t, rest, [1], [])
  {
    hide Exec;
    RunField(t, f, [0x22] + (CHECK + rest), [1], []);
    RunConst(t, CHECK + rest, [1], [FieldOf(t, f).value] + []);
    RunCheck(t, rest, [1], Num(1), FieldOf(t, f).value, []);
  }

  lemma CheckBytes(t: Txn, f: byte, s: bytes, rest: bytes)
    requires FieldOf(t, f).Some? && FieldOf(t, f).value.Str?
    ensures Exec(t, [0x31, f] + ([0x80] + (EncodeUvarint(|s|, []) + (s + (CHECK + rest)))), [1], []) <==> FieldOf(t, f).value.s == s && Exec(t, rest, [1], [])
  {
    hide Exec, EncodeUvarint;
    RunField(t, f, [0x80] + (EncodeUvarint(|s|, []) + (s + (CHECK + rest))), [1], []);
    RunPushBytes(t, s, CHECK + rest, [1], [FieldOf(t, f).value] + []);
    RunCheck(t, rest, [1], Str(s), FieldOf(t, f).value, []);
  }

  lemma CheckZero(t: Txn, f: byte, rest: bytes)
    requires FieldOf(t, f).Some? && FieldOf(t, f).value.Str?
    ensures Exec(t, [0x31, f] + ([0x32, 3] + (CHECK + rest)), [1], []) <==> FieldOf(t, f).value.s == Zeros(32) && Exec(t, rest, [1], [])
  {
    hide Exec;
    RunField(t, f, [0x32, 3] + (CHECK + rest), [1], []);
    RunZero(t, CHECK + rest, [1], [FieldOf(t, f).value] + []);
    RunCheck(t, rest, [1], Str(Zeros(32)), FieldOf(t, f).value, []);
  }

  // ---------- the program, check by check ----------

  /** From the fee on: no fee, and nothing closed. */
  function LastChecks(): bytes {
    [0x31, 1] + ([0x81] + (EncodeUvarint(0, []) + (CHECK
    + ([0x31, 9] + ([0x32, 3] + (CHECK
    + ([0x31, 21] + ([0x32, 3] + (CHECK
    + [0x22])))))))))
  }

  /** The application and the new signer. */
  function AppChecks(app: App): bytes {
    [0x31, 24] + ([0x81] + (EncodeUvarint(app.id, []) + (CHECK
    + ([0x31, 32] + ([0x80] + (EncodeUvarint(|app.address|, []) + (app.address + (CHECK
    + LastChecks()))))))))
  }

  /** The type and the completion. */
  function AllChecks(app: App): bytes {
    [0x31, 16] + ([0x81] + (EncodeUvarint(6, []) + (CHECK
    + ([0x31, 25] + ([0x22] + (CHECK
    + AppChecks(app)))))))
  }

  /** The index and the owner are pushed and dropped. */
  function Instructions(app: App, idx: nat, emitter: bytes): bytes {
    [0x81] + (EncodeUvarint(idx, []) + ([0x48]
    + ([0x80] + (EncodeUvarint(|emitter|, []) + (emitter + ([0x48] + AllChecks(app)))))))
  }

  lemma LastApproves(t: Txn)
    ensures Exec(t, LastChecks(), [1], []) <==> t.fee == 0 && t.closeTo == Zeros(32) && t.assetCloseTo == Zeros(32)
  {
    CheckInt(t, 1, 0, [0x31, 9] + ([0x32, 3] + (CHECK + ([0x31, 21] + ([0x32, 3] + (CHECK + [0x22]))))));
    CheckZero(t, 9, [0x31, 21] + ([0x32, 3] + (CHECK + [0x22])));
    CheckZero(t, 21, [0x22]);
    RunConst(t, [], [1], []);
    assert [0x22] + [] == [0x22];
    hide Exec;
  }

  lemma AppApproves(t: Txn, app: App)
    ensures Exec(t, AppChecks(app), [1], []) <==> t.appId == app.id && t.rekeyTo == app.address && Exec(t, LastChecks(), [1], [])
  {
    hide Exec, LastChecks, EncodeUvarint;
    CheckInt(t, 24, app.id, [0x31, 32] + ([0x80] + (EncodeUvarint(|app.address|, []) + (app.address + (CHECK + LastChecks())))));
    CheckBytes(t, 32, app.address, LastChecks());
  }

  lemma AllApprove(t: Txn, app: App)
    ensures Exec(t, AllChecks(app), [1], []) <==> t.kind == ApplicationCall && t.onCompletion == OptIn && Exec(t, AppChecks(app), [1], [])
  {
    hide Exec, AppChecks, EncodeUvarint;
    CheckInt(t, 16, 6, [0x31, 25] + ([0x22] + (CHECK + AppChecks(app))));
    CheckConst(t, 25, AppChecks(app));
  }

  lemma DropApproves(t: Txn, app: App, idx: nat, emitter: bytes)
    requires idx < U64
    ensures Exec(t, [0x20, 1, 1] + Instructions(app, idx, emitter), [], []) == Exec(t, AllChecks(app), [1], [])
  {
    var rest := [0x80] + (EncodeUvarint(|emitter|, []) + (emitter + ([0x48] + AllChecks(app))));
    RunBlock(t, Instructions(app, idx, emitter));
    hide Exec, AllChecks, EncodeUvarint;
    RunPushInt(t, idx, [0x48] + rest, [1], []);
    RunPop(t, rest, [1], Num(idx), []);
    RunPushBytes(t, emitter, [0x48] + AllChecks(app), [1], []);
    RunPop(t, AllChecks(app), [1], Str(emitter), []);
  }

  lemma RunBlock(t: Txn, rest: bytes)
    ensures Exec(t, [0x20, 1, 1] + rest, [], []) == Exec(t, rest, [1], [])
  {
    var args: bytes := [1, 1] + rest;
    assert ([0x20, 1, 1] + rest)[1..] == args;
    assert Decode(args) == Some((1, args[1..]));
    assert Decode(args[1..]) == Some((1, args[1..][1..])) && args[1..][1..] == rest;
    assert Numbers(rest, 0) == Some(([], rest));
    var none: seq<nat> := [];
    assert [1] + none == [1];
    assert Numbers(args[1..], 1) == Some(([1], rest));
  }

  // ---------- the bytes ----------

  /** The chunks of the shipped byte code between its holes. */
  lemma Chunks()
    ensures GetBytecodeChunk(SRC, LABELS, 0) == [6, 0x20, 1, 1, 0x81] && GetBytecodeChunk(SRC, LABELS, 1) == [0x48, 0x80]
    ensures GetBytecodeChunk(SRC, LABELS, 2) == [0x48, 0x31, 16, 0x81, 6, 0x12, 0x44, 0x31, 25, 0x22, 0x12, 0x44, 0x31, 24, 0x81]
    ensures GetBytecodeChunk(SRC, LABELS, 3) == [0x12, 0x44, 0x31, 32, 0x80]
    ensures GetBytecodeChunk(SRC, LABELS, 4) == [0x12, 0x44, 0x31, 1, 0x81, 0, 0x12, 0x44, 0x31, 9, 0x32, 3, 0x12, 0x44, 0x31, 21, 0x32, 3, 0x12, 0x44, 0x22]
  {
    Bounds();
    hide *;
    Front();
    Back();
  }

  lemma Front()
    ensures |SRC| == 52 && SRC[0..5] == [6, 0x20, 1, 1, 0x81] && SRC[6..8] == [0x48, 0x80]
    ensures SRC[9..24] == [0x48, 0x31, 16, 0x81, 6, 0x12, 0x44, 0x31, 25, 0x22, 0x12, 0x44, 0x31, 24, 0x81]
  {
  }

  lemma Back()
    ensures |SRC| == 52 && SRC[25..30] == [0x12, 0x44, 0x31, 32, 0x80]
    ensures SRC[31..] == [0x12, 0x44, 0x31, 1, 0x81, 0, 0x12, 0x44, 0x31, 9, 0x32, 3, 0x12, 0x44, 0x31, 21, 0x32, 3, 0x12, 0x44, 0x22]
  {
  }

  lemma Bounds()
    ensures |SRC| == 52
    ensures GetBytecodeChunk(SRC, LABELS, 0) == SRC[0..5] && GetBytecodeChunk(SRC, LABELS, 1) == SRC[6..8]
    ensures GetBytecodeChunk(SRC, LABELS, 2) == SRC[9..24] && GetBytecodeChunk(SRC, LABELS, 3) == SRC[25..30]
    ensures GetBytecodeChunk(SRC, LABELS, 4) == SRC[31..]
  {
    assert LABELS[0].position == 5 && LABELS[1].position == 8 && LABELS[2].position == 24 && LABELS[3].position == 30;
  }

  lemma LastChunk()
    ensures GetBytecodeChunk(SRC, LABELS, 4) == CHECK + LastChecks()
  {
    Chunks();
    LastBytes();
    hide *;
  }

  lemma LastBytes()
    ensures CHECK + LastChecks() == [0x12, 0x44, 0x31, 1, 0x81, 0, 0x12, 0x44, 0x31, 9, 0x32, 3, 0x12, 0x44, 0x31, 21, 0x32, 3, 0x12, 0x44, 0x22]
  {
    assert EncodeUvarint(0, []) == [0];
    EndBytes();
    hide EncodeUvarint;
    var end: bytes := [0x31, 9, 0x32, 3, 0x12, 0x44, 0x31, 21, 0x32, 3, 0x12, 0x44, 0x22];
    assert LastChecks() == [0x31, 1] + ([0x81] + ([0] + (CHECK + end)));
    assert CHECK + LastChecks() == [0x12, 0x44, 0x31, 1, 0x81, 0, 0x12, 0x44] + end;
  }

  lemma EndBytes()
    ensures [0x31, 9] + ([0x32, 3] + (CHECK + ([0x31, 21] + ([0x32, 3] + (CHECK + [0x22])))))
      == [0x31, 9, 0x32, 3, 0x12, 0x44, 0x31, 21, 0x32, 3, 0x12, 0x44, 0x22]
  {
  }

  lemma MiddleChunks(x: bytes)
    ensures GetBytecodeChunk(SRC, LABELS, 3) + x == CHECK + ([0x31, 32] + ([0x80] + x))
    ensures GetBytecodeChunk(SRC, LABELS, 2) + x ==
      [0x48] + ([0x31, 16] + ([0x81] + (EncodeUvarint(6, []) + (CHECK + ([0x31, 25] + ([0x22] + (CHECK + ([0x31, 24] + ([0x81] + x)))))))))
  {
    Chunks();
    assert EncodeUvarint(6, []) == [6];
    hide GetBytecodeChunk, EncodeUvarint;
  }

  lemma FirstChunks(x: bytes)
    ensures GetBytecodeChunk(SRC, LABELS, 1) + x == [0x48] + ([0x80] + x)
    ensures GetBytecodeChunk(SRC, LABELS, 0) + x == [6] + ([0x20, 1, 1] + ([0x81] + x))
  {
    Chunks();
    hide GetBytecodeChunk;
  }

  lemma ProgramIs(app: App, idx: nat, emitter: bytes)
    ensures SigProgram(app, idx, emitter) == Ascii("Program") + ([6] + ([0x20, 1, 1] + Instructions(app, idx, emitter)))
  {
    hide GetBytecodeChunk, EncodeUvarint, LastChecks;
    var x3 := EncodeUvarint(|app.address|, []) + (app.address + (CHECK + LastChecks()));
    LastChunk();
    MiddleChunks(x3);
    var x2 := EncodeUvarint(app.id, []) + (CHECK + ([0x31, 32] + ([0x80] + x3)));
    MiddleChunks(x2);
    var x1 := EncodeUvarint(|emitter|, []) + (emitter + ([0x48] + AllChecks(app)));
    FirstChunks(x1);
    FirstChunks(EncodeUvarint(idx, []) + ([0x48] + ([0x80] + x1)));
  }

  /** What the shipped byte code does: for every index, owner and application, the program that a
      storage account's address is the hash of approves exactly the application calls that opt
      in to this application and hand the account to its address, at no fee and closing
      nothing. */
  lemma ProgramApproves(app: App, idx: nat, emitter: bytes, t: Txn)
    requires idx < U64
    ensures |SigProgram(app, idx, emitter)| > 7 && SigProgram(app, idx, emitter)[..7] == Ascii("Program")
    ensures Runs(SigProgram(app, idx, emitter)[7..], t) <==>
      && t.kind == ApplicationCall && t.onCompletion == OptIn && t.appId == app.id && t.rekeyTo == app.address
      && t.fee == 0 && t.closeTo == Zeros(32) && t.assetCloseTo == Zeros(32)
  {
    hide Exec, SigProgram, Instructions, AllChecks, AppChecks, LastChecks;
    ProgramIs(app, idx, emitter);
    var code := [0x20, 1, 1] + Instructions(app, idx, emitter);
    var program := SigProgram(app, idx, emitter)[7..];
    assert program == [6] + code && program[1..] == code;
    DropApproves(t, app, idx, emitter);
    AllApprove(t, app);
    AppApproves(t, app);
    LastApproves(t);
  }

  /** That is what the results on storage accounts take the program to approve. */
  lemma StorageProgram(app: App, idx: nat, emitter: bytes, t: Txn)
    requires idx < U64
    ensures |SigProgram(app, idx, emitter)| > 7
    ensures StorageSig.Approves(app, t) <==> Runs(SigProgram(app, idx, emitter)[7..], t)
  {
    hide SigProgram, Runs;
    ProgramApproves(app, idx, emitter, t);
  }
}
