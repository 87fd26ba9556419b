/**
 The decoder's answers are within the encoder's reach: every module read from any
 bytes can be written again and is then read back, and every instruction read
 came from its own opcode (`decode_module` and `encode_module` in
 `runtime/src/codec.rs`).
 */
module Reencoding {
  import opened Values
  import opened Bytecode
  import opened Wire
  import opened Codec
  import opened CodecRoundTrip
  import opened ModuleRoundTrip

  // ----- what single readers can yield -----

  lemma NumberFits(bs: seq<u8>)
    ensures DecU(bs).Ok? ==> DecU(bs).value < POW64
  {
    hide DecUFrom, GroupSum;
    UvarintReaderTotal(bs);
  }

  lemma TextRead(bs: seq<u8>)
    ensures DecStr(bs).Ok? ==> TextOk(DecStr(bs).value)
  {
    hide ValidUtf8;
    NumberFits(bs);
  }

  lemma RefRead(bs: seq<u8>, pool: seq<Text>)
    ensures DecRef(bs, pool).Ok? ==> DecRef(bs, pool).value in pool
  {
  }

  lemma {:induction false} EachRead<T>(p: seq<u8> -> Parsed<T>, good: T -> bool, n: nat, bs: seq<u8>)
    requires forall more :: p(more).Ok? ==> good(p(more).value)
    requires ParseMany(p, n, bs).Ok?
    ensures |ParseMany(p, n, bs).value| == n
    ensures forall i :: 0 <= i < n ==> good(ParseMany(p, n, bs).value[i])
    decreases n
  {
    if n == 0 {
    } else {
      EachRead(p, good, n - 1, p(bs).rest);
    }
  }

  /** What every item reader promises, every counted run promises of its items. */
  lemma ManyRead<T>(p: seq<u8> -> Parsed<T>, good: T -> bool, bs: seq<u8>)
    requires forall more :: p(more).Ok? ==> good(p(more).value)
    ensures var r := DecMany(p, bs);
            r.Ok? ==> |r.value| < POW64 && forall i :: 0 <= i < |r.value| ==> good(r.value[i])
  {
    hide DecUFrom;
    NumberFits(bs);
    if DecMany(p, bs).Ok? {
      EachRead(p, good, DecU(bs).value, DecU(bs).rest);
    }
  }

  lemma TableRead<T>(payload: Option<seq<u8>>, p: seq<u8> -> Parsed<T>, good: T -> bool)
    requires forall more :: p(more).Ok? ==> good(p(more).value)
    ensures var r := Table(payload, p);
            r.Success? ==> |r.value| < POW64 && forall i :: 0 <= i < |r.value| ==> good(r.value[i])
  {
    hide DecMany;
    if payload.Some? {
      ManyRead(p, good, payload.value);
    }
  }

  lemma RefsRead(bs: seq<u8>, pool: seq<Text>)
    ensures var r := DecMany(RefDec(pool), bs); r.Ok? ==> |r.value| < POW64 && AllIn(r.value, pool)
  {
    hide DecRef, DecMany;
    forall more | RefDec(pool)(more).Ok? ensures RefDec(pool)(more).value in pool {
      RefRead(more, pool);
    }
    ManyRead(RefDec(pool), s => s in pool, bs);
  }

  // ----- instructions -----

  /** The instruction's strings are pooled and its native exists. */
  predicate InstrOk(i: Instr, pool: seq<Text>, natives: seq<Text>) {
    AllIn(InstrStrings(natives)(i), pool) && (i.CallNative? ==> i.native < |natives|)
  }

  lemma PlainOpcode(op: u8)
    ensures Plain(op).Some? ==> Opcode(Plain(op).value) == op && 1 <= op <= 63
  {
    hide Plain, Opcode;
    if op <= 18 {
      LowOpcode(op);
    } else if op <= 33 {
      MiddleOpcode(op);
    } else if op <= 53 {
      HighOpcode(op);
    } else {
      LastOpcode(op);
    }
  }

  lemma LowOpcode(op: u8)
    requires op <= 18
    ensures Plain(op).Some? ==> Opcode(Plain(op).value) == op && 1 <= op
  {
  }

  lemma MiddleOpcode(op: u8)
    requires 18 < op <= 33
    ensures Plain(op).Some? ==> Opcode(Plain(op).value) == op
  {
  }

  lemma HighOpcode(op: u8)
    requires 33 < op <= 53
    ensures Plain(op).Some? ==> Opcode(Plain(op).value) == op
  {
  }

  lemma LastOpcode(op: u8)
    requires 53 < op
    ensures Plain(op).Some? ==> Opcode(Plain(op).value) == op && op <= 63
  {
  }

  /** The opcodes with one number. */
  lemma FirstOperandOpcodes(i: Instr)
    ensures i.Load? ==> Opcode(i) == 6
    ensures i.Store? ==> Opcode(i) == 7
    ensures i.EnumGet? ==> Opcode(i) == 40
    ensures i.ListNew? ==> Opcode(i) == 41
    ensures i.Jump? ==> Opcode(i) == 42
    ensures i.JumpIfTrue? ==> Opcode(i) == 43
    ensures i.JumpIfFalse? ==> Opcode(i) == 44
  {
  }

  /** The opcodes with one number, the rest. */
  lemma OtherOperandOpcodes(i: Instr)
    ensures i.StructNew? ==> Opcode(i) == 46
    ensures i.FieldGet? ==> Opcode(i) == 47
    ensures i.FieldSet? ==> Opcode(i) == 48
    ensures i.CallIndirect? ==> Opcode(i) == 50
    ensures i.GlobalGet? ==> Opcode(i) == 62
    ensures i.GlobalSet? ==> Opcode(i) == 63
  {
  }

  /** The opcodes with other operands. */
  lemma CompoundOpcodes(i: Instr)
    ensures i.ConstInt? ==> Opcode(i) == 1
    ensures i.ConstDouble? ==> Opcode(i) == 2
    ensures i.ConstBool? ==> Opcode(i) == 3
    ensures i.ConstStr? ==> Opcode(i) == 5
    ensures i.Call? ==> Opcode(i) == 36
    ensures i.CallNative? ==> Opcode(i) == 37
    ensures i.EnumNew? ==> Opcode(i) == 38
    ensures i.ClosureNew? ==> Opcode(i) == 49
    ensures i.CallVirtual? ==> Opcode(i) == 51
  {
  }

  lemma PlainNeedsNothing(op: u8, pool: seq<Text>, natives: seq<Text>)
    ensures Plain(op).Some? ==> InstrOk(Plain(op).value, pool, natives)
  {
  }

  lemma OperandOpcode(op: u8, v: nat, pool: seq<Text>, natives: seq<Text>)
    ensures WithOperand(op, v).Some? <==> WithOperand(op, 0).Some?
    ensures var i := WithOperand(op, v);
            i.Some? ==> Opcode(i.value) == op && 1 <= op <= 63 && InstrOk(i.value, pool, natives)
  {
    hide Plain, Opcode;
    if WithOperand(op, v).Some? {
      FirstOperandOpcodes(WithOperand(op, v).value);
      OtherOperandOpcodes(WithOperand(op, v).value);
    }
  }

  lemma NativeRead(bs: seq<u8>, pool: seq<Text>, natives: seq<Text>)
    requires |natives| <= POW32
    ensures var r := DecNative(bs, pool, natives);
            r.Ok? ==> r.value.CallNative? && r.value.native < |natives| && natives[r.value.native] in pool
  {
    hide DecUFrom;
  }

  lemma OperandsRead(op: u8, bs: seq<u8>, pool: seq<Text>, natives: seq<Text>)
    requires |natives| <= POW32
    ensures var r := DecOperands(op, bs, pool, natives);
            r.Ok? ==> Opcode(r.value) == op && 1 <= op <= 63 && InstrOk(r.value, pool, natives)
  {
    hide DecU, DecI, DecLe, DecNative, Opcode;
    NativeRead(bs, pool, natives);
    var r := DecOperands(op, bs, pool, natives);
    if r.Ok? {
      CompoundOpcodes(r.value);
    }
  }

  /** Every instruction the decoder yields came from its own opcode, with pooled strings and a known native. */
  lemma InstrRead(bs: seq<u8>, pool: seq<Text>, natives: seq<Text>)
    requires |natives| <= POW32
    ensures var r := DecInstr(bs, pool, natives);
            r.Ok? ==> bs != [] && bs[0] == Opcode(r.value) && 1 <= bs[0] <= 63 && InstrOk(r.value, pool, natives)
  {
    hide DecU, DecOperands, Plain, WithOperand, Opcode, InstrOk;
    if bs != [] {
      var op, rest := bs[0], bs[1..];
      PlainOpcode(op);
      PlainNeedsNothing(op, pool, natives);
      OperandsRead(op, rest, pool, natives);
      if DecU(rest).Ok? {
        OperandOpcode(op, DecU(rest).value, pool, natives);
      }
    }
  }

  /** A first byte that is no opcode is refused by name. */
  lemma OpcodeRefused(op: u8, rest: seq<u8>, pool: seq<Text>, natives: seq<Text>)
    requires op == 0 || op > 63
    ensures DecInstr([op] + rest, pool, natives) == Err(UnknownOpcode(op))
  {
    assert Plain(op).None? by { PlainOpcode(op); }
    hide Plain;
    assert ([op] + rest)[0] == op;
  }

  /** Four bytes as a little-endian number. */
  function Word(a: int, b: int, c: int, d: int): int { a + 0x100 * b + 0x1_0000 * c + 0x100_0000 * d }

  /** Input that does not start with "THERA" and version 2 or 3 is refused by the first thing wrong with it. */
  lemma HeaderRefused(bs: seq<u8>, natives: seq<Text>)
    ensures |bs| < 5 ==> DecModule(bs, natives) == Failure(UnexpectedEof)
    ensures |bs| >= 5 && bs[..5] != [84, 72, 69, 82, 65] ==> DecModule(bs, natives) == Failure(BadMagic)
    ensures 5 <= |bs| < 9 && bs[..5] == [84, 72, 69, 82, 65] ==> DecModule(bs, natives) == Failure(UnexpectedEof)
    ensures |bs| >= 9 && bs[..5] == [84, 72, 69, 82, 65] ==>
              var version := Word(bs[5], bs[6], bs[7], bs[8]);
              version != 2 && version != 3 ==> DecModule(bs, natives) == Failure(UnsupportedVersion(version))
  {
    hide Assemble, DecSections, Collect;
    if |bs| >= 9 {
      FourLe(bs[5..][..4]);
    }
  }

  lemma FourLe(b: seq<u8>)
    requires |b| == 4
    ensures FromLe(b) == Word(b[0], b[1], b[2], b[3])
  {
    assert b[1..][1..] == b[2..] && b[2..][1..] == b[3..];
    assert FromLe(b[3..]) == b[3] + 256 * FromLe(b[3..][1..]);
    assert FromLe(b[2..]) == b[2] + 256 * FromLe(b[3..]);
    assert FromLe(b[1..]) == b[1] + 256 * FromLe(b[2..]);
  }

  // ----- table rows -----

  predicate FunctionOk(f: Function, pool: seq<Text>, natives: seq<Text>) {
    |f.code| < POW64 && forall i :: 0 <= i < |f.code| ==> InstrOk(f.code[i], pool, natives)
  }

  predicate TypeOk(t: TypeDef, pool: seq<Text>) { |t.fieldNames| < POW64 && AllIn(TypeStrings(t), pool) }

  predicate EnumOk(e: EnumDef, pool: seq<Text>) { |e.variants| < POW64 && AllIn(EnumStrings(e), pool) }

  predicate RowOk(e: DispatchEntry, pool: seq<Text>) { AllIn(RowStrings(e), pool) }

  lemma FunctionRead(bs: seq<u8>, pool: seq<Text>, natives: seq<Text>)
    requires |natives| <= POW32
    ensures var r := DecFunction(bs, pool, natives); r.Ok? ==> FunctionOk(r.value, pool, natives)
  {
    hide DecU, DecMany, DecInstr, InstrOk;
    var p := InstrDec(pool, natives);
    forall more | p(more).Ok? ensures InstrOk(p(more).value, pool, natives) {
      InstrRead(more, pool, natives);
    }
    if DecU(bs).Ok? && DecU(DecU(bs).rest).Ok? {
      ManyRead(p, i => InstrOk(i, pool, natives), DecU(DecU(bs).rest).rest);
    }
  }

  lemma TypeRead(bs: seq<u8>, pool: seq<Text>, version: nat)
    ensures var r := DecType(bs, pool, version); r.Ok? ==> TypeOk(r.value, pool)
  {
    hide DecU, DecMany, DecRef;
    RefRead(bs, pool);
    if DecRef(bs, pool).Ok? && DecU(DecRef(bs, pool).rest).Ok? {
      RefsRead(DecU(DecRef(bs, pool).rest).rest, pool);
    }
  }

  lemma EnumRead(bs: seq<u8>, pool: seq<Text>)
    ensures var r := DecEnum(bs, pool); r.Ok? ==> EnumOk(r.value, pool)
  {
    hide DecU, DecMany, DecRef;
    if DecU(bs).Ok? {
      RefRead(DecU(bs).rest, pool);
      if DecRef(DecU(bs).rest, pool).Ok? {
        RefsRead(DecRef(DecU(bs).rest, pool).rest, pool);
      }
    }
  }

  lemma RowRead(bs: seq<u8>, pool: seq<Text>)
    ensures var r := DecRow(bs, pool); r.Ok? ==> RowOk(r.value, pool)
  {
    hide DecU, DecRef;
    if DecU(bs).Ok? {
      RefRead(DecU(bs).rest, pool);
    }
  }

  // ----- names -----

  lemma {:induction false} AsciiIsText(s: Text)
    requires forall i :: 0 <= i < |s| ==> s[i] < 0x80
    ensures ValidUtf8(s)
  {
    if s == [] {
    } else {
      AsciiIsText(s[1..]);
    }
  }

  lemma {:induction false} DigitsShort(n: nat)
    ensures |Digits(n)| <= n / 10 + 2
    ensures forall i :: 0 <= i < |Digits(n)| ==> Digits(n)[i] < 0x80
    decreases n
  {
    if n < 10 {
    } else {
      DigitsShort(n / 10);
    }
  }

  lemma NamesAreText(fs: seq<Function>, symbols: seq<Text>)
    requires |fs| < POW64 && AllText(symbols)
    ensures AllText(Names(Named(fs, symbols)))
  {
    hide ValidUtf8, Digits;
    forall i | 0 <= i < |fs| ensures TextOk(Names(Named(fs, symbols))[i]) {
      DigitsShort(i);
      AsciiIsText(Placeholder(i));
    }
  }

  // ----- whole modules -----

  lemma {:induction false} FlatMapIn<T>(f: T -> seq<Text>, xs: seq<T>, pool: seq<Text>)
    requires forall i :: 0 <= i < |xs| ==> AllIn(f(xs[i]), pool)
    ensures AllIn(FlatMap(f, xs), pool)
  {
    if xs == [] {
    } else {
      FlatMapIn(f, Init(xs), pool);
      assert AllIn(f(xs[|xs| - 1]), pool);
    }
  }

  lemma PooledIsText(ss: seq<Text>, pool: seq<Text>)
    requires AllIn(ss, pool) && AllText(pool)
    ensures AllText(ss)
  {
    hide TextOk;
  }

  /** What assembling payloads yields, table by table. */
  lemma AssembledRead(p: Payloads, version: nat, natives: seq<Text>)
    requires |natives| <= POW32 && Assemble(p, version, natives).Success?
    ensures var m, pool := Assemble(p, version, natives).value, Table(p.consts, DecStr).value;
            && AllText(pool) && TablesFit(m) && AllText(Names(m.functions)) && IndexOk(m.dispatch, m.index)
            && (forall i :: 0 <= i < |m.types| ==> TypeOk(m.types[i], pool))
            && (forall i :: 0 <= i < |m.enums| ==> EnumOk(m.enums[i], pool))
            && (forall i :: 0 <= i < |m.functions| ==> FunctionOk(m.functions[i], pool, natives))
            && (forall i :: 0 <= i < |m.dispatch| ==> RowOk(m.dispatch[i], pool))
  {
    hide Table, TextOk, InstrOk, AllIn, DecType, DecEnum, DecRow, DecFunction, DecStr, DecGlobals, DecEntry;
    hide BuildIndex, IndexOk, Digits;
    var m := Assemble(p, version, natives).value;
    forall more | DecStr(more).Ok? ensures TextOk(DecStr(more).value) { TextRead(more); }
    TableRead(p.consts, DecStr, TextOk);
    TableRead(p.symbols, DecStr, TextOk);
    var pool := Table(p.consts, DecStr).value;
    var td, ed, rd, fd := TypeDec(pool, version), EnumDec(pool), RowDec(pool), FunctionDec(pool, natives);
    forall more | td(more).Ok? ensures TypeOk(td(more).value, pool) { TypeRead(more, pool, version); }
    forall more | ed(more).Ok? ensures EnumOk(ed(more).value, pool) { EnumRead(more, pool); }
    forall more | rd(more).Ok? ensures RowOk(rd(more).value, pool) { RowRead(more, pool); }
    forall more | fd(more).Ok? ensures FunctionOk(fd(more).value, pool, natives) { FunctionRead(more, pool, natives); }
    TableRead(p.types, td, t => TypeOk(t, pool));
    TableRead(p.enums, ed, e => EnumOk(e, pool));
    TableRead(p.dispatch, rd, e => RowOk(e, pool));
    TableRead(p.functions, fd, f => FunctionOk(f, pool, natives));
    NamesAreText(Table(p.functions, fd).value, Table(p.symbols, DecStr).value);
    BuildIndexOk(m.dispatch);
  }

  lemma StringsPooled(m: Module, natives: seq<Text>, pool: seq<Text>)
    requires forall i :: 0 <= i < |m.types| ==> TypeOk(m.types[i], pool)
    requires forall i :: 0 <= i < |m.enums| ==> EnumOk(m.enums[i], pool)
    requires forall i :: 0 <= i < |m.functions| ==> FunctionOk(m.functions[i], pool, natives)
    requires forall i :: 0 <= i < |m.dispatch| ==> RowOk(m.dispatch[i], pool)
    ensures AllIn(StringsOf(m, natives), pool)
  {
    hide FlatMap, TypeStrings, EnumStrings, RowStrings, InstrStrings;
    FlatMapIn(TypeStrings, m.types, pool);
    FlatMapIn(EnumStrings, m.enums, pool);
    FlatMapIn(RowStrings, m.dispatch, pool);
    forall k | 0 <= k < |m.functions| ensures AllIn(FunctionStrings(natives)(m.functions[k]), pool) {
      assert FunctionOk(m.functions[k], pool, natives);
      FlatMapIn(InstrStrings(natives), m.functions[k].code, pool);
    }
    FlatMapIn(FunctionStrings(natives), m.functions, pool);
  }

  /** The limits of the encoder's own casts: pool and entry indices of 32 bits, section lengths of a machine word. */
  ghost predicate WithinCasts(m: Module, natives: seq<Text>) {
    && |PoolOf(m, natives)| <= POW32 && Sized(SectionsOf(m, natives))
    && Canonical(m).entry != Some(POW32 - 1) && Canonical(m).init != Some(POW32 - 1)
  }

  /**
   Whatever bytes a module was decoded from, encoding it again and decoding that
   gives the module with its entry points resolved and field counts settled; doing
   so once more changes nothing.
   */
  lemma {:induction false} DecodedReencodes(bs: seq<u8>, natives: seq<Text>)
    requires DecModule(bs, natives).Success? && NoDup(natives) && |natives| <= POW32
    requires WithinCasts(DecModule(bs, natives).value, natives)
    ensures var m := DecModule(bs, natives).value;
            Encodable(m, natives) && DecModule(EncModule(m, natives), natives) == Success(Canonical(m))
    ensures Canonical(Canonical(DecModule(bs, natives).value)) == Canonical(DecModule(bs, natives).value)
  {
    var m := DecModule(bs, natives).value;
    var p, version := DecodedFrom(bs, natives);
    AssembledRead(p, version, natives);
    var pool := Table(p.consts, DecStr).value;
    StringsPooled(m, natives, pool);
    PooledIsText(StringsOf(m, natives), pool);
    NativesRead(m, pool, natives);
    hide DecModule, Assemble, AllText, TablesFit, IndexOk, PoolOf, SectionsOf, StringsOf, EncModule;
    assert Encodable(m, natives);
    ModuleRoundTrip.ModuleRoundTrip(m, natives);
    CanonicalTwice(m);
  }

  lemma NativesRead(m: Module, pool: seq<Text>, natives: seq<Text>)
    requires forall i :: 0 <= i < |m.functions| ==> FunctionOk(m.functions[i], pool, natives)
    ensures NativesKnown(m, natives)
  {
    forall k, i | 0 <= k < |m.functions| && 0 <= i < |m.functions[k].code| && m.functions[k].code[i].CallNative?
      ensures m.functions[k].code[i].native < |natives|
    {
      assert FunctionOk(m.functions[k], pool, natives);
      assert InstrOk(m.functions[k].code[i], pool, natives);
    }
  }

  lemma DecodedFrom(bs: seq<u8>, natives: seq<Text>) returns (p: Payloads, version: nat)
    requires DecModule(bs, natives).Success?
    ensures DecModule(bs, natives) == Assemble(p, version, natives)
  {
    hide Assemble, DecSections, Collect;
    version := DecLe(Take(bs, |MAGIC|).rest, 4).value;
    p := Collect(DecSections(DecLe(Take(bs, |MAGIC|).rest, 4).rest).value);
  }

  lemma CanonicalTwice(m: Module)
    ensures Canonical(Canonical(m)) == Canonical(m)
  {
    var c := Canonical(m);
    assert Canonical(c).types == c.types;
  }
}
