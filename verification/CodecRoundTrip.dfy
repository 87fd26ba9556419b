/**
 Decoding an encoded module: every instruction, table and section is read back,
 the string pool is exact, and the order of sections does not matter.
 */
module CodecRoundTrip {
  import opened Values
  import opened Bytecode
  import opened Numbers
  import opened Wire
  import opened Codec

  // ----- string pool -----

  lemma {:induction false} InternAllExact(pool: seq<Text>, ss: seq<Text>)
    requires NoDup(pool)
    ensures NoDup(InternAll(pool, ss))
    ensures forall s :: s in InternAll(pool, ss) <==> s in pool || s in ss
  {
    if ss == [] {
    } else {
      InternAllExact(pool, Init(ss));
      assert ss == Init(ss) + [Last(ss)];
    }
  }

  /** Each string the module refers to is in the pool, once, and nothing else is. */
  lemma PoolExact(m: Module, natives: seq<Text>)
    ensures NoDup(PoolOf(m, natives))
    ensures forall s :: s in PoolOf(m, natives) <==> s in StringsOf(m, natives)
  {
    InternAllExact([], StringsOf(m, natives));
  }

  lemma FindExact(xs: seq<Text>, k: nat)
    requires NoDup(xs) && k < |xs|
    ensures Find(xs, xs[k]) == Some(k)
  {
    assert xs[k] in xs;
  }

  lemma RefRoundTrip(s: Text, pool: seq<Text>, rest: seq<u8>)
    requires s in pool && |pool| <= POW32
    ensures DecRef(EncRef(s, pool) + rest, pool) == Ok(s, rest)
  {
    hide EncU, DecU, PosIn;
    UvarintRoundTrip(PosIn(pool, s) % POW32, rest);
    SmallIndex(PosIn(pool, s));
  }

  lemma SmallIndex(i: nat)
    requires i < POW32
    ensures i % POW32 == i
  {
  }

  // ----- instructions -----

  /** What encoding an instruction relies on: its strings are pooled and its native exists. */
  predicate Pooled(i: Instr, pool: seq<Text>, natives: seq<Text>) {
    && (i.ConstStr? ==> i.s in pool)
    && (i.CallVirtual? ==> i.selector in pool)
    && (i.CallNative? ==> i.native < |natives| && natives[i.native] in pool)
  }

  predicate Compound(i: Instr) {
    i.ConstInt? || i.ConstDouble? || i.ConstBool? || i.ConstStr? || i.Call? || i.ClosureNew? || i.EnumNew?
    || i.CallVirtual? || i.CallNative?
  }

  lemma PlainLow(i: Instr)
    requires Opcode(i) < 28 && Operand(i).None? && !Compound(i)
    ensures Plain(Opcode(i)) == Some(i)
  {
  }

  lemma PlainHigh(i: Instr)
    requires Opcode(i) >= 28 && Operand(i).None? && !Compound(i)
    ensures Plain(Opcode(i)) == Some(i)
  {
  }

  lemma PlainOpcode(i: Instr)
    requires Operand(i).None? && !Compound(i)
    ensures Plain(Opcode(i)) == Some(i)
  {
    hide Plain, Opcode, Operand;
    if Opcode(i) < 28 {
      PlainLow(i);
    } else {
      PlainHigh(i);
    }
  }

  function OperandOp(i: Instr): u8 {
    if i.Load? then 6 else if i.Store? then 7 else if i.EnumGet? then 40 else if i.ListNew? then 41
    else if i.Jump? then 42 else if i.JumpIfTrue? then 43 else if i.JumpIfFalse? then 44
    else if i.StructNew? then 46 else if i.FieldGet? then 47 else if i.FieldSet? then 48
    else if i.CallIndirect? then 50 else if i.GlobalGet? then 62 else 63
  }

  lemma OperandOpcodeIs(i: Instr)
    requires Operand(i).Some?
    ensures Opcode(i) == OperandOp(i)
  {
  }

  lemma OperandOpcode(i: Instr)
    requires Operand(i).Some?
    ensures Plain(Opcode(i)).None? && WithOperand(Opcode(i), 0).Some?
    ensures WithOperand(Opcode(i), Operand(i).value) == Some(i)
  {
    OperandOpcodeIs(i);
    hide Opcode, Plain;
    OperandNotPlain(OperandOp(i));
  }

  lemma OperandNotPlain(op: u8)
    requires op in {6, 7, 40, 41, 42, 43, 44, 46, 47, 48, 50, 62, 63}
    ensures Plain(op).None?
  {
  }

  function CompoundOp(i: Instr): u8 {
    if i.ConstInt? then 1 else if i.ConstDouble? then 2 else if i.ConstBool? then 3
    else if i.ConstStr? then 5 else if i.Call? then 36 else if i.CallNative? then 37
    else if i.EnumNew? then 38 else if i.ClosureNew? then 49 else 51
  }

  lemma CompoundOpcode(i: Instr)
    requires Compound(i)
    ensures Opcode(i) == CompoundOp(i) && Operand(i).None?
    ensures Plain(CompoundOp(i)).None? && WithOperand(CompoundOp(i), 0).None?
  {
    assert Opcode(i) == CompoundOp(i) && Operand(i).None?;
    var op := CompoundOp(i);
    assert op in {1, 2, 3, 5, 36, 37, 38, 49, 51};
    hide Opcode, Operand, CompoundOp;
  }

  lemma PairRoundTrip(a: nat, b: nat, rest: seq<u8>)
    requires a < POW64 && b < POW64
    ensures DecPair(EncU(a) + EncU(b) + rest) == Ok((a, b), rest)
  {
    hide EncU, DecU;
    UvarintRoundTrip(a, EncU(b) + rest);
    UvarintRoundTrip(b, rest);
    assert EncU(a) + EncU(b) + rest == EncU(a) + (EncU(b) + rest);
  }

  lemma RefThenNumber(s: Text, n: nat, pool: seq<Text>, rest: seq<u8>)
    requires s in pool && |pool| <= POW32 && n < POW64
    ensures DecRef(EncRef(s, pool) + EncU(n) + rest, pool) == Ok(s, EncU(n) + rest)
    ensures DecU(EncU(n) + rest) == Ok(n, rest)
  {
    hide EncU, DecU, EncRef, DecRef;
    RefRoundTrip(s, pool, EncU(n) + rest);
    UvarintRoundTrip(n, rest);
    assert EncRef(s, pool) + EncU(n) + rest == EncRef(s, pool) + (EncU(n) + rest);
  }

  lemma EnumNewRoundTrip(i: Instr, rest: seq<u8>)
    requires i.EnumNew?
    ensures DecEnumNew(EncU(i.ty) + (EncU(i.variant) + EncU(i.fieldCount)) + rest) == Ok(i, rest)
  {
    hide EncU, DecU, DecPair;
    PairRoundTrip(i.variant, i.fieldCount, rest);
    UvarintRoundTrip(i.ty, EncU(i.variant) + EncU(i.fieldCount) + rest);
    assert EncU(i.ty) + (EncU(i.variant) + EncU(i.fieldCount)) + rest
        == EncU(i.ty) + (EncU(i.variant) + EncU(i.fieldCount) + rest);
  }

  lemma ConstRoundTrip(i: Instr, pool: seq<Text>, natives: seq<Text>, rest: seq<u8>)
    requires i.ConstInt? || i.ConstDouble? || i.ConstBool? || i.ConstStr?
    requires Pooled(i, pool, natives) && |pool| <= POW32
    ensures DecOperands(Opcode(i), EncOperands(i, pool, natives) + rest, pool, natives) == Ok(i, rest)
  {
    CompoundOpcode(i);
    hide Opcode, Operand, Plain, EncU, EncI, DecU, DecI, DecLe, DecRef, EncRef, Le;
    if i.ConstInt? {
      IvarintRoundTrip(i.n, rest);
    } else if i.ConstDouble? {
      Pow2Values();
      FixedRoundTrip(i.bits, 8, rest);
    } else if i.ConstBool? {
      U8RoundTrip(if i.b then 1 else 0, rest);
    } else {
      RefRoundTrip(i.s, pool, rest);
    }
  }

  lemma CallRoundTrip(i: Instr, pool: seq<Text>, natives: seq<Text>, rest: seq<u8>)
    requires i.Call?
    ensures DecOperands(Opcode(i), EncOperands(i, pool, natives) + rest, pool, natives) == Ok(i, rest)
  {
    CompoundOpcode(i);
    hide Opcode, Operand, EncU, DecPair;
    PairRoundTrip(i.func, i.argc, rest);
  }

  lemma ClosureRoundTrip(i: Instr, pool: seq<Text>, natives: seq<Text>, rest: seq<u8>)
    requires i.ClosureNew?
    ensures DecOperands(Opcode(i), EncOperands(i, pool, natives) + rest, pool, natives) == Ok(i, rest)
  {
    CompoundOpcode(i);
    hide Opcode, Operand, EncU, DecPair;
    PairRoundTrip(i.func, i.captures, rest);
  }

  lemma NumbersRoundTrip(i: Instr, pool: seq<Text>, natives: seq<Text>, rest: seq<u8>)
    requires i.Call? || i.ClosureNew? || i.EnumNew?
    ensures DecOperands(Opcode(i), EncOperands(i, pool, natives) + rest, pool, natives) == Ok(i, rest)
  {
    if i.Call? {
      CallRoundTrip(i, pool, natives, rest);
    } else if i.ClosureNew? {
      ClosureRoundTrip(i, pool, natives, rest);
    } else {
      CompoundOpcode(i);
      hide Opcode, Operand, EncU, DecEnumNew;
      EnumNewRoundTrip(i, rest);
    }
  }

  lemma VirtualRoundTrip(i: Instr, pool: seq<Text>, rest: seq<u8>)
    requires i.CallVirtual? && i.selector in pool && |pool| <= POW32
    ensures DecVirtual(EncRef(i.selector, pool) + EncU(i.argc) + rest, pool) == Ok(i, rest)
  {
    hide EncU, DecU, DecRef, EncRef;
    RefThenNumber(i.selector, i.argc, pool, rest);
  }

  lemma NativeRoundTrip(i: Instr, pool: seq<Text>, natives: seq<Text>, rest: seq<u8>)
    requires i.CallNative? && i.native < |natives| && natives[i.native] in pool
    requires NoDup(natives) && |pool| <= POW32
    ensures DecNative(EncRef(natives[i.native], pool) + EncU(i.argc) + rest, pool, natives) == Ok(i, rest)
  {
    hide EncU, DecU, DecRef, EncRef, Find;
    RefThenNumber(natives[i.native], i.argc, pool, rest);
    FindExact(natives, i.native);
  }

  lemma NamedRoundTrip(i: Instr, pool: seq<Text>, natives: seq<Text>, rest: seq<u8>)
    requires i.CallVirtual? || i.CallNative?
    requires Pooled(i, pool, natives) && NoDup(natives) && |pool| <= POW32
    ensures DecOperands(Opcode(i), EncOperands(i, pool, natives) + rest, pool, natives) == Ok(i, rest)
  {
    CompoundOpcode(i);
    hide Opcode, Operand, Plain, EncU, EncRef, DecVirtual, DecNative;
    if i.CallVirtual? {
      VirtualRoundTrip(i, pool, rest);
    } else {
      NativeRoundTrip(i, pool, natives, rest);
    }
  }

  /** Every instruction is read back from its encoding, and not one byte more is consumed. */
  lemma InstrRoundTrip(i: Instr, pool: seq<Text>, natives: seq<Text>, rest: seq<u8>)
    requires Pooled(i, pool, natives) && NoDup(natives) && |pool| <= POW32
    ensures DecInstr(EncInstr(i, pool, natives) + rest, pool, natives) == Ok(i, rest)
  {
    hide Opcode, Plain, WithOperand, EncU, DecU, DecOperands;
    var op, tail := Opcode(i), EncOperands(i, pool, natives);
    U8RoundTrip(op, tail + rest);
    assert EncInstr(i, pool, natives) + rest == [op] + (tail + rest);
    if Operand(i).Some? {
      OperandOpcode(i);
      UvarintRoundTrip(Operand(i).value, rest);
    } else if Compound(i) {
      CompoundOpcode(i);
      if i.Call? || i.ClosureNew? || i.EnumNew? {
        NumbersRoundTrip(i, pool, natives, rest);
      } else if i.CallVirtual? || i.CallNative? {
        NamedRoundTrip(i, pool, natives, rest);
      } else {
        ConstRoundTrip(i, pool, natives, rest);
      }
    } else {
      PlainOpcode(i);
      assert tail + rest == rest;
    }
  }

  // ----- tables -----

  predicate AllIn(ss: seq<Text>, pool: seq<Text>) { forall i :: 0 <= i < |ss| ==> ss[i] in pool }

  lemma RefsRoundTrip(ss: seq<Text>, pool: seq<Text>, rest: seq<u8>)
    requires AllIn(ss, pool) && |pool| <= POW32 && |ss| < POW64
    ensures DecMany(RefDec(pool), EncMany(RefEnc(pool), ss) + rest) == Ok(ss, rest)
  {
    hide DecMany, EncMany, EncRef, DecRef;
    forall i, more | 0 <= i < |ss| ensures RefDec(pool)(RefEnc(pool)(ss[i]) + more) == Ok(ss[i], more) {
      RefRoundTrip(ss[i], pool, more);
    }
    ManyRoundTrip(RefEnc(pool), RefDec(pool), ss, ss, rest);
  }

  lemma TypeRoundTrip(t: TypeDef, pool: seq<Text>, rest: seq<u8>)
    requires AllIn(TypeStrings(t), pool) && |pool| <= POW32 && |t.fieldNames| < POW64
    ensures DecType(EncType(t, pool) + rest, pool, VERSION) == Ok(CanonicalType(t), rest)
  {
    hide EncU, DecU, EncMany, DecMany, EncRef, DecRef;
    assert TypeStrings(t)[0] == t.name && TypeStrings(t)[1..] == t.fieldNames;
    var names := EncMany(RefEnc(pool), t.fieldNames);
    assert EncType(t, pool) + rest == EncRef(t.name, pool) + (EncU(t.fieldCount) + (names + rest));
    RefRoundTrip(t.name, pool, EncU(t.fieldCount) + (names + rest));
    UvarintRoundTrip(t.fieldCount, names + rest);
    RefsRoundTrip(t.fieldNames, pool, rest);
  }

  lemma EnumRoundTrip(e: EnumDef, pool: seq<Text>, rest: seq<u8>)
    requires AllIn(EnumStrings(e), pool) && |pool| <= POW32 && |e.variants| < POW64
    ensures DecEnum(EncEnum(e, pool) + rest, pool) == Ok(e, rest)
  {
    hide EncU, DecU, EncMany, DecMany, EncRef, DecRef;
    assert EnumStrings(e)[0] == e.name && EnumStrings(e)[1..] == e.variants;
    var names := EncMany(RefEnc(pool), e.variants);
    assert EncEnum(e, pool) + rest == EncU(e.ty) + (EncRef(e.name, pool) + (names + rest));
    UvarintRoundTrip(e.ty, EncRef(e.name, pool) + (names + rest));
    RefRoundTrip(e.name, pool, names + rest);
    RefsRoundTrip(e.variants, pool, rest);
  }

  lemma RowRoundTrip(e: DispatchEntry, pool: seq<Text>, rest: seq<u8>)
    requires e.selector in pool && |pool| <= POW32
    ensures DecRow(EncRow(e, pool) + rest, pool) == Ok(e, rest)
  {
    hide EncU, DecU, EncRef, DecRef;
    assert EncRow(e, pool) + rest == EncU(e.ty) + (EncRef(e.selector, pool) + (EncU(e.func) + rest));
    UvarintRoundTrip(e.ty, EncRef(e.selector, pool) + (EncU(e.func) + rest));
    RefRoundTrip(e.selector, pool, EncU(e.func) + rest);
    UvarintRoundTrip(e.func, rest);
  }

  predicate CodeOk(code: seq<Instr>, pool: seq<Text>, natives: seq<Text>) {
    forall i :: 0 <= i < |code| ==> Pooled(code[i], pool, natives)
  }

  lemma CodeRoundTrip(code: seq<Instr>, pool: seq<Text>, natives: seq<Text>, rest: seq<u8>)
    requires CodeOk(code, pool, natives) && NoDup(natives) && |pool| <= POW32 && |code| < POW64
    ensures DecMany(InstrDec(pool, natives), EncMany(InstrEnc(pool, natives), code) + rest) == Ok(code, rest)
  {
    hide DecMany, EncMany, EncInstr, DecInstr, Pooled;
    var f, p := InstrEnc(pool, natives), InstrDec(pool, natives);
    forall i, more | 0 <= i < |code| ensures p(f(code[i]) + more) == Ok(code[i], more) {
      InstrRoundTrip(code[i], pool, natives, more);
    }
    ManyRoundTrip(f, p, code, code, rest);
  }

  lemma FunctionRoundTrip(f: Function, pool: seq<Text>, natives: seq<Text>, rest: seq<u8>)
    requires CodeOk(f.code, pool, natives) && NoDup(natives) && |pool| <= POW32 && |f.code| < POW64
    ensures DecFunction(EncFunction(f, pool, natives) + rest, pool, natives) == Ok(f.(name := []), rest)
  {
    hide EncU, DecU, EncMany, DecMany;
    var code := EncMany(InstrEnc(pool, natives), f.code);
    assert EncFunction(f, pool, natives) + rest == EncU(f.paramCount) + (EncU(f.localCount) + (code + rest));
    UvarintRoundTrip(f.paramCount, EncU(f.localCount) + (code + rest));
    UvarintRoundTrip(f.localCount, code + rest);
    CodeRoundTrip(f.code, pool, natives, rest);
  }

  /** A section payload made of counted items gives back the items. */
  lemma TableRoundTrip<T, U>(f: T -> seq<u8>, p: seq<u8> -> Parsed<U>, xs: seq<T>, ys: seq<U>)
    requires |ys| == |xs| < POW64
    requires forall i, more :: 0 <= i < |xs| ==> p(f(xs[i]) + more) == Ok(ys[i], more)
    ensures Table(Some(EncMany(f, xs)), p) == Success(ys)
  {
    ManyRoundTrip(f, p, xs, ys, []);
    assert EncMany(f, xs) + [] == EncMany(f, xs);
  }

  // ----- sections -----

  predicate Sized(secs: seq<Section>) { forall i :: 0 <= i < |secs| ==> |secs[i].payload| < POW64 }

  lemma {:induction false} SectionsRoundTrip(secs: seq<Section>)
    requires Sized(secs)
    ensures DecSections(Frames(secs)) == Ok(secs, [])
  {
    if secs == [] {
    } else {
      hide EncU, DecU;
      var s, tail := secs[0], Frames(secs[1..]);
      assert Frames(secs) == [s.id] + (EncU(|s.payload|) + (s.payload + tail));
      U8RoundTrip(s.id, EncU(|s.payload|) + (s.payload + tail));
      UvarintRoundTrip(|s.payload|, s.payload + tail);
      assert (s.payload + tail)[..|s.payload|] == s.payload;
      assert (s.payload + tail)[|s.payload|..] == tail;
      SectionsRoundTrip(secs[1..]);
      assert [s] + secs[1..] == secs;
    }
  }

  lemma HeaderRoundTrip(version: u32, rest: seq<u8>)
    ensures Take(Header(version) + rest, |MAGIC|) == Ok(MAGIC, Le(version, 4) + rest)
    ensures DecLe(Le(version, 4) + rest, 4) == Ok(version, rest)
  {
    Pow2Values();
    FixedRoundTrip(version, 4, rest);
    assert Header(version) + rest == MAGIC + (Le(version, 4) + rest);
    assert (MAGIC + (Le(version, 4) + rest))[..5] == MAGIC;
    assert (MAGIC + (Le(version, 4) + rest))[5..] == Le(version, 4) + rest;
  }

  /** Decoding framed sections is assembling what was collected from them. */
  lemma DecFramed(secs: seq<Section>, version: u32, natives: seq<Text>)
    requires Sized(secs) && (version == 2 || version == 3)
    ensures DecModule(Header(version) + Frames(secs), natives) == Assemble(Collect(secs), version, natives)
  {
    hide DecSections, Assemble, Frames, Collect, Take, DecLe, Header;
    HeaderRoundTrip(version, Frames(secs));
    SectionsRoundTrip(secs);
  }

  predicate Known(id: u8) { 1 <= id <= 8 }

  /** The last payload with this id. */
  function LastWith(secs: seq<Section>, id: u8): Option<seq<u8>> {
    if secs == [] then None
    else if Last(secs).id == id then Some(Last(secs).payload)
    else LastWith(Init(secs), id)
  }

  function Selected(secs: seq<Section>): Payloads {
    Payloads(LastWith(secs, CONSTANTS), LastWith(secs, TYPES), LastWith(secs, ENUMS), LastWith(secs, FUNCTIONS),
             LastWith(secs, SYMBOLS), LastWith(secs, DISPATCH), LastWith(secs, GLOBALS), LastWith(secs, ENTRY))
  }

  lemma {:induction false} CollectSelects(secs: seq<Section>)
    ensures Collect(secs) == Selected(secs)
  {
    if secs == [] {
    } else {
      CollectSelects(Init(secs));
    }
  }

  /** No known id occurs twice.  Unknown sections may repeat. */
  predicate DistinctKnown(secs: seq<Section>) {
    forall i, j :: 0 <= i < j < |secs| && secs[i].id == secs[j].id ==> !Known(secs[i].id)
  }

  lemma {:induction false} LastWithMember(secs: seq<Section>, id: u8)
    requires DistinctKnown(secs) && Known(id)
    ensures forall p :: Section(id, p) in secs <==> LastWith(secs, id) == Some(p)
  {
    if secs == [] {
    } else {
      LastWithMember(Init(secs), id);
      assert secs == Init(secs) + [Last(secs)];
      assert Last(secs).id == id ==> forall i :: 0 <= i < |secs| - 1 ==> secs[i].id != id;
    }
  }

  lemma LastWithPermuted(a: seq<Section>, b: seq<Section>, id: u8)
    requires DistinctKnown(a) && DistinctKnown(b) && multiset(a) == multiset(b) && Known(id)
    ensures LastWith(a, id) == LastWith(b, id)
  {
    LastWithMember(a, id);
    LastWithMember(b, id);
    forall s ensures s in a <==> s in b {
      assert s in a <==> s in multiset(a);
      assert s in b <==> s in multiset(b);
    }
    assert LastWith(a, id).Some? ==> Section(id, LastWith(a, id).value) in b;
    assert LastWith(b, id).Some? ==> Section(id, LastWith(b, id).value) in a;
  }

  /** Sections can come in any order: the decoder gives the same module, or the same error. */
  lemma {:induction false} SectionOrderIrrelevant(a: seq<Section>, b: seq<Section>, version: u32, natives: seq<Text>)
    requires Sized(a) && Sized(b) && (version == 2 || version == 3)
    requires DistinctKnown(a) && DistinctKnown(b) && multiset(a) == multiset(b)
    ensures DecModule(Header(version) + Frames(a), natives) == DecModule(Header(version) + Frames(b), natives)
  {
    DecFramed(a, version, natives);
    DecFramed(b, version, natives);
    CollectSelects(a);
    CollectSelects(b);
    hide DecModule, Assemble, Collect, LastWith, DistinctKnown;
    forall id: u8 | Known(id) ensures LastWith(a, id) == LastWith(b, id) {
      LastWithPermuted(a, b, id);
    }
    assert Known(1) && Known(2) && Known(3) && Known(4) && Known(5) && Known(6) && Known(7) && Known(8);
  }

  predicate Unknown(secs: seq<Section>) { forall i :: 0 <= i < |secs| ==> !Known(secs[i].id) }

  lemma {:induction false} CollectSkips(a: seq<Section>, extra: seq<Section>)
    requires Unknown(extra)
    ensures Collect(a + extra) == Collect(a)
  {
    if extra == [] {
      assert a + extra == a;
    } else {
      assert Init(a + extra) == a + Init(extra);
      assert Last(a + extra) == Last(extra);
      CollectSkips(a, Init(extra));
    }
  }

  lemma {:induction false} CollectExtends(a: seq<Section>, b: seq<Section>, tail: seq<Section>)
    requires Collect(a) == Collect(b)
    ensures Collect(a + tail) == Collect(b + tail)
  {
    if tail == [] {
      assert a + tail == a && b + tail == b;
    } else {
      assert Init(a + tail) == a + Init(tail) && Last(a + tail) == Last(tail);
      assert Init(b + tail) == b + Init(tail) && Last(b + tail) == Last(tail);
      CollectExtends(a, b, Init(tail));
    }
  }

  /** Sections with unknown ids and any payload, put in anywhere, change nothing. */
  lemma {:induction false} UnknownSectionsIgnored(
      a: seq<Section>, extra: seq<Section>, b: seq<Section>, version: u32, natives: seq<Text>)
    requires Sized(a + extra + b) && Unknown(extra) && (version == 2 || version == 3)
    ensures DecModule(Header(version) + Frames(a + extra + b), natives)
         == DecModule(Header(version) + Frames(a + b), natives)
  {
    assert Sized(a + b) by {
      forall i | 0 <= i < |a + b| ensures |(a + b)[i].payload| < POW64 {
        var j := if i < |a| then i else i + |extra|;
        assert (a + b)[i] == (a + extra + b)[j];
      }
    }
    DecFramed(a + extra + b, version, natives);
    DecFramed(a + b, version, natives);
    CollectSkips(a, extra);
    CollectExtends(a + extra, a, b);
  }
}
