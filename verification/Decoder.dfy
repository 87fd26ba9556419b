/**
 The decoder as the source runs it: readers advancing over payloads and pushing
 into tables (`decode_module` and its helpers in `runtime/src/codec.rs`).  Each
 agrees with the format on every input, errors included.
 */
module Decoder {
  import opened Values
  import opened Bytecode
  import opened Wire
  import opened Serialize
  import opened Codec

  method DecodeRef(r: Reader, pool: seq<Text>) returns (res: Result<Text>)
    requires r.Valid()
    modifies r
    ensures r.Valid() && Agrees(DecRef(old(r.Rest()), pool), res, r.Rest())
  {
    var i :- r.ReadUvarint();
    res := if i < |pool| then Success(pool[i]) else Failure(ConstIndexOutOfRange);
  }

  method DecodePair(r: Reader) returns (res: Result<(nat, nat)>)
    requires r.Valid()
    modifies r
    ensures r.Valid() && Agrees(DecPair(old(r.Rest())), res, r.Rest())
  {
    hide DecU;
    var a :- r.ReadUvarint();
    var b :- r.ReadUvarint();
    res := Success((a, b));
  }

  /** A native bound by the name the pool gives. */
  method DecodeNative(r: Reader, pool: seq<Text>, natives: seq<Text>) returns (res: Result<Instr>)
    requires r.Valid()
    modifies r
    ensures r.Valid() && Agrees(DecNative(old(r.Rest()), pool, natives), res, r.Rest())
  {
    hide DecU, DecRef, Find;
    var name :- DecodeRef(r, pool);
    var native := Find(natives, name);
    if native.None? {
      return Failure(UnknownNative(name));
    }
    var argc :- r.ReadUvarint();
    res := Success(CallNative(native.value % POW32, argc % 256));
  }

  method DecodeOperands(r: Reader, op: u8, pool: seq<Text>, natives: seq<Text>) returns (res: Result<Instr>)
    requires r.Valid()
    modifies r
    ensures r.Valid() && Agrees(DecOperands(op, old(r.Rest()), pool, natives), res, r.Rest())
  {
    hide DecU, DecI, DecLe, DecRef, DecPair, DecNative;
    if op == 1 {
      var n :- r.ReadIvarint();
      return Success(ConstInt(n));
    } else if op == 2 {
      var bits :- r.ReadLe(8);
      return Success(ConstDouble(bits % POW64));
    } else if op == 3 {
      var b :- r.ReadU8();
      return Success(ConstBool(b != 0));
    } else if op == 5 {
      var s :- DecodeRef(r, pool);
      return Success(ConstStr(s));
    } else if op == 36 {
      var fa :- DecodePair(r);
      return Success(Call(fa.0 % POW32, fa.1 % 256));
    } else if op == 37 {
      res := DecodeNative(r, pool, natives);
    } else if op == 38 {
      var ty :- r.ReadUvarint();
      var vf :- DecodePair(r);
      return Success(EnumNew(ty % POW32, vf.0 % POW16, vf.1 % 256));
    } else if op == 49 {
      var fc :- DecodePair(r);
      return Success(ClosureNew(fc.0 % POW32, fc.1 % 256));
    } else if op == 51 {
      var selector :- DecodeRef(r, pool);
      var argc :- r.ReadUvarint();
      return Success(CallVirtual(selector, argc % 256));
    } else {
      res := Failure(UnknownOpcode(op));
    }
  }

  lemma OperandIndependent(op: u8, v: nat)
    ensures WithOperand(op, v).Some? <==> WithOperand(op, 0).Some?
  {
  }

  method DecodeInstr(r: Reader, pool: seq<Text>, natives: seq<Text>) returns (res: Result<Instr>)
    requires r.Valid()
    modifies r
    ensures r.Valid() && Agrees(DecInstr(old(r.Rest()), pool, natives), res, r.Rest())
  {
    hide DecU, DecOperands, Plain, WithOperand;
    var op :- r.ReadU8();
    if Plain(op).Some? {
      return Success(Plain(op).value);
    }
    if WithOperand(op, 0).Some? {
      var v :- r.ReadUvarint();
      OperandIndependent(op, v);
      return Success(WithOperand(op, v).value);
    }
    res := DecodeOperands(r, op, pool, natives);
  }

  method DecodeRefs(r: Reader, pool: seq<Text>) returns (res: Result<seq<Text>>)
    requires r.Valid()
    modifies r
    ensures r.Valid() && Agrees(DecMany(RefDec(pool), old(r.Rest())), res, r.Rest())
  {
    hide DecU, DecRef, ParseMany;
    ghost var p := RefDec(pool);
    var n :- r.ReadUvarint();
    ghost var start := r.Rest();
    var xs: seq<Text> := [];
    ManyStart(p, n, start);
    for i := 0 to n
      invariant r.Valid() && Prepend(xs, ParseMany(p, n - i, r.Rest())) == ParseMany(p, n, start)
    {
      ParseManyStep(p, n - i, r.Rest(), xs);
      var x :- DecodeRef(r, pool);
      xs := xs + [x];
    }
    ManyDone(p, xs, r.Rest());
    res := Success(xs);
  }

  lemma ManyStart<T>(p: seq<u8> -> Parsed<T>, n: nat, bs: seq<u8>)
    ensures Prepend([], ParseMany(p, n, bs)) == ParseMany(p, n, bs)
  {
    var r := ParseMany(p, n, bs);
    assert r.Ok? ==> [] + r.value == r.value;
  }

  lemma ManyDone<T>(p: seq<u8> -> Parsed<T>, xs: seq<T>, bs: seq<u8>)
    ensures Prepend(xs, ParseMany(p, 0, bs)) == Ok(xs, bs)
  {
    assert xs + [] == xs;
  }

  /** The constant pool and the symbols: counted strings, none if the section is absent. */
  method DecodeStrings(payload: Option<seq<u8>>) returns (res: Result<seq<Text>>)
    ensures res == Table(payload, DecStr)
  {
    hide DecU, DecStr, ParseMany;
    if payload.None? {
      return Success([]);
    }
    var r := new Reader(payload.value);
    var n :- r.ReadUvarint();
    ghost var start := r.Rest();
    var xs: seq<Text> := [];
    ManyStart(DecStr, n, start);
    for i := 0 to n
      invariant fresh(r) && r.Valid() && Prepend(xs, ParseMany(DecStr, n - i, r.Rest())) == ParseMany(DecStr, n, start)
    {
      ParseManyStep(DecStr, n - i, r.Rest(), xs);
      var x :- r.ReadStr();
      xs := xs + [x];
    }
    ManyDone(DecStr, xs, r.Rest());
    res := Success(xs);
  }

  method DecodeType(r: Reader, pool: seq<Text>, version: nat) returns (res: Result<TypeDef>)
    requires r.Valid()
    modifies r
    ensures r.Valid() && Agrees(DecType(old(r.Rest()), pool, version), res, r.Rest())
  {
    hide DecU, DecRef, DecMany;
    var name :- DecodeRef(r, pool);
    var fieldCount :- r.ReadUvarint();
    if version < 3 {
      return Success(TypeDef(name, fieldCount % POW16, []));
    }
    var names :- DecodeRefs(r, pool);
    if names == [] {
      return Success(TypeDef(name, fieldCount % POW16, []));
    }
    res := Success(TypeDef(name, |names| % POW16, names));
  }

  method DecodeTypes(payload: Option<seq<u8>>, pool: seq<Text>, version: nat) returns (res: Result<seq<TypeDef>>)
    ensures res == Table(payload, TypeDec(pool, version))
  {
    hide DecU, DecType, ParseMany;
    ghost var p := TypeDec(pool, version);
    if payload.None? {
      return Success([]);
    }
    var r := new Reader(payload.value);
    var n :- r.ReadUvarint();
    ghost var start := r.Rest();
    var xs: seq<TypeDef> := [];
    ManyStart(p, n, start);
    for i := 0 to n
      invariant fresh(r) && r.Valid() && Prepend(xs, ParseMany(p, n - i, r.Rest())) == ParseMany(p, n, start)
    {
      ParseManyStep(p, n - i, r.Rest(), xs);
      var x :- DecodeType(r, pool, version);
      xs := xs + [x];
    }
    ManyDone(p, xs, r.Rest());
    res := Success(xs);
  }

  method DecodeEnum(r: Reader, pool: seq<Text>) returns (res: Result<EnumDef>)
    requires r.Valid()
    modifies r
    ensures r.Valid() && Agrees(DecEnum(old(r.Rest()), pool), res, r.Rest())
  {
    hide DecU, DecRef, DecMany;
    var ty :- r.ReadUvarint();
    var name :- DecodeRef(r, pool);
    var variants :- DecodeRefs(r, pool);
    res := Success(EnumDef(ty % POW32, name, variants));
  }

  method DecodeEnums(payload: Option<seq<u8>>, pool: seq<Text>) returns (res: Result<seq<EnumDef>>)
    ensures res == Table(payload, EnumDec(pool))
  {
    hide DecU, DecEnum, ParseMany;
    ghost var p := EnumDec(pool);
    if payload.None? {
      return Success([]);
    }
    var r := new Reader(payload.value);
    var n :- r.ReadUvarint();
    ghost var start := r.Rest();
    var xs: seq<EnumDef> := [];
    ManyStart(p, n, start);
    for i := 0 to n
      invariant fresh(r) && r.Valid() && Prepend(xs, ParseMany(p, n - i, r.Rest())) == ParseMany(p, n, start)
    {
      ParseManyStep(p, n - i, r.Rest(), xs);
      var x :- DecodeEnum(r, pool);
      xs := xs + [x];
    }
    ManyDone(p, xs, r.Rest());
    res := Success(xs);
  }

  method DecodeRow(r: Reader, pool: seq<Text>) returns (res: Result<DispatchEntry>)
    requires r.Valid()
    modifies r
    ensures r.Valid() && Agrees(DecRow(old(r.Rest()), pool), res, r.Rest())
  {
    hide DecU, DecRef;
    var ty :- r.ReadUvarint();
    var selector :- DecodeRef(r, pool);
    var func :- r.ReadUvarint();
    res := Success(DispatchEntry(ty % POW32, selector, func % POW32));
  }

  method DecodeDispatch(payload: Option<seq<u8>>, pool: seq<Text>) returns (res: Result<seq<DispatchEntry>>)
    ensures res == Table(payload, RowDec(pool))
  {
    hide DecU, DecRow, ParseMany;
    ghost var p := RowDec(pool);
    if payload.None? {
      return Success([]);
    }
    var r := new Reader(payload.value);
    var n :- r.ReadUvarint();
    ghost var start := r.Rest();
    var xs: seq<DispatchEntry> := [];
    ManyStart(p, n, start);
    for i := 0 to n
      invariant fresh(r) && r.Valid() && Prepend(xs, ParseMany(p, n - i, r.Rest())) == ParseMany(p, n, start)
    {
      ParseManyStep(p, n - i, r.Rest(), xs);
      var x :- DecodeRow(r, pool);
      xs := xs + [x];
    }
    ManyDone(p, xs, r.Rest());
    res := Success(xs);
  }

  method DecodeFunction(r: Reader, pool: seq<Text>, natives: seq<Text>) returns (res: Result<Function>)
    requires r.Valid()
    modifies r
    ensures r.Valid() && Agrees(DecFunction(old(r.Rest()), pool, natives), res, r.Rest())
  {
    hide DecU, DecInstr, ParseMany;
    ghost var p := InstrDec(pool, natives);
    var paramCount :- r.ReadUvarint();
    var localCount :- r.ReadUvarint();
    var n :- r.ReadUvarint();
    ghost var start := r.Rest();
    var code: seq<Instr> := [];
    ManyStart(p, n, start);
    for i := 0 to n
      invariant r.Valid() && Prepend(code, ParseMany(p, n - i, r.Rest())) == ParseMany(p, n, start)
    {
      ParseManyStep(p, n - i, r.Rest(), code);
      var x :- DecodeInstr(r, pool, natives);
      code := code + [x];
    }
    ManyDone(p, code, r.Rest());
    res := Success(Function([], paramCount % POW16, localCount % POW16, code));
  }

  method DecodeFunctions(payload: Option<seq<u8>>, pool: seq<Text>, natives: seq<Text>)
    returns (res: Result<seq<Function>>)
    ensures res == Table(payload, FunctionDec(pool, natives))
  {
    hide DecU, DecFunction, ParseMany;
    ghost var p := FunctionDec(pool, natives);
    if payload.None? {
      return Success([]);
    }
    var r := new Reader(payload.value);
    var n :- r.ReadUvarint();
    ghost var start := r.Rest();
    var xs: seq<Function> := [];
    ManyStart(p, n, start);
    for i := 0 to n
      invariant fresh(r) && r.Valid() && Prepend(xs, ParseMany(p, n - i, r.Rest())) == ParseMany(p, n, start)
    {
      ParseManyStep(p, n - i, r.Rest(), xs);
      var x :- DecodeFunction(r, pool, natives);
      xs := xs + [x];
    }
    ManyDone(p, xs, r.Rest());
    res := Success(xs);
  }

  lemma SectionStep(bs: seq<u8>, done: seq<Section>)
    requires bs != []
    ensures Prepend(done, DecSections(bs)) ==
      match DecU8(bs)
      case Err(e) => Err(e)
      case Ok(id, rest) =>
        match DecU(rest)
        case Err(e) => Err(e)
        case Ok(n, rest1) =>
          match Take(rest1, n)
          case Err(e) => Err(e)
          case Ok(payload, rest2) => Prepend(done + [Section(id, payload)], DecSections(rest2))
  {
    hide DecU;
    if DecU8(bs).Ok? && DecU(DecU8(bs).rest).Ok? {
      var id, r := DecU8(bs).value, DecU(DecU8(bs).rest);
      if Take(r.rest, r.value).Ok? {
        var t := Take(r.rest, r.value);
        var more := DecSections(t.rest);
        assert more.Ok? ==> done + ([Section(id, t.value)] + more.value) == done + [Section(id, t.value)] + more.value;
      }
    }
  }

  /** The section loop: the last payload of each known id, in whatever order they come. */
  method CollectSections(r: Reader) returns (res: Result<Payloads>)
    requires r.Valid()
    modifies r
    ensures match DecSections(old(r.Rest()))
            case Ok(secs, _) => res == Success(Collect(secs))
            case Err(e) => res == Failure(e)
  {
    hide DecU, DecSections, Keep;
    var p := NO_PAYLOADS;
    ghost var secs: seq<Section> := [];
    ghost var start := r.Rest();
    assert Prepend(secs, DecSections(start)) == DecSections(start) by {
      assert DecSections(start).Ok? ==> [] + DecSections(start).value == DecSections(start).value;
    }
    var empty := r.IsEmpty();
    while !empty
      invariant r.Valid() && empty == (r.Rest() == [])
      invariant p == Collect(secs) && Prepend(secs, DecSections(r.Rest())) == DecSections(start)
      decreases |r.bytes| - r.pos
    {
      SectionStep(r.Rest(), secs);
      var id :- r.ReadU8();
      var n :- r.ReadUvarint();
      var payload :- r.ReadRaw(n);
      p := Keep(p, Section(id, payload));
      assert Init(secs + [Section(id, payload)]) == secs;
      secs := secs + [Section(id, payload)];
      empty := r.IsEmpty();
    }
    assert DecSections([]) == Ok([], []) by { NoSections(); }
    assert secs + [] == secs;
    res := Success(p);
  }

  lemma NoSections()
    ensures DecSections([]) == Ok([], [])
  {
  }

  method DecodeEntry(payload: Option<seq<u8>>) returns (res: Result<(Option<u32>, Option<u32>)>)
    ensures res == DecEntry(payload)
  {
    hide DecU;
    if payload.None? {
      return Success((None, None));
    }
    var r := new Reader(payload.value);
    var entry :- r.ReadUvarint();
    var init :- r.ReadUvarint();
    res := Success((OptIndex(entry), OptIndex(init)));
  }

  method DecodeGlobals(payload: Option<seq<u8>>) returns (res: Result<u32>)
    ensures res == DecGlobals(payload)
  {
    hide DecU;
    if payload.None? {
      return Success(0);
    }
    var r := new Reader(payload.value);
    var n :- r.ReadUvarint();
    res := Success(n % POW32);
  }

  /** Each function takes its symbol, or a placeholder once the symbols run out. */
  method AssignNames(fs: seq<Function>, symbols: seq<Text>) returns (named: seq<Function>)
    ensures named == Named(fs, symbols)
  {
    named := fs;
    for i := 0 to |fs|
      invariant |named| == |fs| && named[..i] == Named(fs, symbols)[..i] && named[i..] == fs[i..]
    {
      named := named[i := named[i].(name := if i < |symbols| then symbols[i] else Placeholder(i))];
    }
  }

  method AssembleModule(p: Payloads, version: nat, natives: seq<Text>) returns (res: Result<Module>)
    ensures res == Assemble(p, version, natives)
  {
    hide Table, DecEntry, DecGlobals, Named, BuildIndex;
    var pool :- DecodeStrings(p.consts);
    var types :- DecodeTypes(p.types, pool, version);
    var functions :- DecodeFunctions(p.functions, pool, natives);
    var symbols :- DecodeStrings(p.symbols);
    functions := AssignNames(functions, symbols);
    var enums :- DecodeEnums(p.enums, pool);
    var dispatch :- DecodeDispatch(p.dispatch, pool);
    var m := SetDispatch(Module(functions, types, enums, [], map[], 0, None, None), dispatch);
    var globalCount :- DecodeGlobals(p.globals);
    var entry :- DecodeEntry(p.entry);
    res := Success(m.(globalCount := globalCount, entry := entry.0, init := entry.1));
  }

  method DecodeModule(bytes: seq<u8>, natives: seq<Text>) returns (res: Result<Module>)
    ensures res == DecModule(bytes, natives)
  {
    hide DecSections, Collect, Assemble, DecLe;
    var r := new Reader(bytes);
    var magic :- r.ReadRaw(|MAGIC|);
    if magic != MAGIC {
      return Failure(BadMagic);
    }
    var version :- r.ReadLe(4);
    if version != 2 && version != 3 {
      return Failure(UnsupportedVersion(version));
    }
    var p :- CollectSections(r);
    res := AssembleModule(p, version, natives);
  }
}
