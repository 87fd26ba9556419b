/**
 The bytecode container (`runtime/src/codec.rs`): what a module is on the wire,
 and what the decoder makes of any bytes.

 Natives are bound by name.  Their table is the parameter `natives`.
 */
module Codec {
  import opened Values
  import opened Bytecode
  import opened Wire

  /** "THERA" */
  const MAGIC: seq<u8> := [84, 72, 69, 82, 65]
  const VERSION: u32 := 3

  /** "main" and "<init>" */
  const MAIN: Text := [109, 97, 105, 110]
  const INIT: Text := [60, 105, 110, 105, 116, 62]

  // ----- string pool -----

  function Intern(pool: seq<Text>, s: Text): seq<Text> {
    if s in pool then pool else pool + [s]
  }

  function InternAll(pool: seq<Text>, ss: seq<Text>): seq<Text> {
    if ss == [] then pool else Intern(InternAll(pool, Init(ss)), Last(ss))
  }

  /** First position of `x`, or the length. */
  function PosIn(xs: seq<Text>, x: Text): (i: nat)
    ensures i <= |xs| && (i < |xs| <==> x in xs) && (i < |xs| ==> xs[i] == x)
  {
    if xs == [] || xs[0] == x then 0 else 1 + PosIn(xs[1..], x)
  }

  function Find(xs: seq<Text>, x: Text): Option<nat> {
    if PosIn(xs, x) < |xs| then Some(PosIn(xs, x)) else None
  }

  /** A pool index on the wire.  The index was kept as a `u32`. */
  function EncRef(s: Text, pool: seq<Text>): seq<u8> { EncU(PosIn(pool, s) % POW32) }

  function DecRef(bs: seq<u8>, pool: seq<Text>): Parsed<Text> {
    var (i, rest) :- DecU(bs);
    if i < |pool| then Ok(pool[i], rest) else Err(ConstIndexOutOfRange)
  }

  // ----- instructions -----

  function Opcode(i: Instr): u8 {
    match i
    case ConstInt(_) => 1 case ConstDouble(_) => 2 case ConstBool(_) => 3 case ConstUnit => 4
    case ConstStr(_) => 5 case Load(_) => 6 case Store(_) => 7 case AddI64 => 8
    case SubI64 => 9 case MulI64 => 10 case DivI64 => 11 case ModI64 => 12
    case NegI64 => 13 case AddF64 => 14 case SubF64 => 15 case MulF64 => 16
    case DivF64 => 17 case NegF64 => 18 case EqI64 => 19 case NeI64 => 20
    case LtI64 => 21 case LeI64 => 22 case GtI64 => 23 case GeI64 => 24
    case EqF64 => 25 case NeF64 => 26 case LtF64 => 27 case LeF64 => 28
    case GtF64 => 29 case GeF64 => 30 case Not => 31 case I64ToF64 => 32
    case F64ToI64 => 33 case Pop => 34 case Dup => 35 case Call(_, _) => 36
    case CallNative(_, _) => 37 case EnumNew(_, _, _) => 38 case EnumTag => 39 case EnumGet(_) => 40
    case ListNew(_) => 41 case Jump(_) => 42 case JumpIfTrue(_) => 43 case JumpIfFalse(_) => 44
    case Return => 45 case StructNew(_) => 46 case FieldGet(_) => 47 case FieldSet(_) => 48
    case ClosureNew(_, _) => 49 case CallIndirect(_) => 50 case CallVirtual(_, _) => 51 case ListGet => 52
    case ListSet => 53 case AndI64 => 54 case OrI64 => 55 case XorI64 => 56
    case BNotI64 => 57 case ShlI64 => 58 case ShrI64 => 59 case UShrI64 => 60
    case ListLen => 61 case GlobalGet(_) => 62 case GlobalSet(_) => 63
  }

  /** Instructions without operands, by opcode. */
  function Plain(op: u8): Option<Instr> {
    match op
    case 4 => Some(ConstUnit) case 8 => Some(AddI64) case 9 => Some(SubI64) case 10 => Some(MulI64)
    case 11 => Some(DivI64) case 12 => Some(ModI64) case 13 => Some(NegI64) case 14 => Some(AddF64)
    case 15 => Some(SubF64) case 16 => Some(MulF64) case 17 => Some(DivF64) case 18 => Some(NegF64)
    case 19 => Some(EqI64) case 20 => Some(NeI64) case 21 => Some(LtI64) case 22 => Some(LeI64)
    case 23 => Some(GtI64) case 24 => Some(GeI64) case 25 => Some(EqF64) case 26 => Some(NeF64)
    case 27 => Some(LtF64) case 28 => Some(LeF64) case 29 => Some(GtF64) case 30 => Some(GeF64)
    case 31 => Some(Not) case 32 => Some(I64ToF64) case 33 => Some(F64ToI64) case 34 => Some(Pop)
    case 35 => Some(Dup) case 39 => Some(EnumTag) case 45 => Some(Return) case 52 => Some(ListGet)
    case 53 => Some(ListSet) case 54 => Some(AndI64) case 55 => Some(OrI64) case 56 => Some(XorI64)
    case 57 => Some(BNotI64) case 58 => Some(ShlI64) case 59 => Some(ShrI64) case 60 => Some(UShrI64)
    case 61 => Some(ListLen)
    case _ => None
  }

  /** Instructions with one unsigned operand, cut to the operand's width. */
  function WithOperand(op: u8, v: nat): Option<Instr> {
    if op == 6 then Some(Load(v % POW16))
    else if op == 7 then Some(Store(v % POW16))
    else if op == 40 then Some(EnumGet(v % POW16))
    else if op == 41 then Some(ListNew(v % POW32))
    else if op == 42 then Some(Jump(v % POW64))
    else if op == 43 then Some(JumpIfTrue(v % POW64))
    else if op == 44 then Some(JumpIfFalse(v % POW64))
    else if op == 46 then Some(StructNew(v % POW32))
    else if op == 47 then Some(FieldGet(v % POW16))
    else if op == 48 then Some(FieldSet(v % POW16))
    else if op == 50 then Some(CallIndirect(v % 256))
    else if op == 62 then Some(GlobalGet(v % POW32))
    else if op == 63 then Some(GlobalSet(v % POW32))
    else None
  }

  /** The operand of such an instruction. */
  function Operand(i: Instr): Option<u64> {
    if i.Load? then Some(i.slot)
    else if i.Store? then Some(i.slot)
    else if i.EnumGet? then Some(i.field)
    else if i.ListNew? then Some(i.count)
    else if i.Jump? then Some(i.target)
    else if i.JumpIfTrue? then Some(i.target)
    else if i.JumpIfFalse? then Some(i.target)
    else if i.StructNew? then Some(i.ty)
    else if i.FieldGet? then Some(i.field)
    else if i.FieldSet? then Some(i.field)
    else if i.CallIndirect? then Some(i.argc)
    else if i.GlobalGet? then Some(i.idx)
    else if i.GlobalSet? then Some(i.idx)
    else None
  }

  function EncOperands(i: Instr, pool: seq<Text>, natives: seq<Text>): seq<u8> {
    if Operand(i).Some? then EncU(Operand(i).value)
    else if i.ConstInt? then EncI(i.n)
    else if i.ConstDouble? then Le(i.bits, 8)
    else if i.ConstBool? then [if i.b then 1 else 0]
    else if i.ConstStr? then EncRef(i.s, pool)
    else if i.Call? then EncU(i.func) + EncU(i.argc)
    else if i.ClosureNew? then EncU(i.func) + EncU(i.captures)
    else if i.EnumNew? then EncU(i.ty) + (EncU(i.variant) + EncU(i.fieldCount))
    else if i.CallVirtual? then EncRef(i.selector, pool) + EncU(i.argc)
    else if i.CallNative? && i.native < |natives| then EncRef(natives[i.native], pool) + EncU(i.argc)
    else []
  }

  function EncInstr(i: Instr, pool: seq<Text>, natives: seq<Text>): seq<u8> {
    [Opcode(i)] + EncOperands(i, pool, natives)
  }

  function DecPair(bs: seq<u8>): Parsed<(nat, nat)> {
    var (a, rest) :- DecU(bs);
    var (b, rest') :- DecU(rest);
    Ok((a, b), rest')
  }

  function DecNative(bs: seq<u8>, pool: seq<Text>, natives: seq<Text>): Parsed<Instr> {
    var (name, rest) :- DecRef(bs, pool);
    var native := Find(natives, name);
    if native.None? then Err(UnknownNative(name))
    else
      var (argc, rest') :- DecU(rest);
      Ok(CallNative(native.value % POW32, argc % 256), rest')
  }

  function DecVirtual(bs: seq<u8>, pool: seq<Text>): Parsed<Instr> {
    var (selector, rest) :- DecRef(bs, pool);
    var (argc, rest') :- DecU(rest);
    Ok(CallVirtual(selector, argc % 256), rest')
  }

  function DecEnumNew(bs: seq<u8>): Parsed<Instr> {
    var (ty, rest) :- DecU(bs);
    var (vf, rest') :- DecPair(rest);
    Ok(EnumNew(ty % POW32, vf.0 % POW16, vf.1 % 256), rest')
  }

  /** The operands of the opcodes that are neither plain nor one number. */
  function DecOperands(op: u8, bs: seq<u8>, pool: seq<Text>, natives: seq<Text>): Parsed<Instr> {
    if op == 1 then
      var (n, rest) :- DecI(bs);
      Ok(ConstInt(n), rest)
    else if op == 2 then
      var (bits, rest) :- DecLe(bs, 8);
      Ok(ConstDouble(bits % POW64), rest)
    else if op == 3 then
      var (b, rest) :- DecU8(bs);
      Ok(ConstBool(b != 0), rest)
    else if op == 5 then
      var (s, rest) :- DecRef(bs, pool);
      Ok(ConstStr(s), rest)
    else if op == 36 then
      var (fa, rest) :- DecPair(bs);
      Ok(Call(fa.0 % POW32, fa.1 % 256), rest)
    else if op == 37 then DecNative(bs, pool, natives)
    else if op == 38 then DecEnumNew(bs)
    else if op == 49 then
      var (fc, rest) :- DecPair(bs);
      Ok(ClosureNew(fc.0 % POW32, fc.1 % 256), rest)
    else if op == 51 then DecVirtual(bs, pool)
    else Err(UnknownOpcode(op))
  }

  function DecInstr(bs: seq<u8>, pool: seq<Text>, natives: seq<Text>): Parsed<Instr> {
    var (op, rest) :- DecU8(bs);
    if Plain(op).Some? then Ok(Plain(op).value, rest)
    else if WithOperand(op, 0).Some? then
      var (v, rest') :- DecU(rest);
      Ok(WithOperand(op, v).value, rest')
    else DecOperands(op, rest, pool, natives)
  }

  // ----- sections -----

  datatype Section = Section(id: u8, payload: seq<u8>)

  const FUNCTIONS: u8 := 1
  const CONSTANTS: u8 := 2
  const TYPES: u8 := 3
  const DISPATCH: u8 := 4
  const GLOBALS: u8 := 5
  const ENTRY: u8 := 6
  const SYMBOLS: u8 := 7
  const ENUMS: u8 := 8

  function EncSection(s: Section): seq<u8> { [s.id] + EncBytes(s.payload) }

  function Frames(secs: seq<Section>): seq<u8> { ConcatMap(EncSection, secs) }

  /** Id and length-prefixed payload, until the input is used up. */
  function DecSections(bs: seq<u8>): Parsed<seq<Section>>
    decreases |bs|
  {
    if bs == [] then Ok([], [])
    else
      var (id, rest) :- DecU8(bs);
      var (n, rest1) :- DecU(rest);
      var (payload, rest2) :- Take(rest1, n);
      var (more, rest3) :- DecSections(rest2);
      Ok([Section(id, payload)] + more, rest3)
  }

  /** The payload kept for each known section id. */
  datatype Payloads = Payloads(
    consts: Option<seq<u8>>, types: Option<seq<u8>>, enums: Option<seq<u8>>, functions: Option<seq<u8>>,
    symbols: Option<seq<u8>>, dispatch: Option<seq<u8>>, globals: Option<seq<u8>>, entry: Option<seq<u8>>)

  const NO_PAYLOADS: Payloads := Payloads(None, None, None, None, None, None, None, None)

  /** A later section of the same id replaces an earlier one; unknown ids are skipped. */
  function Keep(p: Payloads, s: Section): Payloads {
    if s.id == CONSTANTS then p.(consts := Some(s.payload))
    else if s.id == TYPES then p.(types := Some(s.payload))
    else if s.id == ENUMS then p.(enums := Some(s.payload))
    else if s.id == FUNCTIONS then p.(functions := Some(s.payload))
    else if s.id == SYMBOLS then p.(symbols := Some(s.payload))
    else if s.id == DISPATCH then p.(dispatch := Some(s.payload))
    else if s.id == GLOBALS then p.(globals := Some(s.payload))
    else if s.id == ENTRY then p.(entry := Some(s.payload))
    else p
  }

  function Collect(secs: seq<Section>): Payloads {
    if secs == [] then NO_PAYLOADS else Keep(Collect(Init(secs)), Last(secs))
  }

  // ----- section contents -----

  function RefEnc(pool: seq<Text>): Text -> seq<u8> { s => EncRef(s, pool) }
  function RefDec(pool: seq<Text>): seq<u8> -> Parsed<Text> { bs => DecRef(bs, pool) }

  function EncType(t: TypeDef, pool: seq<Text>): seq<u8> {
    EncRef(t.name, pool) + (EncU(t.fieldCount) + EncMany(RefEnc(pool), t.fieldNames))
  }

  /** Version 2 stops at the field count.  Field names, when there are any, decide the count. */
  function DecType(bs: seq<u8>, pool: seq<Text>, version: nat): Parsed<TypeDef> {
    var (name, rest) :- DecRef(bs, pool);
    var (fieldCount, rest1) :- DecU(rest);
    if version < 3 then Ok(TypeDef(name, fieldCount % POW16, []), rest1)
    else
      var (names, rest2) :- DecMany(RefDec(pool), rest1);
      Ok(TypeDef(name, (if names == [] then fieldCount else |names|) % POW16, names), rest2)
  }

  function EncEnum(e: EnumDef, pool: seq<Text>): seq<u8> {
    EncU(e.ty) + (EncRef(e.name, pool) + EncMany(RefEnc(pool), e.variants))
  }

  function DecEnum(bs: seq<u8>, pool: seq<Text>): Parsed<EnumDef> {
    var (ty, rest) :- DecU(bs);
    var (name, rest1) :- DecRef(rest, pool);
    var (variants, rest2) :- DecMany(RefDec(pool), rest1);
    Ok(EnumDef(ty % POW32, name, variants), rest2)
  }

  function EncRow(e: DispatchEntry, pool: seq<Text>): seq<u8> {
    EncU(e.ty) + (EncRef(e.selector, pool) + EncU(e.func))
  }

  function DecRow(bs: seq<u8>, pool: seq<Text>): Parsed<DispatchEntry> {
    var (ty, rest) :- DecU(bs);
    var (selector, rest1) :- DecRef(rest, pool);
    var (func, rest2) :- DecU(rest1);
    Ok(DispatchEntry(ty % POW32, selector, func % POW32), rest2)
  }

  function InstrEnc(pool: seq<Text>, natives: seq<Text>): Instr -> seq<u8> { i => EncInstr(i, pool, natives) }
  function InstrDec(pool: seq<Text>, natives: seq<Text>): seq<u8> -> Parsed<Instr> { bs => DecInstr(bs, pool, natives) }

  /** A function body.  Its name is in the symbols section. */
  function EncFunction(f: Function, pool: seq<Text>, natives: seq<Text>): seq<u8> {
    EncU(f.paramCount) + (EncU(f.localCount) + EncMany(InstrEnc(pool, natives), f.code))
  }

  function DecFunction(bs: seq<u8>, pool: seq<Text>, natives: seq<Text>): Parsed<Function> {
    var (paramCount, rest) :- DecU(bs);
    var (localCount, rest1) :- DecU(rest);
    var (code, rest2) :- DecMany(InstrDec(pool, natives), rest1);
    Ok(Function([], paramCount % POW16, localCount % POW16, code), rest2)
  }

  function TypeEnc(pool: seq<Text>): TypeDef -> seq<u8> { t => EncType(t, pool) }
  function TypeDec(pool: seq<Text>, version: nat): seq<u8> -> Parsed<TypeDef> { bs => DecType(bs, pool, version) }
  function EnumEnc(pool: seq<Text>): EnumDef -> seq<u8> { e => EncEnum(e, pool) }
  function EnumDec(pool: seq<Text>): seq<u8> -> Parsed<EnumDef> { bs => DecEnum(bs, pool) }
  function RowEnc(pool: seq<Text>): DispatchEntry -> seq<u8> { e => EncRow(e, pool) }
  function RowDec(pool: seq<Text>): seq<u8> -> Parsed<DispatchEntry> { bs => DecRow(bs, pool) }
  function FunctionEnc(pool: seq<Text>, natives: seq<Text>): Function -> seq<u8> { f => EncFunction(f, pool, natives) }
  function FunctionDec(pool: seq<Text>, natives: seq<Text>): seq<u8> -> Parsed<Function> {
    bs => DecFunction(bs, pool, natives)
  }

  /** An absent section is an empty table; bytes after the counted items are ignored. */
  function Table<T>(payload: Option<seq<u8>>, p: seq<u8> -> Parsed<T>): Result<seq<T>> {
    match payload
    case None => Success([])
    case Some(bs) => match DecMany(p, bs) case Ok(xs, _) => Success(xs) case Err(e) => Failure(e)
  }

  function Digits(n: nat): Text {
    if n < 10 then [48 + n] else Digits(n / 10) + [48 + n % 10]
  }

  /** "fn#" and the position: the name of a function without a symbol. */
  function Placeholder(i: nat): Text { [102, 110, 35] + Digits(i) }

  function Named(fs: seq<Function>, symbols: seq<Text>): seq<Function> {
    seq(|fs|, i requires 0 <= i < |fs| => fs[i].(name := if i < |symbols| then symbols[i] else Placeholder(i)))
  }

  function DecGlobals(payload: Option<seq<u8>>): Result<u32> {
    match payload
    case None => Success(0)
    case Some(bs) => match DecU(bs) case Ok(n, _) => Success(n % POW32) case Err(e) => Failure(e)
  }

  function OptIndex(raw: nat): Option<u32> { if raw == 0 then None else Some((raw - 1) % POW32) }

  function DecEntry(payload: Option<seq<u8>>): Result<(Option<u32>, Option<u32>)> {
    match payload
    case None => Success((None, None))
    case Some(bs) =>
      match DecPair(bs)
      case Ok(raw, _) => Success((OptIndex(raw.0), OptIndex(raw.1)))
      case Err(e) => Failure(e)
  }

  /** The module the collected payloads describe. */
  function Assemble(p: Payloads, version: nat, natives: seq<Text>): Result<Module> {
    var pool :- Table(p.consts, DecStr);
    var types :- Table(p.types, TypeDec(pool, version));
    var functions :- Table(p.functions, FunctionDec(pool, natives));
    var symbols :- Table(p.symbols, DecStr);
    var enums :- Table(p.enums, EnumDec(pool));
    var dispatch :- Table(p.dispatch, RowDec(pool));
    var globalCount :- DecGlobals(p.globals);
    var entry :- DecEntry(p.entry);
    Success(Module(Named(functions, symbols), types, enums, dispatch, BuildIndex(dispatch),
                   globalCount, entry.0, entry.1))
  }

  function DecModule(bs: seq<u8>, natives: seq<Text>): Result<Module> {
    match Take(bs, |MAGIC|)
    case Err(e) => Failure(e)
    case Ok(magic, rest) =>
      if magic != MAGIC then Failure(BadMagic)
      else
        match DecLe(rest, 4)
        case Err(e) => Failure(e)
        case Ok(version, rest1) =>
          if version != 2 && version != 3 then Failure(UnsupportedVersion(version))
          else
            match DecSections(rest1)
            case Err(e) => Failure(e)
            case Ok(secs, _) => Assemble(Collect(secs), version, natives)
  }

  // ----- encoding a module -----

  function FlatMap<T>(f: T -> seq<Text>, xs: seq<T>): seq<Text> {
    if xs == [] then [] else FlatMap(f, Init(xs)) + f(Last(xs))
  }

  function TypeStrings(t: TypeDef): seq<Text> { [t.name] + t.fieldNames }
  function EnumStrings(e: EnumDef): seq<Text> { [e.name] + e.variants }
  function RowStrings(e: DispatchEntry): seq<Text> { [e.selector] }

  function InstrStrings(natives: seq<Text>): Instr -> seq<Text> {
    (i: Instr) =>
      if i.ConstStr? then [i.s]
      else if i.CallVirtual? then [i.selector]
      else if i.CallNative? && i.native < |natives| then [natives[i.native]]
      else []
  }

  function FunctionStrings(natives: seq<Text>): Function -> seq<Text> {
    (f: Function) => FlatMap(InstrStrings(natives), f.code)
  }

  /** Every string the module's sections refer to, in the order of the first pass. */
  function StringsOf(m: Module, natives: seq<Text>): seq<Text> {
    FlatMap(TypeStrings, m.types) + FlatMap(EnumStrings, m.enums)
    + FlatMap(FunctionStrings(natives), m.functions) + FlatMap(RowStrings, m.dispatch)
  }

  function PoolOf(m: Module, natives: seq<Text>): seq<Text> { InternAll([], StringsOf(m, natives)) }

  function Names(fs: seq<Function>): seq<Text> { seq(|fs|, i requires 0 <= i < |fs| => fs[i].name) }

  /** The index to write: the one set, else the first function of that name. */
  function Resolve(given: Option<u32>, names: seq<Text>, name: Text): Option<u32> {
    if given.Some? then given
    else match Find(names, name) case Some(i) => Some(i % POW32) case None => None
  }

  function RawIndex(i: Option<u32>): nat { if i.Some? then (i.value + 1) % POW32 else 0 }

  function Canonical(m: Module): Module {
    m.(types := seq(|m.types|, i requires 0 <= i < |m.types| => CanonicalType(m.types[i])),
       entry := Resolve(m.entry, Names(m.functions), MAIN),
       init := Resolve(m.init, Names(m.functions), INIT))
  }

  function CanonicalType(t: TypeDef): TypeDef {
    if t.fieldNames == [] then t else t.(fieldCount := |t.fieldNames| % POW16)
  }

  function Optional(present: bool, s: Section): seq<Section> { if present then [s] else [] }

  function EntryPayload(m: Module): seq<u8> {
    EncU(RawIndex(Canonical(m).entry)) + EncU(RawIndex(Canonical(m).init))
  }

  function SectionsOf(m: Module, natives: seq<Text>): seq<Section> {
    var pool := PoolOf(m, natives);
    [Section(CONSTANTS, EncMany(EncBytes, pool)), Section(TYPES, EncMany(TypeEnc(pool), m.types))]
    + Optional(m.enums != [], Section(ENUMS, EncMany(EnumEnc(pool), m.enums)))
    + [Section(FUNCTIONS, EncMany(FunctionEnc(pool, natives), m.functions)),
       Section(SYMBOLS, EncMany(EncBytes, Names(m.functions)))]
    + Optional(m.dispatch != [], Section(DISPATCH, EncMany(RowEnc(pool), m.dispatch)))
    + Optional(m.globalCount > 0, Section(GLOBALS, EncU(m.globalCount)))
    + Optional(Canonical(m).entry.Some? || Canonical(m).init.Some?, Section(ENTRY, EntryPayload(m)))
  }

  function Header(version: u32): seq<u8> { MAGIC + Le(version, 4) }

  function EncModule(m: Module, natives: seq<Text>): seq<u8> {
    Header(VERSION) + Frames(SectionsOf(m, natives))
  }
}
