/**
 The encoder as the source runs it: a first pass that interns strings, then one
 writer per section (`encode_module` and its helpers in `runtime/src/codec.rs`).
 */
module Encoder {
  import opened Values
  import opened Bytecode
  import opened Wire
  import opened Serialize
  import opened Codec
  import opened CodecRoundTrip
  import opened ModuleRoundTrip

  /** Strings in order of first use, and where each one is. */
  class StringPool {
    var strings: seq<Text>
    var index: map<Text, u32>

    ghost predicate Valid()
      reads this
    {
      && NoDup(strings)
      && (forall s :: s in index <==> s in strings)
      && (forall i :: 0 <= i < |strings| ==> index[strings[i]] == i % POW32)
    }

    constructor ()
      ensures Valid() && strings == []
    {
      strings, index := [], map[];
    }

    /** The pool index of a string interned earlier. */
    function At(s: Text): (i: u32)
      requires Valid() && s in strings
      reads this
      ensures i == PosIn(strings, s) % POW32
    {
      assert strings[PosIn(strings, s)] == s;
      index[s]
    }

    method Intern(s: Text) returns (i: u32)
      requires Valid()
      modifies this
      ensures Valid() && strings == Codec.Intern(old(strings), s) && i == PosIn(strings, s) % POW32
    {
      if s in index {
        return At(s);
      }
      i := |strings| % POW32;
      strings := strings + [s];
      index := index[s := i];
    }

    method InternEach(ss: seq<Text>)
      requires Valid()
      modifies this
      ensures Valid() && strings == InternAll(old(strings), ss)
    {
      for i := 0 to |ss|
        invariant Valid() && strings == InternAll(old(strings), ss[..i])
      {
        assert Init(ss[..i + 1]) == ss[..i];
        var _ := Intern(ss[i]);
      }
      assert ss[..|ss|] == ss;
    }
  }

  lemma {:induction false} InternAllAppend(pool: seq<Text>, a: seq<Text>, b: seq<Text>)
    ensures InternAll(pool, a + b) == InternAll(InternAll(pool, a), b)
  {
    if b == [] {
      assert a + b == a;
    } else {
      assert Init(a + b) == a + Init(b);
      assert Last(a + b) == Last(b);
      InternAllAppend(pool, a, Init(b));
    }
  }

  lemma FlatMapStep<T>(pool: seq<Text>, f: T -> seq<Text>, xs: seq<T>, i: nat)
    requires i < |xs|
    ensures InternAll(InternAll(pool, FlatMap(f, xs[..i])), f(xs[i])) == InternAll(pool, FlatMap(f, xs[..i + 1]))
  {
    assert Init(xs[..i + 1]) == xs[..i];
    InternAllAppend(pool, FlatMap(f, xs[..i]), f(xs[i]));
  }

  lemma InternHead(pool: seq<Text>, s: Text, more: seq<Text>)
    ensures InternAll(Codec.Intern(pool, s), more) == InternAll(pool, [s] + more)
  {
    assert InternAll(pool, [s]) == Codec.Intern(pool, s) by {
      assert Init([s]) == [];
    }
    InternAllAppend(pool, [s], more);
  }

  method InternTypes(pool: StringPool, types: seq<TypeDef>)
    requires pool.Valid()
    modifies pool
    ensures pool.Valid() && pool.strings == InternAll(old(pool.strings), FlatMap(TypeStrings, types))
  {
    for i := 0 to |types|
      invariant pool.Valid() && pool.strings == InternAll(old(pool.strings), FlatMap(TypeStrings, types[..i]))
    {
      ghost var before := pool.strings;
      var _ := pool.Intern(types[i].name);
      pool.InternEach(types[i].fieldNames);
      InternHead(before, types[i].name, types[i].fieldNames);
      FlatMapStep(old(pool.strings), TypeStrings, types, i);
    }
    assert types[..|types|] == types;
  }

  method InternEnums(pool: StringPool, enums: seq<EnumDef>)
    requires pool.Valid()
    modifies pool
    ensures pool.Valid() && pool.strings == InternAll(old(pool.strings), FlatMap(EnumStrings, enums))
  {
    for i := 0 to |enums|
      invariant pool.Valid() && pool.strings == InternAll(old(pool.strings), FlatMap(EnumStrings, enums[..i]))
    {
      ghost var before := pool.strings;
      var _ := pool.Intern(enums[i].name);
      pool.InternEach(enums[i].variants);
      InternHead(before, enums[i].name, enums[i].variants);
      FlatMapStep(old(pool.strings), EnumStrings, enums, i);
    }
    assert enums[..|enums|] == enums;
  }

  method InternCode(pool: StringPool, code: seq<Instr>, natives: seq<Text>)
    requires pool.Valid()
    modifies pool
    ensures pool.Valid() && pool.strings == InternAll(old(pool.strings), FlatMap(InstrStrings(natives), code))
  {
    for i := 0 to |code|
      invariant pool.Valid() && pool.strings == InternAll(old(pool.strings), FlatMap(InstrStrings(natives), code[..i]))
    {
      ghost var before := pool.strings;
      var instr := code[i];
      if instr.ConstStr? {
        var _ := pool.Intern(instr.s);
        InternHead(before, instr.s, []);
      } else if instr.CallVirtual? {
        var _ := pool.Intern(instr.selector);
        InternHead(before, instr.selector, []);
      } else if instr.CallNative? && instr.native < |natives| {
        var _ := pool.Intern(natives[instr.native]);
        InternHead(before, natives[instr.native], []);
      }
      assert pool.strings == InternAll(before, InstrStrings(natives)(instr));
      FlatMapStep(old(pool.strings), InstrStrings(natives), code, i);
    }
    assert code[..|code|] == code;
  }

  method InternFunctions(pool: StringPool, fs: seq<Function>, natives: seq<Text>)
    requires pool.Valid()
    modifies pool
    ensures pool.Valid() && pool.strings == InternAll(old(pool.strings), FlatMap(FunctionStrings(natives), fs))
  {
    for i := 0 to |fs|
      invariant pool.Valid() && pool.strings == InternAll(old(pool.strings), FlatMap(FunctionStrings(natives), fs[..i]))
    {
      InternCode(pool, fs[i].code, natives);
      FlatMapStep(old(pool.strings), FunctionStrings(natives), fs, i);
    }
    assert fs[..|fs|] == fs;
  }

  method InternRows(pool: StringPool, rows: seq<DispatchEntry>)
    requires pool.Valid()
    modifies pool
    ensures pool.Valid() && pool.strings == InternAll(old(pool.strings), FlatMap(RowStrings, rows))
  {
    for i := 0 to |rows|
      invariant pool.Valid() && pool.strings == InternAll(old(pool.strings), FlatMap(RowStrings, rows[..i]))
    {
      ghost var before := pool.strings;
      var _ := pool.Intern(rows[i].selector);
      InternHead(before, rows[i].selector, []);
      FlatMapStep(old(pool.strings), RowStrings, rows, i);
    }
    assert rows[..|rows|] == rows;
  }

  /** The first pass. */
  method CollectStrings(m: Module, natives: seq<Text>) returns (pool: StringPool)
    ensures fresh(pool) && pool.Valid() && pool.strings == PoolOf(m, natives)
  {
    pool := new StringPool();
    InternTypes(pool, m.types);
    InternEnums(pool, m.enums);
    InternFunctions(pool, m.functions, natives);
    InternRows(pool, m.dispatch);
    var a, b := FlatMap(TypeStrings, m.types), FlatMap(EnumStrings, m.enums);
    var c, d := FlatMap(FunctionStrings(natives), m.functions), FlatMap(RowStrings, m.dispatch);
    InternAllAppend([], a, b);
    InternAllAppend([], a + b, c);
    InternAllAppend([], a + b + c, d);
  }

  // ----- second pass -----

  method EncodeOperands(w: Writer, i: Instr, pool: StringPool, natives: seq<Text>)
    requires pool.Valid() && Pooled(i, pool.strings, natives)
    modifies w
    ensures w.buf == old(w.buf) + EncOperands(i, pool.strings, natives)
  {
    hide EncU, EncI, PosIn, Operand, Pooled, NoDup;
    if Operand(i).Some? {
      w.WriteUvarint(Operand(i).value);
    } else if i.ConstInt? {
      w.WriteIvarint(i.n);
    } else if i.ConstDouble? {
      w.WriteLe(i.bits, 8);
    } else if i.ConstBool? {
      w.WriteU8(if i.b then 1 else 0);
    } else {
      EncodeCompound(w, i, pool, natives);
    }
  }

  method EncodeCompound(w: Writer, i: Instr, pool: StringPool, natives: seq<Text>)
    requires pool.Valid() && Pooled(i, pool.strings, natives)
    requires Operand(i).None? && !i.ConstInt? && !i.ConstDouble? && !i.ConstBool?
    modifies w
    ensures w.buf == old(w.buf) + EncOperands(i, pool.strings, natives)
  {
    hide EncU, EncI, PosIn, Operand, NoDup;
    if i.ConstStr? {
      w.WriteUvarint(pool.At(i.s));
    } else if i.Call? {
      w.WriteUvarint(i.func);
      w.WriteUvarint(i.argc);
    } else if i.ClosureNew? {
      w.WriteUvarint(i.func);
      w.WriteUvarint(i.captures);
    } else if i.EnumNew? {
      w.WriteUvarint(i.ty);
      w.WriteUvarint(i.variant);
      w.WriteUvarint(i.fieldCount);
    } else if i.CallVirtual? {
      w.WriteUvarint(pool.At(i.selector));
      w.WriteUvarint(i.argc);
    } else if i.CallNative? {
      w.WriteUvarint(pool.At(natives[i.native]));
      w.WriteUvarint(i.argc);
    }
  }

  method EncodeInstr(w: Writer, i: Instr, pool: StringPool, natives: seq<Text>)
    requires pool.Valid() && Pooled(i, pool.strings, natives)
    modifies w
    ensures w.buf == old(w.buf) + EncInstr(i, pool.strings, natives)
  {
    hide Opcode, EncOperands, Pooled;
    w.WriteU8(Opcode(i));
    EncodeOperands(w, i, pool, natives);
  }

  method EncodeRefs(w: Writer, ss: seq<Text>, pool: StringPool)
    requires pool.Valid() && AllIn(ss, pool.strings)
    modifies w
    ensures w.buf == old(w.buf) + EncMany(RefEnc(pool.strings), ss)
  {
    hide EncU, PosIn, NoDup;
    ghost var f := RefEnc(pool.strings);
    w.WriteUvarint(|ss|);
    for i := 0 to |ss|
      invariant w.buf == old(w.buf) + (EncU(|ss|) + ConcatMap(f, ss[..i]))
    {
      w.WriteUvarint(pool.At(ss[i]));
      PushItem(old(w.buf), EncU(|ss|), f, ss, i);
    }
    assert ss[..|ss|] == ss;
  }

  lemma PushItem<T>(a: seq<u8>, b: seq<u8>, f: T -> seq<u8>, xs: seq<T>, i: nat)
    requires i < |xs|
    ensures a + (b + ConcatMap(f, xs[..i])) + f(xs[i]) == a + (b + ConcatMap(f, xs[..i + 1]))
  {
    assert xs[..i + 1] == xs[..i] + [xs[i]];
    ConcatMapPush(f, xs[..i], xs[i]);
  }

  method EncodeStrings(w: Writer, ss: seq<Text>)
    modifies w
    ensures w.buf == old(w.buf) + EncMany(EncBytes, ss)
  {
    hide EncU, EncBytes;
    w.WriteUvarint(|ss|);
    for i := 0 to |ss|
      invariant w.buf == old(w.buf) + (EncU(|ss|) + ConcatMap(EncBytes, ss[..i]))
    {
      w.WriteBytes(ss[i]);
      PushItem(old(w.buf), EncU(|ss|), EncBytes, ss, i);
    }
    assert ss[..|ss|] == ss;
  }

  method EncodeTypes(w: Writer, types: seq<TypeDef>, pool: StringPool)
    requires pool.Valid() && forall i :: 0 <= i < |types| ==> AllIn(TypeStrings(types[i]), pool.strings)
    modifies w
    ensures w.buf == old(w.buf) + EncMany(TypeEnc(pool.strings), types)
  {
    hide EncU, PosIn, NoDup, EncMany;
    ghost var f := TypeEnc(pool.strings);
    w.WriteUvarint(|types|);
    for i := 0 to |types|
      invariant w.buf == old(w.buf) + (EncU(|types|) + ConcatMap(f, types[..i]))
    {
      var t := types[i];
      assert TypeStrings(t)[0] == t.name && TypeStrings(t)[1..] == t.fieldNames;
      ghost var before := w.buf;
      w.WriteUvarint(pool.At(t.name));
      w.WriteUvarint(t.fieldCount);
      EncodeRefs(w, t.fieldNames, pool);
      assert w.buf == before + f(t);
      PushItem(old(w.buf), EncU(|types|), f, types, i);
    }
    assert types[..|types|] == types;
    ManyIs(f, types);
  }

  lemma ManyIs<T>(f: T -> seq<u8>, xs: seq<T>)
    ensures EncMany(f, xs) == EncU(|xs|) + ConcatMap(f, xs)
  {
  }

  method EncodeEnums(w: Writer, enums: seq<EnumDef>, pool: StringPool)
    requires pool.Valid() && forall i :: 0 <= i < |enums| ==> AllIn(EnumStrings(enums[i]), pool.strings)
    modifies w
    ensures w.buf == old(w.buf) + EncMany(EnumEnc(pool.strings), enums)
  {
    hide EncU, PosIn, NoDup, EncMany;
    ghost var f := EnumEnc(pool.strings);
    w.WriteUvarint(|enums|);
    for i := 0 to |enums|
      invariant w.buf == old(w.buf) + (EncU(|enums|) + ConcatMap(f, enums[..i]))
    {
      var e := enums[i];
      assert EnumStrings(e)[0] == e.name && EnumStrings(e)[1..] == e.variants;
      ghost var before := w.buf;
      w.WriteUvarint(e.ty);
      w.WriteUvarint(pool.At(e.name));
      EncodeRefs(w, e.variants, pool);
      assert w.buf == before + f(e);
      PushItem(old(w.buf), EncU(|enums|), f, enums, i);
    }
    assert enums[..|enums|] == enums;
    ManyIs(f, enums);
  }

  method EncodeRows(w: Writer, rows: seq<DispatchEntry>, pool: StringPool)
    requires pool.Valid() && forall i :: 0 <= i < |rows| ==> rows[i].selector in pool.strings
    modifies w
    ensures w.buf == old(w.buf) + EncMany(RowEnc(pool.strings), rows)
  {
    hide EncU, PosIn, NoDup, EncMany;
    ghost var f := RowEnc(pool.strings);
    w.WriteUvarint(|rows|);
    for i := 0 to |rows|
      invariant w.buf == old(w.buf) + (EncU(|rows|) + ConcatMap(f, rows[..i]))
    {
      ghost var before := w.buf;
      w.WriteUvarint(rows[i].ty);
      w.WriteUvarint(pool.At(rows[i].selector));
      w.WriteUvarint(rows[i].func);
      assert w.buf == before + f(rows[i]);
      PushItem(old(w.buf), EncU(|rows|), f, rows, i);
    }
    assert rows[..|rows|] == rows;
    ManyIs(f, rows);
  }

  method EncodeFunction(w: Writer, fn: Function, pool: StringPool, natives: seq<Text>)
    requires pool.Valid() && CodeOk(fn.code, pool.strings, natives)
    modifies w
    ensures w.buf == old(w.buf) + EncFunction(fn, pool.strings, natives)
  {
    hide EncU, EncMany, EncInstr, Pooled;
    ghost var f := InstrEnc(pool.strings, natives);
    w.WriteUvarint(fn.paramCount);
    w.WriteUvarint(fn.localCount);
    ghost var start := w.buf;
    w.WriteUvarint(|fn.code|);
    for i := 0 to |fn.code|
      invariant w.buf == start + (EncU(|fn.code|) + ConcatMap(f, fn.code[..i]))
    {
      EncodeInstr(w, fn.code[i], pool, natives);
      PushItem(start, EncU(|fn.code|), f, fn.code, i);
    }
    assert fn.code[..|fn.code|] == fn.code;
    ManyIs(f, fn.code);
  }

  method EncodeFunctions(w: Writer, fs: seq<Function>, pool: StringPool, natives: seq<Text>)
    requires pool.Valid() && forall i :: 0 <= i < |fs| ==> CodeOk(fs[i].code, pool.strings, natives)
    modifies w
    ensures w.buf == old(w.buf) + EncMany(FunctionEnc(pool.strings, natives), fs)
  {
    hide EncU, EncMany, EncFunction, CodeOk;
    ghost var f := FunctionEnc(pool.strings, natives);
    w.WriteUvarint(|fs|);
    for i := 0 to |fs|
      invariant w.buf == old(w.buf) + (EncU(|fs|) + ConcatMap(f, fs[..i]))
    {
      EncodeFunction(w, fs[i], pool, natives);
      PushItem(old(w.buf), EncU(|fs|), f, fs, i);
    }
    assert fs[..|fs|] == fs;
    ManyIs(f, fs);
  }

  method WriteSection(w: Writer, id: u8, payload: seq<u8>)
    modifies w
    ensures w.buf == old(w.buf) + EncSection(Section(id, payload))
  {
    hide EncU;
    w.WriteU8(id);
    w.WriteUvarint(|payload|);
    w.WriteRaw(payload);
  }

  /** The first function of that name. */
  method FunctionIndex(fs: seq<Function>, name: Text) returns (r: Option<nat>)
    ensures r == Find(Names(fs), name)
    ensures match r
            case Some(i) => i < |fs| && fs[i].name == name && forall j :: 0 <= j < i ==> fs[j].name != name
            case None => forall j :: 0 <= j < |fs| ==> fs[j].name != name
  {
    ghost var names := Names(fs);
    for i := 0 to |fs|
      invariant forall j :: 0 <= j < i ==> fs[j].name != name
    {
      if fs[i].name == name {
        FirstPosition(names, name, i);
        return Some(i);
      }
    }
    assert name !in names;
    r := None;
  }

  lemma {:induction false} FirstPosition(xs: seq<Text>, x: Text, i: nat)
    requires i < |xs| && xs[i] == x && x !in xs[..i]
    ensures PosIn(xs, x) == i
  {
    if i == 0 {
    } else {
      assert xs[0] in xs[..i];
      assert xs[1..][..i - 1] == xs[..i][1..];
      FirstPosition(xs[1..], x, i - 1);
    }
  }

  /** `write_section`, remembering which sections have been written. */
  method PushSection(w: Writer, ghost secs: seq<Section>, id: u8, payload: seq<u8>) returns (ghost more: seq<Section>)
    requires w.buf == Header(VERSION) + Frames(secs)
    modifies w
    ensures more == secs + [Section(id, payload)] && w.buf == Header(VERSION) + Frames(more)
  {
    hide Header, EncSection;
    WriteSection(w, id, payload);
    more := secs + [Section(id, payload)];
    ConcatMapPush(EncSection, secs, Section(id, payload));
  }

  method EncodeEntry(m: Module) returns (payload: Option<seq<u8>>)
    ensures payload == When(HasEntry(m), EntryPayload(m))
  {
    hide EncU, Find, Names;
    var main := FunctionIndex(m.functions, MAIN);
    var thunk := FunctionIndex(m.functions, INIT);
    var entry := if m.entry.Some? then m.entry else if main.Some? then Some(main.value % POW32) else None;
    var init := if m.init.Some? then m.init else if thunk.Some? then Some(thunk.value % POW32) else None;
    assert entry == Canonical(m).entry && init == Canonical(m).init;
    if entry.None? && init.None? {
      return None;
    }
    var e := new Writer();
    e.WriteUvarint(RawIndex(entry));
    e.WriteUvarint(RawIndex(init));
    assert e.buf == EntryPayload(m);
    payload := Some(e.buf);
  }

  /** The payloads of the tables, each written by its own writer. */
  method EncodeTables(m: Module, natives: seq<Text>) returns (
      consts: seq<u8>, types: seq<u8>, enums: seq<u8>, functions: seq<u8>, symbols: seq<u8>, rows: seq<u8>)
    requires NativesKnown(m, natives)
    ensures var pool := PoolOf(m, natives);
      && consts == EncMany(EncBytes, pool) && types == EncMany(TypeEnc(pool), m.types)
      && enums == EncMany(EnumEnc(pool), m.enums) && functions == EncMany(FunctionEnc(pool, natives), m.functions)
      && symbols == EncMany(EncBytes, Names(m.functions)) && rows == EncMany(RowEnc(pool), m.dispatch)
  {
    hide PoolOf, EncMany, AllIn, CodeOk, NativesKnown, NoDup;
    var pool := CollectStrings(m, natives);
    forall i | 0 <= i < |m.types| ensures AllIn(TypeStrings(m.types[i]), pool.strings) {
      TypePooled(m, natives, i);
    }
    forall i | 0 <= i < |m.enums| ensures AllIn(EnumStrings(m.enums[i]), pool.strings) {
      EnumPooled(m, natives, i);
    }
    forall i | 0 <= i < |m.dispatch| ensures m.dispatch[i].selector in pool.strings {
      RowPooled(m, natives, i);
    }
    forall i | 0 <= i < |m.functions| ensures CodeOk(m.functions[i].code, pool.strings, natives) {
      LookupsSucceed(m, natives, i);
    }
    var cw := new Writer();
    var tw := new Writer();
    var ew := new Writer();
    EncodeStrings(cw, pool.strings);
    EncodeTypes(tw, m.types, pool);
    EncodeEnums(ew, m.enums, pool);
    var fw := new Writer();
    var sw := new Writer();
    var dw := new Writer();
    EncodeFunctions(fw, m.functions, pool, natives);
    EncodeStrings(sw, Names(m.functions));
    EncodeRows(dw, m.dispatch, pool);
    return cw.buf, tw.buf, ew.buf, fw.buf, sw.buf, dw.buf;
  }

  /** The whole encoder.  It panics on a native index without a name, and on nothing else. */
  method EncodeModule(m: Module, natives: seq<Text>) returns (bytes: seq<u8>)
    requires NativesKnown(m, natives)
    ensures bytes == EncModule(m, natives)
  {
    hide Header, Frames, EncMany, EncU, Names, PoolOf, NativesKnown, EntryPayload, Canonical;
    var consts, types, enums, functions, symbols, rows := EncodeTables(m, natives);
    var entry := EncodeEntry(m);
    var w := new Writer();
    w.WriteRaw(MAGIC);
    w.WriteLe(VERSION, 4);
    ghost var secs: seq<Section> := [];
    assert w.buf == Header(VERSION) + Frames(secs) by { HeaderBytes(w.buf); }
    secs := PushSection(w, secs, CONSTANTS, consts);
    secs := PushSection(w, secs, TYPES, types);
    assert secs == [Section(CONSTANTS, consts), Section(TYPES, types)];
    if m.enums != [] {
      secs := PushSection(w, secs, ENUMS, enums);
    }
    secs := PushSection(w, secs, FUNCTIONS, functions);
    secs := PushSection(w, secs, SYMBOLS, symbols);
    ghost var front := [Section(CONSTANTS, consts), Section(TYPES, types)]
      + Optional(m.enums != [], Section(ENUMS, enums)) + [Section(FUNCTIONS, functions), Section(SYMBOLS, symbols)];
    assert secs == front;
    bytes := FinishModule(w, m, rows, entry, front);
    assert front + Optional(m.dispatch != [], Section(DISPATCH, rows))
      + Optional(m.globalCount > 0, Section(GLOBALS, EncU(m.globalCount)))
      + Optional(HasEntry(m), Section(ENTRY, EntryPayload(m))) == SectionsOf(m, natives);
  }

  lemma HeaderBytes(buf: seq<u8>)
    requires buf == [] + MAGIC + Le(VERSION, 4)
    ensures buf == Header(VERSION) + Frames([])
  {
    assert [] + MAGIC == MAGIC;
  }

  method FinishModule(w: Writer, m: Module, rows: seq<u8>, entry: Option<seq<u8>>, ghost front: seq<Section>)
    returns (bytes: seq<u8>)
    requires w.buf == Header(VERSION) + Frames(front) && entry == When(HasEntry(m), EntryPayload(m))
    modifies w
    ensures bytes == Header(VERSION) + Frames(
              front + Optional(m.dispatch != [], Section(DISPATCH, rows))
              + Optional(m.globalCount > 0, Section(GLOBALS, EncU(m.globalCount)))
              + Optional(HasEntry(m), Section(ENTRY, EntryPayload(m))))
  {
    hide Header, Frames, EncU, EntryPayload, HasEntry;
    ghost var secs := front;
    if m.dispatch != [] {
      secs := PushSection(w, secs, DISPATCH, rows);
    }
    assert secs == front + Optional(m.dispatch != [], Section(DISPATCH, rows));
    ghost var mid := secs;
    if m.globalCount > 0 {
      var globals := new Writer();
      globals.WriteUvarint(m.globalCount);
      assert globals.buf == EncU(m.globalCount);
      secs := PushSection(w, secs, GLOBALS, globals.buf);
    }
    assert secs == mid + Optional(m.globalCount > 0, Section(GLOBALS, EncU(m.globalCount)));
    ghost var late := secs;
    if entry.Some? {
      secs := PushSection(w, secs, ENTRY, entry.value);
    }
    assert secs == late + Optional(HasEntry(m), Section(ENTRY, EntryPayload(m)));
    bytes := w.buf;
  }
}
