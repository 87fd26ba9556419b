/**
 The module round trip: `decode_module(encode_module(m))` is `m` with its entry
 points filled in by name and its field counts taken from the field names.
 */
module ModuleRoundTrip {
  import opened Values
  import opened Bytecode
  import opened Wire
  import opened Codec
  import opened CodecRoundTrip

  /** Rust strings are UTF-8 and shorter than the address space. */
  predicate TextOk(s: Text) { ValidUtf8(s) && |s| < POW64 }

  predicate AllText(ss: seq<Text>) { forall i :: 0 <= i < |ss| ==> TextOk(ss[i]) }

  predicate NativesKnown(m: Module, natives: seq<Text>) {
    forall k, i :: 0 <= k < |m.functions| && 0 <= i < |m.functions[k].code| && m.functions[k].code[i].CallNative?
      ==> m.functions[k].code[i].native < |natives|
  }

  /** Every table has a `usize` length. */
  predicate TablesFit(m: Module) {
    && |m.functions| < POW64 && |m.types| < POW64 && |m.enums| < POW64 && |m.dispatch| < POW64
    && (forall i :: 0 <= i < |m.functions| ==> |m.functions[i].code| < POW64)
    && (forall i :: 0 <= i < |m.types| ==> |m.types[i].fieldNames| < POW64)
    && (forall i :: 0 <= i < |m.enums| ==> |m.enums[i].variants| < POW64)
  }

  /**
   The modules the encoder is for: called natives exist (it panics otherwise),
   the dispatch index is in step with the rows, strings are strings, lengths fit
   a machine word and pool indices and entry indices plus one fit 32 bits.
   */
  ghost predicate Encodable(m: Module, natives: seq<Text>) {
    && NativesKnown(m, natives) && NoDup(natives) && IndexOk(m.dispatch, m.index)
    && AllText(StringsOf(m, natives)) && AllText(Names(m.functions))
    && TablesFit(m) && |PoolOf(m, natives)| <= POW32 && Sized(SectionsOf(m, natives))
    && Canonical(m).entry != Some(POW32 - 1) && Canonical(m).init != Some(POW32 - 1)
  }

  lemma {:induction false} FlatMapMember<T>(f: T -> seq<Text>, xs: seq<T>, i: nat, s: Text)
    requires i < |xs| && s in f(xs[i])
    ensures s in FlatMap(f, xs)
  {
    if i == |xs| - 1 {
    } else {
      FlatMapMember(f, Init(xs), i, s);
    }
  }

  // ----- everything the sections refer to is pooled -----

  lemma TypePooled(m: Module, natives: seq<Text>, i: nat)
    requires i < |m.types|
    ensures AllIn(TypeStrings(m.types[i]), PoolOf(m, natives))
  {
    PoolExact(m, natives);
    var ss := TypeStrings(m.types[i]);
    forall k | 0 <= k < |ss| ensures ss[k] in PoolOf(m, natives) {
      FlatMapMember(TypeStrings, m.types, i, ss[k]);
      assert ss[k] in StringsOf(m, natives);
    }
  }

  lemma EnumPooled(m: Module, natives: seq<Text>, i: nat)
    requires i < |m.enums|
    ensures AllIn(EnumStrings(m.enums[i]), PoolOf(m, natives))
  {
    PoolExact(m, natives);
    var ss := EnumStrings(m.enums[i]);
    forall k | 0 <= k < |ss| ensures ss[k] in PoolOf(m, natives) {
      FlatMapMember(EnumStrings, m.enums, i, ss[k]);
      assert ss[k] in StringsOf(m, natives);
    }
  }

  lemma RowPooled(m: Module, natives: seq<Text>, i: nat)
    requires i < |m.dispatch|
    ensures m.dispatch[i].selector in PoolOf(m, natives)
  {
    PoolExact(m, natives);
    assert m.dispatch[i].selector in RowStrings(m.dispatch[i]);
    FlatMapMember(RowStrings, m.dispatch, i, m.dispatch[i].selector);
    assert m.dispatch[i].selector in StringsOf(m, natives);
  }

  lemma InstrPooled(m: Module, natives: seq<Text>, k: nat, i: nat, s: Text)
    requires k < |m.functions| && i < |m.functions[k].code| && s in InstrStrings(natives)(m.functions[k].code[i])
    ensures s in PoolOf(m, natives)
  {
    PoolExact(m, natives);
    FlatMapMember(InstrStrings(natives), m.functions[k].code, i, s);
    FlatMapMember(FunctionStrings(natives), m.functions, k, s);
    assert s in StringsOf(m, natives);
  }

  /** Every pool lookup of the second pass succeeds. */
  lemma LookupsSucceed(m: Module, natives: seq<Text>, k: nat)
    requires k < |m.functions| && NativesKnown(m, natives)
    ensures CodeOk(m.functions[k].code, PoolOf(m, natives), natives)
  {
    hide PoolOf;
    var code := m.functions[k].code;
    forall i | 0 <= i < |code| ensures Pooled(code[i], PoolOf(m, natives), natives) {
      var ss := InstrStrings(natives)(code[i]);
      if ss != [] {
        assert ss[0] in ss;
        InstrPooled(m, natives, k, i, ss[0]);
      }
    }
  }

  // ----- each section -----

  lemma StringTable(ss: seq<Text>)
    requires AllText(ss) && |ss| < POW64
    ensures Table(Some(EncMany(EncBytes, ss)), DecStr) == Success(ss)
  {
    hide EncBytes, DecStr, Table, EncMany, ValidUtf8;
    forall i, more | 0 <= i < |ss| ensures DecStr(EncBytes(ss[i]) + more) == Ok(ss[i], more) {
      StrRoundTrip(ss[i], more);
    }
    TableRoundTrip(EncBytes, DecStr, ss, ss);
  }

  lemma TypeTable(m: Module, natives: seq<Text>)
    requires Encodable(m, natives)
    ensures var pool := PoolOf(m, natives);
            Table(Some(EncMany(TypeEnc(pool), m.types)), TypeDec(pool, VERSION)) == Success(Canonical(m).types)
  {
    hide PoolOf, Table, EncMany, EncType, DecType, AllIn, CanonicalType, StringsOf, SectionsOf, NativesKnown;
    hide IndexOk, AllText;
    var pool := PoolOf(m, natives);
    forall i, more | 0 <= i < |m.types|
      ensures TypeDec(pool, VERSION)(TypeEnc(pool)(m.types[i]) + more) == Ok(Canonical(m).types[i], more) {
      TypePooled(m, natives, i);
      TypeRoundTrip(m.types[i], pool, more);
    }
    TableRoundTrip(TypeEnc(pool), TypeDec(pool, VERSION), m.types, Canonical(m).types);
  }

  lemma EnumTable(m: Module, natives: seq<Text>)
    requires Encodable(m, natives)
    ensures var pool := PoolOf(m, natives);
            Table(Some(EncMany(EnumEnc(pool), m.enums)), EnumDec(pool)) == Success(m.enums)
  {
    hide PoolOf, Table, EncMany, EncEnum, DecEnum, AllIn, StringsOf, SectionsOf, NativesKnown, IndexOk, AllText;
    var pool := PoolOf(m, natives);
    forall i, more | 0 <= i < |m.enums| ensures EnumDec(pool)(EnumEnc(pool)(m.enums[i]) + more) == Ok(m.enums[i], more) {
      EnumPooled(m, natives, i);
      EnumRoundTrip(m.enums[i], pool, more);
    }
    TableRoundTrip(EnumEnc(pool), EnumDec(pool), m.enums, m.enums);
  }

  lemma RowTable(m: Module, natives: seq<Text>)
    requires Encodable(m, natives)
    ensures var pool := PoolOf(m, natives);
            Table(Some(EncMany(RowEnc(pool), m.dispatch)), RowDec(pool)) == Success(m.dispatch)
  {
    hide PoolOf, Table, EncMany, EncRow, DecRow, StringsOf, SectionsOf, NativesKnown, IndexOk, AllText;
    var pool := PoolOf(m, natives);
    forall i, more | 0 <= i < |m.dispatch|
      ensures RowDec(pool)(RowEnc(pool)(m.dispatch[i]) + more) == Ok(m.dispatch[i], more) {
      RowPooled(m, natives, i);
      RowRoundTrip(m.dispatch[i], pool, more);
    }
    TableRoundTrip(RowEnc(pool), RowDec(pool), m.dispatch, m.dispatch);
  }

  /** Functions as the functions section has them, without their names. */
  function Anonymous(fs: seq<Function>): seq<Function> {
    seq(|fs|, i requires 0 <= i < |fs| => fs[i].(name := []))
  }

  lemma FunctionTable(m: Module, natives: seq<Text>)
    requires Encodable(m, natives)
    ensures var pool := PoolOf(m, natives);
            Table(Some(EncMany(FunctionEnc(pool, natives), m.functions)), FunctionDec(pool, natives))
            == Success(Anonymous(m.functions))
  {
    hide PoolOf, Table, EncMany, EncFunction, DecFunction, CodeOk, StringsOf, SectionsOf, NativesKnown, IndexOk;
    hide AllText;
    var pool := PoolOf(m, natives);
    var f, p := FunctionEnc(pool, natives), FunctionDec(pool, natives);
    forall i, more | 0 <= i < |m.functions|
      ensures p(f(m.functions[i]) + more) == Ok(Anonymous(m.functions)[i], more) {
      LookupsSucceed(m, natives, i);
      FunctionRoundTrip(m.functions[i], pool, natives, more);
    }
    TableRoundTrip(f, p, m.functions, Anonymous(m.functions));
  }

  lemma PoolTable(m: Module, natives: seq<Text>)
    requires Encodable(m, natives)
    ensures Table(Some(EncMany(EncBytes, PoolOf(m, natives))), DecStr) == Success(PoolOf(m, natives))
  {
    PoolExact(m, natives);
    hide PoolOf, StringsOf, Table, TextOk;
    var pool := PoolOf(m, natives);
    forall i | 0 <= i < |pool| ensures TextOk(pool[i]) {
      assert pool[i] in StringsOf(m, natives);
    }
    StringTable(pool);
  }

  lemma RenamingRestores(fs: seq<Function>)
    ensures Named(Anonymous(fs), Names(fs)) == fs
  {
  }

  // ----- the whole module -----

  lemma CollectPush(secs: seq<Section>, s: Section)
    ensures Collect(secs + [s]) == Keep(Collect(secs), s)
  {
    assert Init(secs + [s]) == secs;
  }

  lemma CollectOptional(secs: seq<Section>, present: bool, s: Section)
    ensures Collect(secs + Optional(present, s)) == if present then Keep(Collect(secs), s) else Collect(secs)
  {
    if present {
      CollectPush(secs, s);
    } else {
      assert secs + [] == secs;
    }
  }

  function When(present: bool, payload: seq<u8>): Option<seq<u8>> { if present then Some(payload) else None }

  predicate HasEntry(m: Module) { Canonical(m).entry.Some? || Canonical(m).init.Some? }

  function PayloadsOf(m: Module, natives: seq<Text>): Payloads {
    var pool := PoolOf(m, natives);
    Payloads(Some(EncMany(EncBytes, pool)), Some(EncMany(TypeEnc(pool), m.types)),
             When(m.enums != [], EncMany(EnumEnc(pool), m.enums)),
             Some(EncMany(FunctionEnc(pool, natives), m.functions)), Some(EncMany(EncBytes, Names(m.functions))),
             When(m.dispatch != [], EncMany(RowEnc(pool), m.dispatch)),
             When(m.globalCount > 0, EncU(m.globalCount)), When(HasEntry(m), EntryPayload(m)))
  }

  /** The sections always written, with the enums section among them. */
  lemma FrontCollected(
      consts: seq<u8>, types: seq<u8>, hasEnums: bool, enums: seq<u8>, functions: seq<u8>, symbols: seq<u8>)
    ensures Collect([Section(CONSTANTS, consts), Section(TYPES, types)] + Optional(hasEnums, Section(ENUMS, enums))
                    + [Section(FUNCTIONS, functions), Section(SYMBOLS, symbols)])
         == Payloads(Some(consts), Some(types), When(hasEnums, enums), Some(functions), Some(symbols), None, None, None)
  {
    assert Collect([]) == NO_PAYLOADS;
    hide Collect, Optional;
    var a, t := [Section(CONSTANTS, consts)], Section(TYPES, types);
    assert a + [t] == [Section(CONSTANTS, consts), t];
    assert [] + a == a;
    CollectPush([], Section(CONSTANTS, consts));
    CollectPush(a, t);
    CollectOptional(a + [t], hasEnums, Section(ENUMS, enums));
    var b := a + [t] + Optional(hasEnums, Section(ENUMS, enums));
    CollectPush(b, Section(FUNCTIONS, functions));
    var c := b + [Section(FUNCTIONS, functions)];
    CollectPush(c, Section(SYMBOLS, symbols));
    assert b + [Section(FUNCTIONS, functions), Section(SYMBOLS, symbols)] == c + [Section(SYMBOLS, symbols)];
  }

  /** The sections written only when there is something in them. */
  lemma BackCollected(
      front: seq<Section>, hasRows: bool, rows: seq<u8>, hasGlobals: bool, globals: seq<u8>,
      hasEntry: bool, entry: seq<u8>)
    requires var p := Collect(front); p.dispatch.None? && p.globals.None? && p.entry.None?
    ensures Collect(front + Optional(hasRows, Section(DISPATCH, rows)) + Optional(hasGlobals, Section(GLOBALS, globals))
                    + Optional(hasEntry, Section(ENTRY, entry)))
         == Collect(front).(dispatch := When(hasRows, rows), globals := When(hasGlobals, globals),
                            entry := When(hasEntry, entry))
  {
    hide Collect, Optional;
    CollectOptional(front, hasRows, Section(DISPATCH, rows));
    var d := front + Optional(hasRows, Section(DISPATCH, rows));
    CollectOptional(d, hasGlobals, Section(GLOBALS, globals));
    var e := d + Optional(hasGlobals, Section(GLOBALS, globals));
    CollectOptional(e, hasEntry, Section(ENTRY, entry));
  }

  /** Each section the encoder writes is collected into its own place. */
  lemma SectionsCollected(m: Module, natives: seq<Text>)
    ensures Collect(SectionsOf(m, natives)) == PayloadsOf(m, natives)
  {
    hide Collect, Optional, PoolOf, EncMany, EncU, Canonical, EntryPayload;
    var pool := PoolOf(m, natives);
    var consts, types := EncMany(EncBytes, pool), EncMany(TypeEnc(pool), m.types);
    var enums, functions := EncMany(EnumEnc(pool), m.enums), EncMany(FunctionEnc(pool, natives), m.functions);
    var symbols := EncMany(EncBytes, Names(m.functions));
    FrontCollected(consts, types, m.enums != [], enums, functions, symbols);
    var front := [Section(CONSTANTS, consts), Section(TYPES, types)] + Optional(m.enums != [], Section(ENUMS, enums))
                 + [Section(FUNCTIONS, functions), Section(SYMBOLS, symbols)];
    BackCollected(front, m.dispatch != [], EncMany(RowEnc(pool), m.dispatch), m.globalCount > 0, EncU(m.globalCount),
                  HasEntry(m), EntryPayload(m));
  }

  lemma EntryRoundTrip(m: Module, natives: seq<Text>)
    requires Canonical(m).entry != Some(POW32 - 1) && Canonical(m).init != Some(POW32 - 1)
    ensures DecEntry(When(HasEntry(m), EntryPayload(m))) == Success((Canonical(m).entry, Canonical(m).init))
  {
    var entry, init := Canonical(m).entry, Canonical(m).init;
    hide Canonical, EncU, DecPair;
    PairRoundTrip(RawIndex(entry), RawIndex(init), []);
    assert EntryPayload(m) + [] == EntryPayload(m);
    assert OptIndex(RawIndex(entry)) == entry && OptIndex(RawIndex(init)) == init;
  }

  lemma GlobalsRoundTrip(m: Module)
    ensures DecGlobals(When(m.globalCount > 0, EncU(m.globalCount))) == Success(m.globalCount)
  {
    hide EncU, DecU;
    UvarintRoundTrip(m.globalCount, []);
    assert EncU(m.globalCount) + [] == EncU(m.globalCount);
  }

  lemma AssembleRestores(m: Module, natives: seq<Text>)
    requires Encodable(m, natives)
    ensures Assemble(PayloadsOf(m, natives), VERSION, natives) == Success(Canonical(m))
  {
    PoolTable(m, natives);
    TypeTable(m, natives);
    FunctionTable(m, natives);
    StringTable(Names(m.functions));
    EnumTable(m, natives);
    RowTable(m, natives);
    GlobalsRoundTrip(m);
    EntryRoundTrip(m, natives);
    RenamingRestores(m.functions);
    IndexUnique(m.dispatch, m.index);
    hide PoolOf, EncMany, DecMany, EntryPayload, DecEntry, DecGlobals, Named, Anonymous, Names, HasEntry;
    hide BuildIndex, IndexOk, Encodable;
  }

  /**
   Encoding then decoding gives the module back with its entry points resolved
   by name and its field counts taken from its field names.
   */
  lemma {:induction false} ModuleRoundTrip(m: Module, natives: seq<Text>)
    requires Encodable(m, natives)
    ensures DecModule(EncModule(m, natives), natives) == Success(Canonical(m))
  {
    hide Collect, Assemble, DecModule, PayloadsOf, Canonical, Encodable, SectionsOf;
    AssembleRestores(m, natives);
    SectionsCollected(m, natives);
    assert Sized(SectionsOf(m, natives)) by { EncodableSized(m, natives); }
    DecFramed(SectionsOf(m, natives), VERSION, natives);
  }

  lemma EncodableSized(m: Module, natives: seq<Text>)
    requires Encodable(m, natives)
    ensures Sized(SectionsOf(m, natives))
  {
  }

  /** When the resolved module is the module itself. */
  lemma CanonicalExactly(m: Module)
    ensures Canonical(m) == m <==>
      && (m.entry.Some? || MAIN !in Names(m.functions))
      && (m.init.Some? || INIT !in Names(m.functions))
      && (forall i :: 0 <= i < |m.types| ==>
            m.types[i].fieldNames == [] || m.types[i].fieldCount == |m.types[i].fieldNames| % POW16)
  {
    var c, names := Canonical(m), Names(m.functions);
    assert c.entry == m.entry <==> m.entry.Some? || MAIN !in names;
    assert c.init == m.init <==> m.init.Some? || INIT !in names;
    forall i | 0 <= i < |m.types|
      ensures c.types[i] == m.types[i]
         <==> m.types[i].fieldNames == [] || m.types[i].fieldCount == |m.types[i].fieldNames| % POW16 {
    }
    assert c.types == m.types <==> forall i :: 0 <= i < |m.types| ==> c.types[i] == m.types[i];
  }

  /** The round trip is exact just for the modules that leave nothing to resolve. */
  lemma {:induction false} ModuleRoundTripExactly(m: Module, natives: seq<Text>)
    requires Encodable(m, natives)
    ensures DecModule(EncModule(m, natives), natives) == Success(m) <==>
      && (m.entry.Some? || MAIN !in Names(m.functions))
      && (m.init.Some? || INIT !in Names(m.functions))
      && (forall i :: 0 <= i < |m.types| ==>
            m.types[i].fieldNames == [] || m.types[i].fieldCount == |m.types[i].fieldNames| % POW16)
  {
    hide DecModule, EncModule, Encodable, Canonical;
    ModuleRoundTrip(m, natives);
    CanonicalExactly(m);
  }
}
