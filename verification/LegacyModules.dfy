/**
 Module files the encoder does not write and the decoder reads: version 2 files,
 where a type is its name and its field count, with no field names, and files
 stripped of their symbols (`decode_module` and `decode_types` in
 `runtime/src/codec.rs`).
 */
module LegacyModules {
  import opened Values
  import opened Bytecode
  import opened Wire
  import opened Codec
  import opened CodecRoundTrip
  import opened ModuleRoundTrip

  function EncOldType(t: TypeDef, pool: seq<Text>): seq<u8> { EncRef(t.name, pool) + EncU(t.fieldCount) }

  function OldTypeEnc(pool: seq<Text>): TypeDef -> seq<u8> { t => EncOldType(t, pool) }

  /** The sections of a version 2 file: those of today with the shorter types section. */
  function OldSections(m: Module, natives: seq<Text>): seq<Section> {
    var secs := SectionsOf(m, natives);
    [secs[0], Section(TYPES, EncMany(OldTypeEnc(PoolOf(m, natives)), m.types))] + secs[2..]
  }

  function EncOldModule(m: Module, natives: seq<Text>): seq<u8> {
    Header(2) + Frames(OldSections(m, natives))
  }

  function Nameless(types: seq<TypeDef>): seq<TypeDef> {
    seq(|types|, i requires 0 <= i < |types| => types[i].(fieldNames := []))
  }

  /** What a version 2 file can say of a module: field counts as given, no field names. */
  function OldForm(m: Module): Module { Canonical(m).(types := Nameless(m.types)) }

  lemma OldTypeRoundTrip(t: TypeDef, pool: seq<Text>, rest: seq<u8>)
    requires t.name in pool && |pool| <= POW32
    ensures DecType(EncOldType(t, pool) + rest, pool, 2) == Ok(t.(fieldNames := []), rest)
  {
    hide EncU, DecU, EncRef, DecRef, DecMany;
    assert EncOldType(t, pool) + rest == EncRef(t.name, pool) + (EncU(t.fieldCount) + rest);
    RefRoundTrip(t.name, pool, EncU(t.fieldCount) + rest);
    UvarintRoundTrip(t.fieldCount, rest);
  }

  lemma OldTypeTable(m: Module, natives: seq<Text>)
    requires Encodable(m, natives)
    ensures var pool := PoolOf(m, natives);
            Table(Some(EncMany(OldTypeEnc(pool), m.types)), TypeDec(pool, 2)) == Success(Nameless(m.types))
  {
    hide PoolOf, Table, EncMany, EncOldType, DecType, StringsOf, SectionsOf, NativesKnown, IndexOk, AllText;
    var pool := PoolOf(m, natives);
    forall i, more | 0 <= i < |m.types|
      ensures TypeDec(pool, 2)(OldTypeEnc(pool)(m.types[i]) + more) == Ok(Nameless(m.types)[i], more) {
      TypePooled(m, natives, i);
      assert TypeStrings(m.types[i])[0] == m.types[i].name;
      OldTypeRoundTrip(m.types[i], pool, more);
    }
    TableRoundTrip(OldTypeEnc(pool), TypeDec(pool, 2), m.types, Nameless(m.types));
  }

  function OldPayloads(m: Module, natives: seq<Text>): Payloads {
    PayloadsOf(m, natives).(types := Some(EncMany(OldTypeEnc(PoolOf(m, natives)), m.types)))
  }

  lemma OldSectionsCollected(m: Module, natives: seq<Text>)
    ensures Collect(OldSections(m, natives)) == OldPayloads(m, natives)
  {
    hide Collect, Optional, PoolOf, EncMany, EncU, Canonical, EntryPayload;
    var pool := PoolOf(m, natives);
    var consts, types := EncMany(EncBytes, pool), EncMany(OldTypeEnc(pool), m.types);
    var enums, functions := EncMany(EnumEnc(pool), m.enums), EncMany(FunctionEnc(pool, natives), m.functions);
    var symbols := EncMany(EncBytes, Names(m.functions));
    var rows := EncMany(RowEnc(pool), m.dispatch);
    FrontCollected(consts, types, m.enums != [], enums, functions, symbols);
    var front := [Section(CONSTANTS, consts), Section(TYPES, types)] + Optional(m.enums != [], Section(ENUMS, enums))
                 + [Section(FUNCTIONS, functions), Section(SYMBOLS, symbols)];
    BackCollected(front, m.dispatch != [], rows, m.globalCount > 0, EncU(m.globalCount), HasEntry(m), EntryPayload(m));
    var back := front + Optional(m.dispatch != [], Section(DISPATCH, rows))
                + Optional(m.globalCount > 0, Section(GLOBALS, EncU(m.globalCount)))
                + Optional(HasEntry(m), Section(ENTRY, EntryPayload(m)));
    OldSectionsForm(m, natives);
    assert back == OldSections(m, natives);
  }

  lemma OldSectionsForm(m: Module, natives: seq<Text>)
    ensures var pool := PoolOf(m, natives);
            OldSections(m, natives)
            == [Section(CONSTANTS, EncMany(EncBytes, pool)), Section(TYPES, EncMany(OldTypeEnc(pool), m.types))]
               + Optional(m.enums != [], Section(ENUMS, EncMany(EnumEnc(pool), m.enums)))
               + [Section(FUNCTIONS, EncMany(FunctionEnc(pool, natives), m.functions)),
                  Section(SYMBOLS, EncMany(EncBytes, Names(m.functions)))]
               + Optional(m.dispatch != [], Section(DISPATCH, EncMany(RowEnc(pool), m.dispatch)))
               + Optional(m.globalCount > 0, Section(GLOBALS, EncU(m.globalCount)))
               + Optional(HasEntry(m), Section(ENTRY, EntryPayload(m)))
  {
    hide Optional, PoolOf, EncMany, EncU, Canonical, EntryPayload, Names;
  }

  lemma SecondSection(m: Module, natives: seq<Text>)
    ensures |SectionsOf(m, natives)| >= 2
    ensures SectionsOf(m, natives)[1] == Section(TYPES, EncMany(TypeEnc(PoolOf(m, natives)), m.types))
  {
    hide Optional, PoolOf, EncMany, EncU, Canonical, EntryPayload, Names;
  }

  lemma {:induction false} ShorterItems<T>(f: T -> seq<u8>, g: T -> seq<u8>, xs: seq<T>)
    requires forall i :: 0 <= i < |xs| ==> |f(xs[i])| <= |g(xs[i])|
    ensures |ConcatMap(f, xs)| <= |ConcatMap(g, xs)|
  {
    if xs == [] {
    } else {
      ShorterItems(f, g, xs[1..]);
    }
  }

  lemma OldSized(m: Module, natives: seq<Text>)
    requires Encodable(m, natives)
    ensures Sized(OldSections(m, natives))
  {
    EncodableSized(m, natives);
    SecondSection(m, natives);
    OldTypesShorter(m.types, PoolOf(m, natives));
    hide Encodable, PoolOf, SectionsOf, EncMany;
    assert |SectionsOf(m, natives)[1].payload| < POW64;
  }

  lemma OldTypesShorter(types: seq<TypeDef>, pool: seq<Text>)
    ensures |EncMany(OldTypeEnc(pool), types)| <= |EncMany(TypeEnc(pool), types)|
  {
    hide EncRef, EncU;
    ShorterItems(OldTypeEnc(pool), TypeEnc(pool), types);
  }

  lemma OldAssembled(m: Module, natives: seq<Text>)
    requires Encodable(m, natives)
    ensures Assemble(OldPayloads(m, natives), 2, natives) == Success(OldForm(m))
  {
    PoolTable(m, natives);
    OldTypeTable(m, natives);
    FunctionTable(m, natives);
    StringTable(Names(m.functions));
    EnumTable(m, natives);
    RowTable(m, natives);
    GlobalsRoundTrip(m);
    EntryRoundTrip(m, natives);
    RenamingRestores(m.functions);
    IndexUnique(m.dispatch, m.index);
    hide PoolOf, EncMany, DecMany, EntryPayload, DecEntry, DecGlobals, Named, Anonymous, Names, HasEntry, Nameless;
    hide BuildIndex, IndexOk, Encodable;
  }

  /**
   A version 2 file decodes to the module it was written for: every type keeps
   its name and field count and has no field names, all else is as in a version 3
   file.
   */
  lemma {:induction false} OldModuleRoundTrip(m: Module, natives: seq<Text>)
    requires Encodable(m, natives)
    ensures DecModule(EncOldModule(m, natives), natives) == Success(OldForm(m))
    ensures DecModule(EncModule(m, natives), natives) == Success(Canonical(m))
    ensures OldForm(m) == Canonical(m).(types := OldForm(m).types) && |OldForm(m).types| == |m.types|
    ensures forall i :: 0 <= i < |m.types| ==>
              OldForm(m).types[i] == TypeDef(m.types[i].name, m.types[i].fieldCount, [])
  {
    hide Collect, Assemble, DecModule, OldPayloads, Encodable, OldSections, SectionsOf, EncModule;
    OldAssembled(m, natives);
    OldSectionsCollected(m, natives);
    OldSized(m, natives);
    DecFramed(OldSections(m, natives), 2, natives);
    ModuleRoundTrip.ModuleRoundTrip(m, natives);
  }

  // ----- files without symbols -----

  function WithoutSymbols(secs: seq<Section>): seq<Section> {
    if secs == [] then []
    else WithoutSymbols(Init(secs)) + Optional(Last(secs).id != SYMBOLS, Last(secs))
  }

  lemma {:induction false} StrippedCollected(secs: seq<Section>)
    ensures Collect(WithoutSymbols(secs)) == Collect(secs).(symbols := None)
  {
    if secs == [] {
    } else {
      hide Keep, Collect, Optional;
      StrippedCollected(Init(secs));
      CollectOptional(WithoutSymbols(Init(secs)), Last(secs).id != SYMBOLS, Last(secs));
      KeepsSymbolsApart(Collect(Init(secs)), Last(secs));
      assert Init(secs) + [Last(secs)] == secs;
      CollectPush(Init(secs), Last(secs));
    }
  }

  lemma {:induction false} StrippedSized(secs: seq<Section>)
    requires Sized(secs)
    ensures Sized(WithoutSymbols(secs))
  {
    if secs == [] {
    } else {
      StrippedSized(Init(secs));
    }
  }

  lemma KeepsSymbolsApart(p: Payloads, s: Section)
    ensures Keep(p, s).(symbols := None)
         == if s.id == SYMBOLS then p.(symbols := None) else Keep(p.(symbols := None), s)
  {
  }

  lemma StrippedAssembled(p: Payloads, version: nat, natives: seq<Text>)
    requires Assemble(p, version, natives).Success?
    ensures var m := Assemble(p, version, natives).value;
            Assemble(p.(symbols := None), version, natives) == Success(m.(functions := Named(m.functions, [])))
  {
    hide DecMany, DecEntry, DecGlobals, BuildIndex, Digits;
    var m := Assemble(p, version, natives).value;
    var pool := Table(p.consts, DecStr).value;
    var fs := Table(p.functions, FunctionDec(pool, natives)).value;
    assert Named(m.functions, []) == Named(fs, []);
  }

  /** Without its symbols a file decodes to the same module, its functions called by their positions. */
  lemma StrippedDecodes(secs: seq<Section>, version: u32, natives: seq<Text>)
    requires Sized(secs) && (version == 2 || version == 3)
    requires DecModule(Header(version) + Frames(secs), natives).Success?
    ensures var m := DecModule(Header(version) + Frames(secs), natives).value;
            DecModule(Header(version) + Frames(WithoutSymbols(secs)), natives)
            == Success(m.(functions := Named(m.functions, [])))
  {
    hide DecModule, Assemble, Collect, WithoutSymbols, Named;
    StrippedCollected(secs);
    StrippedSized(secs);
    DecFramed(secs, version, natives);
    DecFramed(WithoutSymbols(secs), version, natives);
    StrippedAssembled(Collect(secs), version, natives);
  }

  /** The number a decimal numeral stands for. */
  function Numeral(ds: Text): nat
    requires forall i :: 0 <= i < |ds| ==> 48 <= ds[i] <= 57
  {
    if ds == [] then 0 else 10 * Numeral(Init(ds)) + (Last(ds) - 48)
  }

  lemma {:induction false} DigitsAreNumeral(n: nat)
    ensures forall i :: 0 <= i < |Digits(n)| ==> 48 <= Digits(n)[i] <= 57
    ensures Numeral(Digits(n)) == n
    decreases n
  {
    if n < 10 {
      assert Numeral([]) == 0 && Init([48 + n]) == [];
    } else {
      DigitsAreNumeral(n / 10);
      assert Init(Digits(n)) == Digits(n / 10);
    }
  }

  /** A placeholder is "fn#" and the decimal position, so no two functions share one. */
  lemma PlaceholdersDiffer(i: nat, j: nat)
    ensures Placeholder(i)[..3] == [102, 110, 35]
    ensures Placeholder(i) == Placeholder(j) <==> i == j
  {
    DigitsAreNumeral(i);
    DigitsAreNumeral(j);
    assert Placeholder(i)[3..] == Digits(i) && Placeholder(j)[3..] == Digits(j);
  }
}
