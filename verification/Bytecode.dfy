/**
 Instructions, functions and modules (`runtime/src/instr.rs`,
 `runtime/src/module.rs`), with the virtual-dispatch index.
 */
module Bytecode {
  import opened Values

  datatype Instr =
    | ConstInt(n: i64) | ConstDouble(bits: u64) | ConstBool(b: bool) | ConstUnit | ConstStr(s: Text)
    | Load(slot: u16) | Store(slot: u16) | GlobalGet(idx: u32) | GlobalSet(idx: u32)
    | AddI64 | SubI64 | MulI64 | DivI64 | ModI64 | NegI64
    | AndI64 | OrI64 | XorI64 | BNotI64 | ShlI64 | ShrI64 | UShrI64
    | AddF64 | SubF64 | MulF64 | DivF64 | NegF64
    | EqI64 | NeI64 | LtI64 | LeI64 | GtI64 | GeI64
    | EqF64 | NeF64 | LtF64 | LeF64 | GtF64 | GeF64
    | Not | I64ToF64 | F64ToI64 | Pop | Dup
    | Call(func: u32, argc: u8)
    | CallNative(native: u32, argc: u8)
    | CallIndirect(argc: u8)
    | CallVirtual(selector: Text, argc: u8)
    | EnumNew(ty: u32, variant: u16, fieldCount: u8) | EnumTag | EnumGet(field: u16)
    | StructNew(ty: u32) | FieldGet(field: u16) | FieldSet(field: u16)
    | ListNew(count: u32) | ListGet | ListSet | ListLen
    | ClosureNew(func: u32, captures: u8)
    | Jump(target: u64) | JumpIfTrue(target: u64) | JumpIfFalse(target: u64)
    | Return

  datatype Function = Function(name: Text, paramCount: u16, localCount: u16, code: seq<Instr>)

  datatype TypeDef = TypeDef(name: Text, fieldCount: u16, fieldNames: seq<Text>)

  datatype EnumDef = EnumDef(ty: u32, name: Text, variants: seq<Text>)

  datatype DispatchEntry = DispatchEntry(ty: u32, selector: Text, func: u32)

  datatype Module = Module(
    functions: seq<Function>,
    types: seq<TypeDef>,
    enums: seq<EnumDef>,
    dispatch: seq<DispatchEntry>,
    index: map<u32, seq<nat>>,
    globalCount: u32,
    entry: Option<u32>,
    init: Option<u32>)

  const ENUM_DISPATCH_BASE: u32 := 0x8000_0000

  // ----- the dispatch index -----

  /** Row numbers of type `ty`, in table order. */
  function RowsOf(rows: seq<DispatchEntry>, ty: u32): seq<nat> {
    if rows == [] then []
    else if Last(rows).ty == ty then RowsOf(Init(rows), ty) + [|rows| - 1]
    else RowsOf(Init(rows), ty)
  }

  /** The index maps each type id of the table to its rows, and no other id. */
  ghost predicate IndexOk(rows: seq<DispatchEntry>, index: map<u32, seq<nat>>) {
    forall ty: u32 :: if ty in index then index[ty] == RowsOf(rows, ty) != [] else RowsOf(rows, ty) == []
  }

  /** First row in table order that implements `selector` for `ty`: the flat scan the index replaces. */
  function ScanTarget(rows: seq<DispatchEntry>, ty: u32, selector: Text): Option<u32> {
    if rows == [] then None
    else if rows[0].ty == ty && rows[0].selector == selector then Some(rows[0].func)
    else ScanTarget(rows[1..], ty, selector)
  }

  /** First of the listed rows with the selector. */
  function FindRow(rows: seq<DispatchEntry>, picks: seq<nat>, selector: Text): Option<u32> {
    if picks == [] then None
    else if picks[0] < |rows| && rows[picks[0]].selector == selector then Some(rows[picks[0]].func)
    else FindRow(rows, picks[1..], selector)
  }

  /** The `call.virtual` lookup: one probe on the type id, then that type's own rows. */
  function DispatchTarget(m: Module, ty: u32, selector: Text): Option<u32> {
    if ty in m.index then FindRow(m.dispatch, m.index[ty], selector) else None
  }

  /** The index as a fold over the rows. */
  function BuildIndex(rows: seq<DispatchEntry>): map<u32, seq<nat>> {
    if rows == [] then map[]
    else
      var index, ty := BuildIndex(Init(rows)), Last(rows).ty;
      index[ty := (if ty in index then index[ty] else []) + [|rows| - 1]]
  }

  lemma {:induction false} BuildIndexOk(rows: seq<DispatchEntry>)
    ensures IndexOk(rows, BuildIndex(rows))
  {
    if rows == [] {
    } else {
      BuildIndexOk(Init(rows));
    }
  }

  /** An index that describes the rows is the one built from them. */
  lemma IndexUnique(rows: seq<DispatchEntry>, index: map<u32, seq<nat>>)
    requires IndexOk(rows, index)
    ensures index == BuildIndex(rows)
  {
    BuildIndexOk(rows);
    assert forall ty :: ty in index <==> ty in BuildIndex(rows);
  }

  method SetDispatch(m: Module, rows: seq<DispatchEntry>) returns (r: Module)
    ensures r == m.(dispatch := rows, index := BuildIndex(rows)) && IndexOk(rows, r.index)
  {
    var index: map<u32, seq<nat>> := map[];
    for i := 0 to |rows|
      invariant index == BuildIndex(rows[..i])
    {
      assert Init(rows[..i + 1]) == rows[..i];
      var ty := rows[i].ty;
      index := index[ty := (if ty in index then index[ty] else []) + [i]];
    }
    assert rows[..|rows|] == rows;
    BuildIndexOk(rows);
    r := m.(dispatch := rows, index := index);
  }

  lemma {:induction false} FindRowAppend(rows: seq<DispatchEntry>, a: seq<nat>, b: seq<nat>, selector: Text)
    ensures FindRow(rows, a + b, selector)
         == if FindRow(rows, a, selector).Some? then FindRow(rows, a, selector) else FindRow(rows, b, selector)
  {
    if a == [] {
      assert a + b == b;
    } else {
      assert (a + b)[1..] == a[1..] + b;
      FindRowAppend(rows, a[1..], b, selector);
    }
  }

  lemma {:induction false} FindRowExtend(
      rows: seq<DispatchEntry>, more: seq<DispatchEntry>, picks: seq<nat>, selector: Text)
    requires forall i :: 0 <= i < |picks| ==> picks[i] < |rows|
    ensures FindRow(rows + more, picks, selector) == FindRow(rows, picks, selector)
  {
    if picks == [] {
    } else {
      FindRowExtend(rows, more, picks[1..], selector);
    }
  }

  lemma {:induction false} RowsOfBound(rows: seq<DispatchEntry>, ty: u32)
    ensures forall i :: 0 <= i < |RowsOf(rows, ty)| ==> RowsOf(rows, ty)[i] < |rows|
  {
    if rows == [] {
    } else {
      RowsOfBound(Init(rows), ty);
    }
  }

  lemma {:induction false} ScanAppend(rows: seq<DispatchEntry>, e: DispatchEntry, ty: u32, selector: Text)
    ensures ScanTarget(rows + [e], ty, selector)
         == if ScanTarget(rows, ty, selector).Some? then ScanTarget(rows, ty, selector)
            else if e.ty == ty && e.selector == selector then Some(e.func) else None
  {
    if rows == [] {
    } else {
      assert (rows + [e])[1..] == rows[1..] + [e];
      ScanAppend(rows[1..], e, ty, selector);
    }
  }

  lemma {:induction false} FindRowsOf(rows: seq<DispatchEntry>, ty: u32, selector: Text)
    ensures FindRow(rows, RowsOf(rows, ty), selector) == ScanTarget(rows, ty, selector)
  {
    if rows == [] {
    } else {
      var init, e := Init(rows), Last(rows);
      assert rows == init + [e];
      FindRowsOf(init, ty, selector);
      RowsOfBound(init, ty);
      FindRowExtend(init, [e], RowsOf(init, ty), selector);
      FindRowAppend(rows, RowsOf(init, ty), [|rows| - 1], selector);
      ScanAppend(init, e, ty, selector);
    }
  }

  /** The indexed lookup finds what the flat first-match scan of the table finds. */
  lemma DispatchIsFirstMatch(m: Module, ty: u32, selector: Text)
    requires IndexOk(m.dispatch, m.index)
    ensures DispatchTarget(m, ty, selector) == ScanTarget(m.dispatch, ty, selector)
  {
    FindRowsOf(m.dispatch, ty, selector);
  }
}
