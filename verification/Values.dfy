/**
 Machine integers, runtime values, heap objects and the trace relation
 (`runtime/src/value.rs`).

 A Rust `String` is its UTF-8 bytes, so text is a byte sequence here and no
 encoding has to be assumed.  A `Double` is its 64-bit IEEE 754 pattern.
 */
module Values {

  const POW16: int := 0x1_0000
  const POW32: int := 0x1_0000_0000
  const POW63: int := 0x8000_0000_0000_0000
  const POW64: int := 0x1_0000_0000_0000_0000

  type u8 = x: int | 0 <= x < 0x100
  type u16 = x: int | 0 <= x < POW16
  type u32 = x: int | 0 <= x < POW32
  type u64 = x: int | 0 <= x < POW64
  type i64 = x: int | -POW63 <= x < POW63

  type Text = seq<u8>

  datatype Option<+T> = None | Some(value: T)

  /** A value on the operand stack or in a local slot. */
  datatype Value =
    | Int(n: i64)
    | Double(bits: u64)
    | Bool(b: bool)
    | Unit
    | Ref(h: nat)

  /** A heap object.  A map is its entries; its hash index is derived state. */
  datatype Obj =
    | StrObj(text: Text)
    | BytesObj(bytes: seq<u8>)
    | BuilderObj(bytes: seq<u8>)
    | ListObj(items: seq<Value>)
    | MapObj(entries: seq<(Value, Value)>)
    | StructObj(ty: u32, fields: seq<Value>)
    | EnumObj(ty: u32, variant: u16, fields: seq<Value>)
    | ClosureObj(func: u32, captures: seq<Value>)

  /** Keys and values of a map's entries, interleaved in order. */
  function Interleaved(entries: seq<(Value, Value)>): (r: seq<Value>)
    ensures |r| == 2 * |entries|
    ensures forall i :: 0 <= i < |entries| ==> r[2 * i] == entries[i].0 && r[2 * i + 1] == entries[i].1
  {
    if entries == [] then []
    else
      var init := Interleaved(entries[..|entries| - 1]);
      var last := entries[|entries| - 1];
      init + [last.0, last.1]
  }

  /** The values the collector follows from an object (`Obj::for_each_child`). */
  function Children(o: Obj): seq<Value> {
    match o
    case StrObj(_) => []
    case BytesObj(_) => []
    case BuilderObj(_) => []
    case ListObj(items) => items
    case MapObj(entries) => Interleaved(entries)
    case StructObj(_, fields) => fields
    case EnumObj(_, _, fields) => fields
    case ClosureObj(_, captures) => captures
  }

  predicate NoDup<T(==)>(s: seq<T>) {
    forall i, j :: 0 <= i < j < |s| ==> s[i] != s[j]
  }

  function Last<T>(s: seq<T>): T
    requires s != []
  {
    s[|s| - 1]
  }

  function Init<T>(s: seq<T>): seq<T>
    requires s != []
  {
    s[..|s| - 1]
  }

  function Units(n: nat): (r: seq<Value>)
    ensures |r| == n && forall i :: 0 <= i < n ==> r[i] == Unit
  {
    seq(n, _ => Unit)
  }

  // Well-known ids of the built-in `Option` enum.
  const TY_OPTION: u32 := 1
  const TAG_SOME: u16 := 0
  const TAG_NONE: u16 := 1

  function SomeObj(v: Value): Obj { EnumObj(TY_OPTION, TAG_SOME, [v]) }
  function NoneObj(): Obj { EnumObj(TY_OPTION, TAG_NONE, []) }
}
