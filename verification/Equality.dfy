/**
 Structural equality through the heap (`values_eq` in `runtime/src/heap.rs`)
 and the content hash that must agree with it (`hash_value` and `hash_obj` in
 `runtime/src/map.rs`).

 Both recurse through handles, so they are defined on values whose reachable
 part of the heap is acyclic.  A `Ranking` witnesses that: it assigns every
 reachable handle a number that drops from an object to its children.
 */
module Equality {
  import opened Values
  import opened Heaps
  import opened HashMaps
  import Wire

  type Ranking = map<nat, nat>

  predicate Grounded(w: Ranking, v: Value) { v.Ref? ==> v.h in w }

  /** One more than the rank of a reference; zero for the rest. */
  function Height(w: Ranking, v: Value): nat {
    if v.Ref? && v.h in w then w[v.h] + 1 else 0
  }

  predicate AllGrounded(w: Ranking, vs: seq<Value>, bound: nat) {
    forall i :: 0 <= i < |vs| ==> Grounded(w, vs[i]) && Height(w, vs[i]) <= bound
  }

  /** Ranked handles are occupied and rank strictly above their children. */
  predicate Ranked(slots: seq<Slot>, w: Ranking) {
    forall k :: k in w ==> k < |slots| && slots[k].Used? && AllGrounded(w, Children(slots[k].obj), w[k])
  }

  // ----- f64 equality on bit patterns (IEEE 754 binary64) -----

  const INFINITY_BITS: u64 := 0x7ff0_0000_0000_0000

  function Magnitude(bits: u64): u64 { if bits >= POW63 then bits - POW63 else bits }

  predicate IsNan(bits: u64) { Magnitude(bits) > INFINITY_BITS }

  predicate IsZero(bits: u64) { Magnitude(bits) == 0 }

  /** NaN equals nothing; the two zeros are equal. */
  predicate FloatEq(x: u64, y: u64) {
    !IsNan(x) && !IsNan(y) && (x == y || (IsZero(x) && IsZero(y)))
  }

  // ----- structural equality -----

  predicate ValuesEq(slots: seq<Slot>, w: Ranking, a: Value, b: Value)
    requires Ranked(slots, w) && Grounded(w, a) && Grounded(w, b)
    decreases Height(w, a), 0, 0
  {
    match a
    case Int(x) => b.Int? && x == b.n
    case Double(x) => b.Double? && FloatEq(x, b.bits)
    case Bool(x) => b.Bool? && x == b.b
    case Unit => b.Unit?
    case Ref(x) => b.Ref? && (x == b.h || ObjsEq(slots, w, slots[x].obj, slots[b.h].obj, w[x], w[b.h]))
  }

  predicate ObjsEq(slots: seq<Slot>, w: Ranking, o: Obj, p: Obj, m: nat, n: nat)
    requires Ranked(slots, w) && AllGrounded(w, Children(o), m) && AllGrounded(w, Children(p), n)
    decreases m, 2, 0
  {
    match o
    case StrObj(s) => p.StrObj? && s == p.text
    case BytesObj(s) => p.BytesObj? && s == p.bytes
    case BuilderObj(s) => p.BuilderObj? && s == p.bytes
    case ListObj(xs) => p.ListObj? && SeqEq(slots, w, xs, p.items, m, n)
    case MapObj(es) => p.MapObj? && SeqEq(slots, w, Interleaved(es), Interleaved(p.entries), m, n)
    case StructObj(ty, xs) => p.StructObj? && ty == p.ty && SeqEq(slots, w, xs, p.fields, m, n)
    case EnumObj(ty, tag, xs) => p.EnumObj? && ty == p.ty && tag == p.variant && SeqEq(slots, w, xs, p.fields, m, n)
    case ClosureObj(f, xs) => p.ClosureObj? && f == p.func && SeqEq(slots, w, xs, p.captures, m, n)
  }

  predicate SeqEq(slots: seq<Slot>, w: Ranking, xs: seq<Value>, ys: seq<Value>, m: nat, n: nat)
    requires Ranked(slots, w) && AllGrounded(w, xs, m) && AllGrounded(w, ys, n)
    decreases m, 1, |xs|
  {
    if xs == [] then ys == []
    else ys != [] && ValuesEq(slots, w, Last(xs), Last(ys)) && SeqEq(slots, w, Init(xs), Init(ys), m, n)
  }

  // ----- the content hash: FNV-1a over a tagged traversal -----

  const FNV_OFFSET: bv64 := 0xcbf2_9ce4_8422_2325
  const FNV_PRIME: bv64 := 0x0000_0100_0000_01b3

  function MixByte(h: bv64, b: u8): bv64 { (h ^ (b as bv64)) * FNV_PRIME }

  function MixBytes(h: bv64, bs: seq<u8>): bv64 {
    if bs == [] then h else MixByte(MixBytes(h, Init(bs)), Last(bs))
  }

  function MixU64(h: bv64, v: u64): bv64 { MixBytes(h, Wire.Le(v, 8)) }

  function AsU64(n: i64): u64 { if n < 0 then n + POW64 else n }

  function HashInto(slots: seq<Slot>, w: Ranking, v: Value, h: bv64): bv64
    requires Ranked(slots, w) && Grounded(w, v)
    decreases Height(w, v), 0, 0
  {
    match v
    case Int(n) => MixU64(MixByte(h, 1), AsU64(n))
    case Double(x) => MixU64(MixByte(h, 2), if IsZero(x) then 0 else x)
    case Bool(b) => MixByte(MixByte(h, 3), if b then 1 else 0)
    case Unit => MixByte(h, 4)
    case Ref(k) => HashObj(slots, w, slots[k].obj, w[k], h)
  }

  function HashObj(slots: seq<Slot>, w: Ranking, o: Obj, m: nat, h: bv64): bv64
    requires Ranked(slots, w) && AllGrounded(w, Children(o), m)
    decreases m, 2, 0
  {
    match o
    case StrObj(s) => MixBytes(MixByte(h, 5), s)
    case BytesObj(s) => MixBytes(MixByte(h, 6), s)
    case BuilderObj(s) => MixBytes(MixByte(h, 6), s)
    case ListObj(xs) => HashSeq(slots, w, xs, m, MixByte(h, 7))
    case MapObj(es) => HashSeq(slots, w, Interleaved(es), m, MixByte(h, 8))
    case StructObj(ty, xs) => HashSeq(slots, w, xs, m, MixU64(MixByte(h, 9), ty))
    case EnumObj(ty, tag, xs) => HashSeq(slots, w, xs, m, MixU64(MixU64(MixByte(h, 10), ty), tag))
    case ClosureObj(f, _) => MixU64(MixByte(h, 11), f)
  }

  function HashSeq(slots: seq<Slot>, w: Ranking, xs: seq<Value>, m: nat, h: bv64): bv64
    requires Ranked(slots, w) && AllGrounded(w, xs, m)
    decreases m, 1, |xs|
  {
    if xs == [] then h else HashInto(slots, w, Last(xs), HashSeq(slots, w, Init(xs), m, h))
  }

  function HashValue(slots: seq<Slot>, w: Ranking, v: Value): u64
    requires Ranked(slots, w) && Grounded(w, v)
  {
    HashInto(slots, w, v, FNV_OFFSET) as u64
  }

  // ----- equality is a partial equivalence -----

  lemma {:induction false} EqSymmetric(slots: seq<Slot>, w: Ranking, a: Value, b: Value)
    requires Ranked(slots, w) && Grounded(w, a) && Grounded(w, b)
    ensures ValuesEq(slots, w, a, b) ==> ValuesEq(slots, w, b, a)
    decreases Height(w, a), 0, 0
  {
    if a.Ref? && b.Ref? {
      ObjsSymmetric(slots, w, slots[a.h].obj, slots[b.h].obj, w[a.h], w[b.h]);
    }
  }

  lemma {:induction false} ObjsSymmetric(slots: seq<Slot>, w: Ranking, o: Obj, p: Obj, m: nat, n: nat)
    requires Ranked(slots, w) && AllGrounded(w, Children(o), m) && AllGrounded(w, Children(p), n)
    ensures ObjsEq(slots, w, o, p, m, n) ==> ObjsEq(slots, w, p, o, n, m)
    decreases m, 2, 0
  {
    SeqSymmetric(slots, w, Children(o), Children(p), m, n);
  }

  lemma {:induction false} SeqSymmetric(slots: seq<Slot>, w: Ranking, xs: seq<Value>, ys: seq<Value>, m: nat, n: nat)
    requires Ranked(slots, w) && AllGrounded(w, xs, m) && AllGrounded(w, ys, n)
    ensures SeqEq(slots, w, xs, ys, m, n) ==> SeqEq(slots, w, ys, xs, n, m)
    decreases m, 1, |xs|
  {
    if xs == [] || ys == [] {
    } else {
      EqSymmetric(slots, w, Last(xs), Last(ys));
      SeqSymmetric(slots, w, Init(xs), Init(ys), m, n);
    }
  }

  lemma {:induction false} EqTransitive(slots: seq<Slot>, w: Ranking, a: Value, b: Value, c: Value)
    requires Ranked(slots, w) && Grounded(w, a) && Grounded(w, b) && Grounded(w, c)
    requires ValuesEq(slots, w, a, b) && ValuesEq(slots, w, b, c)
    ensures ValuesEq(slots, w, a, c)
    decreases Height(w, a), 0, 0
  {
    if a.Ref? && a.h != b.h && b.h != c.h {
      ObjsTransitive(slots, w, slots[a.h].obj, slots[b.h].obj, slots[c.h].obj, w[a.h], w[b.h], w[c.h]);
    }
  }

  lemma {:induction false} ObjsTransitive(slots: seq<Slot>, w: Ranking, o: Obj, p: Obj, q: Obj, l: nat, m: nat, n: nat)
    requires Ranked(slots, w)
    requires AllGrounded(w, Children(o), l) && AllGrounded(w, Children(p), m) && AllGrounded(w, Children(q), n)
    requires ObjsEq(slots, w, o, p, l, m) && ObjsEq(slots, w, p, q, m, n)
    ensures ObjsEq(slots, w, o, q, l, n)
    decreases l, 2, 0
  {
    if o.ListObj? || o.MapObj? || o.StructObj? || o.EnumObj? || o.ClosureObj? {
      SeqTransitive(slots, w, Children(o), Children(p), Children(q), l, m, n);
    }
  }

  lemma {:induction false} SeqTransitive(slots: seq<Slot>, w: Ranking, xs: seq<Value>, ys: seq<Value>, zs: seq<Value>,
                                         l: nat, m: nat, n: nat)
    requires Ranked(slots, w) && AllGrounded(w, xs, l) && AllGrounded(w, ys, m) && AllGrounded(w, zs, n)
    requires SeqEq(slots, w, xs, ys, l, m) && SeqEq(slots, w, ys, zs, m, n)
    ensures SeqEq(slots, w, xs, zs, l, n)
    decreases l, 1, |xs|
  {
    if xs == [] {
    } else {
      EqTransitive(slots, w, Last(xs), Last(ys), Last(zs));
      SeqTransitive(slots, w, Init(xs), Init(ys), Init(zs), l, m, n);
    }
  }

  /** Only a NaN differs from itself: a handle equals itself whatever it holds. */
  lemma EqReflexive(slots: seq<Slot>, w: Ranking, v: Value)
    requires Ranked(slots, w) && Grounded(w, v)
    ensures ValuesEq(slots, w, v, v) <==> !(v.Double? && IsNan(v.bits))
  {
  }

  predicate NoNan(vs: seq<Value>) { forall i :: 0 <= i < |vs| ==> !(vs[i].Double? && IsNan(vs[i].bits)) }

  lemma {:induction false} SeqReflexive(slots: seq<Slot>, w: Ranking, xs: seq<Value>, m: nat, n: nat)
    requires Ranked(slots, w) && AllGrounded(w, xs, m) && AllGrounded(w, xs, n)
    ensures SeqEq(slots, w, xs, xs, m, n) <==> NoNan(xs)
    decreases |xs|
  {
    if xs == [] {
    } else {
      EqReflexive(slots, w, Last(xs));
      SeqReflexive(slots, w, Init(xs), m, n);
      assert NoNan(xs) <==> NoNan(Init(xs)) && !(Last(xs).Double? && IsNan(Last(xs).bits));
    }
  }

  /** Equality looks at contents: a copy in another slot is equal unless it holds a NaN itself. */
  lemma CopiesEqual(slots: seq<Slot>, w: Ranking, a: nat, b: nat)
    requires Ranked(slots, w) && a in w && b in w && a != b && slots[a].obj == slots[b].obj
    ensures ValuesEq(slots, w, Ref(a), Ref(b)) <==> NoNan(Children(slots[a].obj))
  {
    SeqReflexive(slots, w, Children(slots[a].obj), w[a], w[b]);
  }

  // ----- equal values hash alike -----

  /** From any accumulator, structurally equal values mix to the same hash. */
  lemma {:induction false} EqualHashesAlike(slots: seq<Slot>, w: Ranking, a: Value, b: Value, h: bv64)
    requires Ranked(slots, w) && Grounded(w, a) && Grounded(w, b) && ValuesEq(slots, w, a, b)
    ensures HashInto(slots, w, a, h) == HashInto(slots, w, b, h)
    decreases Height(w, a), 0, 0
  {
    if a.Ref? && a.h != b.h {
      ObjsHashAlike(slots, w, slots[a.h].obj, slots[b.h].obj, w[a.h], w[b.h], h);
    }
  }

  lemma {:induction false} ObjsHashAlike(slots: seq<Slot>, w: Ranking, o: Obj, p: Obj, m: nat, n: nat, h: bv64)
    requires Ranked(slots, w) && AllGrounded(w, Children(o), m) && AllGrounded(w, Children(p), n)
    requires ObjsEq(slots, w, o, p, m, n)
    ensures HashObj(slots, w, o, m, h) == HashObj(slots, w, p, n, h)
    decreases m, 2, 0
  {
    hide MixByte, MixBytes, MixU64;
    match o
    case ListObj(xs) => SeqHashAlike(slots, w, xs, p.items, m, n, MixByte(h, 7));
    case MapObj(es) => SeqHashAlike(slots, w, Interleaved(es), Interleaved(p.entries), m, n, MixByte(h, 8));
    case StructObj(ty, xs) => SeqHashAlike(slots, w, xs, p.fields, m, n, MixU64(MixByte(h, 9), ty));
    case EnumObj(ty, tag, xs) =>
      SeqHashAlike(slots, w, xs, p.fields, m, n, MixU64(MixU64(MixByte(h, 10), ty), tag));
    case _ =>
  }

  lemma {:induction false} SeqHashAlike(slots: seq<Slot>, w: Ranking, xs: seq<Value>, ys: seq<Value>,
                                        m: nat, n: nat, h: bv64)
    requires Ranked(slots, w) && AllGrounded(w, xs, m) && AllGrounded(w, ys, n)
    requires SeqEq(slots, w, xs, ys, m, n)
    ensures HashSeq(slots, w, xs, m, h) == HashSeq(slots, w, ys, n, h)
    decreases m, 1, |xs|
  {
    if xs == [] {
    } else {
      SeqHashAlike(slots, w, Init(xs), Init(ys), m, n, h);
      EqualHashesAlike(slots, w, Last(xs), Last(ys), HashSeq(slots, w, Init(xs), m, h));
    }
  }

  // ----- the keys of a runtime map -----

  /** Values of a heap as map keys. */
  function HeapKeys(slots: seq<Slot>, w: Ranking): Keys<Value>
    requires Ranked(slots, w)
  {
    Keys((a: Value, b: Value) => Grounded(w, a) && Grounded(w, b) && ValuesEq(slots, w, a, b),
         (v: Value) => if Grounded(w, v) then HashValue(slots, w, v) else 0)
  }

  /** Structural equality and the content hash satisfy the law the hash map relies on. */
  lemma {:induction false} HeapKeysLawful(slots: seq<Slot>, w: Ranking)
    requires Ranked(slots, w)
    ensures KeyLaw(HeapKeys(slots, w))
  {
    hide ValuesEq, HashInto;
    var ks := HeapKeys(slots, w);
    forall a, b | ks.eq(a, b)
      ensures ks.eq(b, a) && ks.hash(a) == ks.hash(b)
    {
      EqSymmetric(slots, w, a, b);
      EqualHashesAlike(slots, w, a, b, FNV_OFFSET);
    }
    forall a, b, c | ks.eq(a, b) && ks.eq(b, c)
      ensures ks.eq(a, c)
    {
      EqTransitive(slots, w, a, b, c);
    }
  }

  /** A runtime map starts as a valid hash map over structural keys. */
  method NewValueMap(slots: seq<Slot>, w: Ranking) returns (m: HashMap<Value, Value>)
    requires Ranked(slots, w)
    ensures fresh(m) && m.Valid() && m.entries == [] && m.ks == HeapKeys(slots, w)
  {
    HeapKeysLawful(slots, w);
    m := new HashMap(HeapKeys(slots, w));
  }
}
