/**
 The slab heap and its mark-sweep collector (`runtime/src/heap.rs`).

 `HeapState` is the heap as a value: the slab, the free list, the byte
 accounting, the pending/paused flags and the two permanent root sets.  An
 object's `bytes` is its `heap_bytes()` estimate, which depends on allocator
 capacities and is therefore an input.  `class Heap` updates the same fields in
 place and is proved against the functions on `HeapState`.
 */
module Heaps {
  import opened Values

  const MIN_GC_BYTES: nat := 0x10_0000

  datatype Slot = Free | Used(obj: Obj, bytes: nat)

  datatype HeapState = HeapState(
    slots: seq<Slot>,
    free: seq<nat>,
    heapBytes: nat,
    nextGc: nat,
    pending: bool,
    paused: nat,
    maxHeap: nat,
    intern: map<Text, Value>,
    globals: seq<Value>)

  /** A value that names an occupied slot, or no slot at all. */
  predicate Live(slots: seq<Slot>, v: Value) {
    v.Ref? ==> v.h < |slots| && slots[v.h].Used?
  }

  predicate AllLive(slots: seq<Slot>, vs: seq<Value>) {
    forall i :: 0 <= i < |vs| ==> Live(slots, vs[i])
  }

  /** Every child of every occupied slot is live. */
  predicate SlabClosed(slots: seq<Slot>) {
    forall k :: 0 <= k < |slots| && slots[k].Used? ==> AllLive(slots, Children(slots[k].obj))
  }

  /** The free list is duplicate-free and names exactly the empty slots. */
  ghost predicate FreeListOk(h: HeapState) {
    NoDup(h.free) && forall k: nat :: k in h.free <==> k < |h.slots| && h.slots[k].Free?
  }

  /** Slots below both bounds that were occupied stay occupied. */
  predicate KeepsLive(a: seq<Slot>, b: seq<Slot>) {
    |a| <= |b| && forall k :: 0 <= k < |a| && a[k].Used? ==> b[k].Used?
  }

  lemma KeepsLiveAll(a: seq<Slot>, b: seq<Slot>, vs: seq<Value>)
    requires KeepsLive(a, b) && AllLive(a, vs)
    ensures AllLive(b, vs)
  {
  }

  // ----- allocation -----

  function AllocState(h: HeapState, obj: Obj, bytes: nat): HeapState {
    var total := h.heapBytes + bytes;
    var h1 := h.(heapBytes := total,
                 pending := h.pending || total >= h.nextGc || total >= h.maxHeap);
    if h.free != [] && Last(h.free) < |h.slots| then
      h1.(slots := h.slots[Last(h.free) := Used(obj, bytes)], free := Init(h.free))
    else
      h1.(slots := h.slots + [Used(obj, bytes)])
  }

  /** The handle `AllocState` hands out. */
  function AllocHandle(h: HeapState): nat {
    if h.free != [] && Last(h.free) < |h.slots| then Last(h.free) else |h.slots|
  }

  /** Allocation returns an empty slot, disturbs no occupied one and keeps the free list exact. */
  lemma AllocCorrect(h: HeapState, obj: Obj, bytes: nat)
    requires FreeListOk(h)
    ensures var h' := AllocState(h, obj, bytes);
            var k := AllocHandle(h);
            && FreeListOk(h')
            && (k < |h.slots| ==> h.slots[k].Free?)
            && k < |h'.slots| && h'.slots[k] == Used(obj, bytes)
            && KeepsLive(h.slots, h'.slots)
            && (forall j :: 0 <= j < |h.slots| && j != k ==> h'.slots[j] == h.slots[j])
            && (|h'.slots| == |h.slots| || (k == |h.slots| && |h'.slots| == k + 1))
  {
    var h' := AllocState(h, obj, bytes);
    if h.free != [] {
      var k := Last(h.free);
      assert k in h.free;
      forall j: nat
        ensures j in h'.free <==> j < |h'.slots| && h'.slots[j].Free?
      {
        if j in h'.free {
          var i :| 0 <= i < |h'.free| && h'.free[i] == j;
          assert h.free[i] == j && h.free[|h.free| - 1] == k;
          assert j in h.free && j != k;
        }
        if j < |h'.slots| && h'.slots[j].Free? {
          assert j in h.free;
          var i :| 0 <= i < |h.free| && h.free[i] == j;
          assert h'.free[i] == j;
        }
      }
    }
  }

  /** Allocation of an object whose children are live keeps the slab closed. */
  lemma AllocKeepsClosed(h: HeapState, obj: Obj, bytes: nat)
    requires FreeListOk(h) && SlabClosed(h.slots) && AllLive(h.slots, Children(obj))
    ensures SlabClosed(AllocState(h, obj, bytes).slots)
  {
    AllocCorrect(h, obj, bytes);
    var h' := AllocState(h, obj, bytes);
    forall k | 0 <= k < |h'.slots| && h'.slots[k].Used?
      ensures AllLive(h'.slots, Children(h'.slots[k].obj))
    {
      if k == AllocHandle(h) {
        KeepsLiveAll(h.slots, h'.slots, Children(obj));
      } else {
        KeepsLiveAll(h.slots, h'.slots, Children(h.slots[k].obj));
      }
    }
  }

  // ----- reachability -----

  /** Occupied slot `a` holds a reference to `b`. */
  predicate Points(slots: seq<Slot>, a: nat, b: nat) {
    a < |slots| && slots[a].Used? && Ref(b) in Children(slots[a].obj)
  }

  ghost predicate Path(slots: seq<Slot>, p: seq<nat>) {
    forall i :: 0 < i < |p| ==> Points(slots, p[i - 1], p[i])
  }

  ghost predicate PathFrom(slots: seq<Slot>, roots: set<Value>, p: seq<nat>, x: nat) {
    p != [] && Ref(p[0]) in roots && Last(p) == x && Path(slots, p)
  }

  /** `x` can be reached from some root through occupied slots. */
  ghost predicate Reachable(slots: seq<Slot>, roots: set<Value>, x: nat) {
    exists p :: PathFrom(slots, roots, p, x)
  }

  lemma ReachableRoot(slots: seq<Slot>, roots: set<Value>, x: nat)
    requires Ref(x) in roots
    ensures Reachable(slots, roots, x)
  {
    assert PathFrom(slots, roots, [x], x);
  }

  lemma ReachableStep(slots: seq<Slot>, roots: set<Value>, a: nat, b: nat)
    requires Reachable(slots, roots, a) && Points(slots, a, b)
    ensures Reachable(slots, roots, b)
  {
    var p :| PathFrom(slots, roots, p, a);
    assert PathFrom(slots, roots, p + [b], b);
  }

  /** A set that holds the roots and is closed under `Points` holds everything reachable. */
  lemma {:induction false} ClosedSetCovers(slots: seq<Slot>, roots: set<Value>, s: iset<nat>, p: seq<nat>, x: nat)
    requires forall k: nat :: Ref(k) in roots ==> k in s
    requires forall a: nat, b: nat :: a in s && Points(slots, a, b) ==> b in s
    requires PathFrom(slots, roots, p, x)
    ensures x in s
    decreases |p|
  {
    if |p| == 1 {
    } else {
      var q := Init(p);
      assert PathFrom(slots, roots, q, Last(q));
      ClosedSetCovers(slots, roots, s, q, Last(q));
      assert Points(slots, p[|p| - 2], p[|p| - 1]);
    }
  }

  // ----- collection -----

  function ValueSet(vs: seq<Value>): set<Value> { set v | v in vs }

  /** Explicit roots plus the permanent ones: interned constants and globals. */
  function AllRoots(h: HeapState, roots: seq<Value>): set<Value> {
    ValueSet(roots) + h.intern.Values + ValueSet(h.globals)
  }

  /** References in `vs` index the slab (`marked[h]` would panic otherwise). */
  predicate InRange(n: nat, vs: set<Value>) {
    forall v :: v in vs && v.Ref? ==> v.h < n
  }

  predicate SlabInRange(slots: seq<Slot>) {
    forall k :: 0 <= k < |slots| && slots[k].Used? ==> InRange(|slots|, ValueSet(Children(slots[k].obj)))
  }

  /** Bytes held by the occupied slots of `keep` among the first `n`. */
  ghost function BytesOf(slots: seq<Slot>, keep: set<nat>, n: nat): nat
    requires n <= |slots|
  {
    if n == 0 then 0
    else BytesOf(slots, keep, n - 1) + (if n - 1 in keep && slots[n - 1].Used? then slots[n - 1].bytes else 0)
  }

  lemma BytesOfInsert(slots: seq<Slot>, keep: set<nat>, k: nat, n: nat)
    requires n <= |slots| && k !in keep && k < |slots|
    ensures BytesOf(slots, keep + {k}, n)
         == BytesOf(slots, keep, n) + (if k < n && slots[k].Used? then slots[k].bytes else 0)
  {
  }

  lemma BytesOfNone(slots: seq<Slot>, n: nat)
    requires n <= |slots|
    ensures BytesOf(slots, {}, n) == 0
  {
  }

  lemma BytesOfAgree(a: seq<Slot>, ka: set<nat>, b: seq<Slot>, kb: set<nat>, n: nat)
    requires n <= |a| && n <= |b|
    requires forall k :: 0 <= k < n ==> (k in ka && a[k].Used? <==> k in kb && b[k].Used?)
    requires forall k :: 0 <= k < n && a[k].Used? && b[k].Used? ==> a[k].bytes == b[k].bytes
    ensures BytesOf(a, ka, n) == BytesOf(b, kb, n)
  {
  }

  /** Total bytes of all occupied slots. */
  ghost function TotalBytes(slots: seq<Slot>): nat {
    BytesOf(slots, set k: nat | k < |slots| && slots[k].Used?, |slots|)
  }

  /** Retargeted threshold: twice the survivors, four times after a poor collection. */
  function NextThreshold(heapBytes: nat, live: nat, floor: nat): (r: nat)
    ensures r >= floor && r >= 2 * live
    ensures r == floor || r == 2 * live || r == 4 * live
    // four times exactly when more than three quarters survived
    ensures heapBytes > 0 && 4 * live > 3 * heapBytes ==> r >= 4 * live
    ensures r > floor && r == 4 * live ==> heapBytes > 0 && 4 * live > 3 * heapBytes
  {
    var reclaimed := if heapBytes >= live then heapBytes - live else 0;
    var target := if heapBytes > 0 && reclaimed * 4 < heapBytes then 4 * live else 2 * live;
    if target >= floor then target else floor
  }

  /** The slab after a sweep that keeps exactly the reachable objects. */
  ghost function SweptSlots(slots: seq<Slot>, roots: set<Value>): (r: seq<Slot>)
    ensures |r| == |slots|
    ensures forall k :: 0 <= k < |slots| ==>
                          r[k] == (if slots[k].Used? && Reachable(slots, roots, k) then slots[k] else Free)
  {
    seq(|slots|, k requires 0 <= k < |slots| =>
        if slots[k].Used? && Reachable(slots, roots, k) then slots[k] else Free)
  }

  /** Indices below `n` freed by a sweep from `before` to `after`, ascending. */
  function Freed(before: seq<Slot>, after: seq<Slot>, n: nat): seq<nat>
    requires n <= |before| && n <= |after|
  {
    if n == 0 then []
    else Freed(before, after, n - 1) + (if before[n - 1].Used? && after[n - 1].Free? then [n - 1] else [])
  }

  ghost function Collected(h: HeapState, roots: seq<Value>): HeapState {
    var slots := SweptSlots(h.slots, AllRoots(h, roots));
    var live := TotalBytes(slots);
    h.(slots := slots,
       free := h.free + Freed(h.slots, slots, |slots|),
       nextGc := NextThreshold(h.heapBytes, live, MIN_GC_BYTES),
       heapBytes := live,
       pending := false)
  }

  lemma {:induction false} FreedMembers(before: seq<Slot>, after: seq<Slot>, n: nat)
    requires n <= |before| && n <= |after|
    ensures forall k :: k in Freed(before, after, n) <==> 0 <= k < n && before[k].Used? && after[k].Free?
    ensures NoDup(Freed(before, after, n))
  {
    if n == 0 {
    } else {
      FreedMembers(before, after, n - 1);
    }
  }

  /**
   Collection is exact: a slot is occupied afterwards iff it was occupied and
   reachable, survivors keep their handle and contents, the free list is again
   exactly the empty slots, and the byte account is the survivors' total.
   */
  lemma CollectionExact(h: HeapState, roots: seq<Value>)
    requires FreeListOk(h)
    ensures var h' := Collected(h, roots);
            && |h'.slots| == |h.slots|
            && (forall k :: 0 <= k < |h.slots| ==>
                  (h'.slots[k].Used? <==> h.slots[k].Used? && Reachable(h.slots, AllRoots(h, roots), k)))
            && (forall k :: 0 <= k < |h.slots| && h'.slots[k].Used? ==> h'.slots[k] == h.slots[k])
            && FreeListOk(h')
            && h'.heapBytes == TotalBytes(h'.slots)
            && h'.nextGc >= 2 * h'.heapBytes && h'.nextGc >= MIN_GC_BYTES
  {
    var h' := Collected(h, roots);
    FreedMembers(h.slots, h'.slots, |h'.slots|);
    var swept := Freed(h.slots, h'.slots, |h'.slots|);
    assert h'.free == h.free + swept;
    forall i, j | 0 <= i < j < |h'.free|
      ensures h'.free[i] != h'.free[j]
    {
      if i < |h.free| <= j {
        assert h'.free[i] in h.free && h'.free[j] in swept;
      }
    }
  }

  /** What a collection leaves standing is closed, and every root stays live. */
  lemma CollectionKeepsHandles(h: HeapState, roots: seq<Value>, v: Value)
    requires SlabClosed(h.slots)
    ensures SlabClosed(Collected(h, roots).slots)
    ensures v in AllRoots(h, roots) && Live(h.slots, v) ==> Live(Collected(h, roots).slots, v)
  {
    var rs := AllRoots(h, roots);
    var slots' := Collected(h, roots).slots;
    forall k | 0 <= k < |slots'| && slots'[k].Used?
      ensures AllLive(slots', Children(slots'[k].obj))
    {
      var cs := Children(slots'[k].obj);
      forall i | 0 <= i < |cs|
        ensures Live(slots', cs[i])
      {
        if cs[i].Ref? {
          assert Points(h.slots, k, cs[i].h);
          ReachableStep(h.slots, rs, k, cs[i].h);
          assert Live(h.slots, cs[i]);
        }
      }
    }
    if v in rs && v.Ref? {
      ReachableRoot(h.slots, rs, v.h);
    }
  }

  // ----- the heap updated in place -----

  /** Handles marked in the bitmap. */
  ghost function MarkSet(m: seq<bool>): set<nat> {
    set k: nat | k < |m| && m[k]
  }

  /** The queue holds marked slots, once each. */
  ghost predicate QueueOk(m: seq<bool>, w: seq<nat>) {
    NoDup(w) && forall k: nat :: k in w ==> k < |m| && m[k]
  }

  /** Marking `vs` turned `m0` into `m` and queued exactly the newly marked slots. */
  ghost predicate Greyed(m0: seq<bool>, w0: seq<nat>, m: seq<bool>, w: seq<nat>, vs: set<Value>) {
    && |m| == |m0|
    && (forall k: nat :: k < |m| ==> (m[k] <==> m0[k] || Ref(k) in vs))
    && (forall k: nat :: k in w <==> k in w0 || (k < |m| && m[k] && !m0[k]))
  }

  /**
   The tri-colour invariant: marked slots are reachable and either finished or
   queued, and finished slots have only marked children.
   */
  ghost predicate Tracing(slots: seq<Slot>, roots: set<Value>, m: seq<bool>, w: seq<nat>, done: set<nat>) {
    && |m| == |slots| && QueueOk(m, w)
    && (forall k: nat :: k in done ==> k < |m| && m[k] && k !in w)
    && (forall k: nat :: k < |m| && m[k] ==> k in done || k in w)
    && (forall k: nat :: k < |m| && m[k] ==> Reachable(slots, roots, k))
    && (forall k: nat :: Ref(k) in roots ==> k < |m| && m[k])
    && (forall a: nat, b: nat :: a in done && Points(slots, a, b) ==> b < |m| && m[b])
  }

  lemma GreyedTrans(m0: seq<bool>, w0: seq<nat>, m1: seq<bool>, w1: seq<nat>, m2: seq<bool>, w2: seq<nat>,
                    a: set<Value>, b: set<Value>)
    requires Greyed(m0, w0, m1, w1, a) && Greyed(m1, w1, m2, w2, b)
    ensures Greyed(m0, w0, m2, w2, a + b)
  {
    forall k: nat
      ensures k in w2 <==> k in w0 || (k < |m2| && m2[k] && !m0[k])
    {
      if k < |m2| {
        assert m2[k] <==> m1[k] || Ref(k) in b;
        assert m1[k] <==> m0[k] || Ref(k) in a;
      }
    }
  }

  lemma QueueInit(m: seq<bool>, w: seq<nat>)
    requires w != [] && QueueOk(m, w)
    ensures QueueOk(m, Init(w))
  {
    forall k: nat | k in Init(w)
      ensures k < |m| && m[k]
    {
      assert k in w;
    }
  }

  lemma TraceStepReach(slots: seq<Slot>, roots: set<Value>, m0: seq<bool>, m: seq<bool>, k: nat, vs: set<Value>)
    requires |m| == |m0| && Reachable(slots, roots, k)
    requires forall j: nat :: j < |m| ==> (m[j] <==> m0[j] || Ref(j) in vs)
    requires forall j: nat :: Ref(j) in vs ==> Points(slots, k, j)
    requires forall j: nat :: j < |m0| && m0[j] ==> Reachable(slots, roots, j)
    ensures forall j: nat :: j < |m| && m[j] ==> Reachable(slots, roots, j)
  {
    forall j: nat | j < |m| && m[j]
      ensures Reachable(slots, roots, j)
    {
      if !m0[j] {
        ReachableStep(slots, roots, k, j);
      }
    }
  }

  /** One trip of the mark loop: pop `k`, mark its children, finish `k`. */
  lemma TraceStep(slots: seq<Slot>, roots: set<Value>, m0: seq<bool>, w0: seq<nat>, done: set<nat>,
                  m: seq<bool>, w: seq<nat>, vs: set<Value>)
    requires w0 != [] && Tracing(slots, roots, m0, w0, done) && InRange(|slots|, vs)
    requires Greyed(m0, Init(w0), m, w, vs) && QueueOk(m, w)
    requires forall j: nat :: Ref(j) in vs <==> Points(slots, Last(w0), j)
    ensures Tracing(slots, roots, m, w, done + {Last(w0)})
  {
    hide Reachable;
    var k := Last(w0);
    assert k in w0 && k !in Init(w0);
    assert forall j: nat :: j in w0 <==> j in Init(w0) || j == k;
    TraceStepReach(slots, roots, m0, m, k, vs);
  }

  lemma TraceStart(slots: seq<Slot>, roots: set<Value>, m0: seq<bool>, m: seq<bool>, w: seq<nat>)
    requires |m| == |slots| && InRange(|slots|, roots)
    requires forall k :: 0 <= k < |m0| ==> !m0[k]
    requires QueueOk(m, w) && Greyed(m0, [], m, w, roots)
    ensures Tracing(slots, roots, m, w, {})
  {
    forall k: nat | k < |m| && m[k]
      ensures Reachable(slots, roots, k)
    {
      ReachableRoot(slots, roots, k);
    }
  }

  lemma TraceComplete(slots: seq<Slot>, roots: set<Value>, m: seq<bool>, done: set<nat>)
    requires Tracing(slots, roots, m, [], done)
    ensures forall k: nat :: k < |slots| ==> (m[k] <==> k in done) && (m[k] <==> Reachable(slots, roots, k))
  {
    forall k: nat | k < |slots| && Reachable(slots, roots, k)
      ensures m[k]
    {
      var p :| PathFrom(slots, roots, p, k);
      ClosedSetCovers(slots, roots, (iset j: nat | j < |m| && m[j]), p, k);
    }
  }

  /** The bitmap marks exactly the reachable slots. */
  ghost predicate MarksReachable(slots: seq<Slot>, roots: set<Value>, m: seq<bool>) {
    |m| == |slots| && forall k: nat :: k < |m| ==> (m[k] <==> Reachable(slots, roots, k))
  }

  lemma SweepIsExact(before: seq<Slot>, roots: set<Value>, m: seq<bool>, after: seq<Slot>)
    requires MarksReachable(before, roots, m) && |after| == |m|
    requires forall k :: 0 <= k < |m| ==> after[k] == if m[k] then before[k] else Free
    ensures after == SweptSlots(before, roots)
    ensures TotalBytes(after) == BytesOf(before, MarkSet(m), |before|)
  {
    assert after == SweptSlots(before, roots);
    BytesOfAgree(before, MarkSet(m), after, set k: nat | k < |after| && after[k].Used?, |after|);
  }

  class Heap {
    var slots: seq<Slot>
    var free: seq<nat>
    var heapBytes: nat
    var nextGc: nat
    var pending: bool
    var paused: nat
    var maxHeap: nat
    var intern: map<Text, Value>
    var globals: seq<Value>

    ghost function State(): HeapState
      reads this
    {
      HeapState(slots, free, heapBytes, nextGc, pending, paused, maxHeap, intern, globals)
    }

    constructor (ceiling: nat)
      ensures State() == HeapState([], [], 0, MIN_GC_BYTES, false, 0, ceiling, map[], [])
      ensures FreeListOk(State()) && SlabClosed(slots)
    {
      slots, free, heapBytes, nextGc := [], [], 0, MIN_GC_BYTES;
      pending, paused, maxHeap, intern, globals := false, 0, ceiling, map[], [];
    }

    method Alloc(obj: Obj, bytes: nat) returns (v: Value)
      requires FreeListOk(State())
      modifies this
      ensures State() == AllocState(old(State()), obj, bytes)
      ensures v == Ref(AllocHandle(old(State()))) && Live(slots, v)
      ensures FreeListOk(State())
    {
      AllocCorrect(State(), obj, bytes);
      heapBytes := heapBytes + bytes;
      if heapBytes >= nextGc || heapBytes >= maxHeap {
        pending := true;
      }
      if |free| > 0 {
        var i := free[|free| - 1];
        assert i in free;
        free := free[..|free| - 1];
        slots := slots[i := Used(obj, bytes)];
        v := Ref(i);
      } else {
        slots := slots + [Used(obj, bytes)];
        v := Ref(|slots| - 1);
      }
    }

    /** The one heap string for constant `s`: the same handle on every later use. */
    method InternStr(s: Text, bytes: nat) returns (v: Value)
      requires FreeListOk(State())
      modifies this
      ensures s in intern && intern[s] == v
      ensures s in old(intern) ==> State() == old(State())
      ensures s !in old(intern) ==>
                State() == AllocState(old(State()), StrObj(s), bytes).(intern := old(intern)[s := v])
      ensures FreeListOk(State())
    {
      if s in intern {
        return intern[s];
      }
      v := Alloc(StrObj(s), bytes);
      intern := intern[s := v];
    }

    method SetGlobals(count: nat)
      modifies this`globals
      ensures globals == Units(count)
    {
      globals := Units(count);
    }

    method GlobalSet(idx: nat, v: Value) returns (ok: bool)
      modifies this`globals
      ensures ok == (idx < |old(globals)|)
      ensures globals == if ok then old(globals)[idx := v] else old(globals)
    {
      ok := idx < |globals|;
      if ok {
        globals := globals[idx := v];
      }
    }

    /** Move an object out of its slot; the slot is empty until `RestoreObj`. */
    method TakeObj(k: nat) returns (obj: Obj, bytes: nat)
      requires k < |slots| && slots[k].Used?
      modifies this`slots
      ensures old(slots)[k] == Used(obj, bytes)
      ensures slots == old(slots)[k := Free]
    {
      obj, bytes := slots[k].obj, slots[k].bytes;
      slots := slots[k := Free];
    }

    method RestoreObj(k: nat, obj: Obj, bytes: nat)
      requires k < |slots|
      modifies this`slots
      ensures slots == old(slots)[k := Used(obj, bytes)]
    {
      slots := slots[k := Used(obj, bytes)];
    }

    /** Mark one value grey: record it and queue it for tracing. */
    static method Mark(marked: array<bool>, worklist: seq<nat>, v: Value) returns (w: seq<nat>)
      requires (v.Ref? ==> v.h < marked.Length) && QueueOk(marked[..], worklist)
      modifies marked
      ensures QueueOk(marked[..], w)
      ensures Greyed(old(marked[..]), worklist, marked[..], w, {v})
    {
      w := worklist;
      if v.Ref? && !marked[v.h] {
        marked[v.h] := true;
        w := worklist + [v.h];
      }
    }

    /** Mark every value of `vs`, queueing exactly the newly marked ones. */
    static method MarkAll(marked: array<bool>, worklist: seq<nat>, vs: seq<Value>) returns (w: seq<nat>)
      requires InRange(marked.Length, ValueSet(vs)) && QueueOk(marked[..], worklist)
      modifies marked
      ensures QueueOk(marked[..], w)
      ensures Greyed(old(marked[..]), worklist, marked[..], w, ValueSet(vs))
    {
      w := worklist;
      for i := 0 to |vs|
        invariant QueueOk(marked[..], w)
        invariant Greyed(old(marked[..]), worklist, marked[..], w, ValueSet(vs[..i]))
      {
        assert vs[i] in ValueSet(vs);
        ghost var m1, w1 := marked[..], w;
        w := Mark(marked, w, vs[i]);
        assert ValueSet(vs[..i + 1]) == ValueSet(vs[..i]) + {vs[i]};
        GreyedTrans(old(marked[..]), worklist, m1, w1, marked[..], w, ValueSet(vs[..i]), {vs[i]});
      }
      assert vs[..|vs|] == vs;
    }

    /** `MarkAll` over the interned constants, whose order is unspecified. */
    static method MarkPool(marked: array<bool>, worklist: seq<nat>, vs: set<Value>) returns (w: seq<nat>)
      requires InRange(marked.Length, vs) && QueueOk(marked[..], worklist)
      modifies marked
      ensures QueueOk(marked[..], w)
      ensures Greyed(old(marked[..]), worklist, marked[..], w, vs)
    {
      w := worklist;
      var rest := vs;
      while rest != {}
        invariant rest <= vs && QueueOk(marked[..], w)
        invariant Greyed(old(marked[..]), worklist, marked[..], w, vs - rest)
      {
        var v :| v in rest;
        ghost var m1, w1 := marked[..], w;
        w := Mark(marked, w, v);
        assert vs - (rest - {v}) == (vs - rest) + {v};
        GreyedTrans(old(marked[..]), worklist, m1, w1, marked[..], w, vs - rest, {v});
        rest := rest - {v};
      }
      assert vs - {} == vs;
    }

    /** Free every occupied slot that was not marked. */
    method Sweep(marked: array<bool>)
      requires marked.Length == |slots|
      modifies this`slots, this`free
      ensures |slots| == |old(slots)|
      ensures forall k :: 0 <= k < |slots| ==> slots[k] == if marked[k] then old(slots)[k] else Free
      ensures free == old(free) + Freed(old(slots), slots, |slots|)
    {
      ghost var keep, was := marked[..], slots;
      ghost var goal := seq(|was|, k requires 0 <= k < |was| => if keep[k] then was[k] else Free);
      for i := 0 to |slots|
        invariant |slots| == |old(slots)|
        invariant forall k :: 0 <= k < i ==> slots[k] == goal[k]
        invariant forall k :: i <= k < |slots| ==> slots[k] == old(slots)[k]
        invariant free == old(free) + Freed(old(slots), goal, i)
      {
        if slots[i].Used? && !marked[i] {
          slots := slots[i := Free];
          free := free + [i];
        }
      }
      assert slots == goal;
    }

    /** Mark the explicit roots, the interned constants and the globals. */
    method MarkRoots(roots: seq<Value>) returns (marked: array<bool>, worklist: seq<nat>)
      requires InRange(|slots|, AllRoots(State(), roots))
      ensures fresh(marked)
      ensures Tracing(slots, AllRoots(State(), roots), marked[..], worklist, {})
    {
      marked := new bool[|slots|](_ => false);
      ghost var m0 := marked[..];
      worklist := MarkAll(marked, [], roots);
      ghost var m1, w1 := marked[..], worklist;
      worklist := MarkPool(marked, worklist, intern.Values);
      GreyedTrans(m0, [], m1, w1, marked[..], worklist, ValueSet(roots), intern.Values);
      ghost var m2, w2 := marked[..], worklist;
      worklist := MarkAll(marked, worklist, globals);
      GreyedTrans(m0, [], m2, w2, marked[..], worklist, ValueSet(roots) + intern.Values, ValueSet(globals));
      TraceStart(slots, AllRoots(State(), roots), m0, marked[..], worklist);
    }

    /** Pop one handle off the queue, mark its children and report its bytes. */
    method TraceOne(marked: array<bool>, queue: seq<nat>, ghost roots: set<Value>, ghost done: set<nat>)
        returns (w: seq<nat>, bytes: nat)
      requires queue != [] && Tracing(slots, roots, marked[..], queue, done) && SlabInRange(slots)
      modifies marked
      ensures Last(queue) < |slots| && Last(queue) !in done
      ensures Tracing(slots, roots, marked[..], w, done + {Last(queue)})
      ensures bytes == if slots[Last(queue)].Used? then slots[Last(queue)].bytes else 0
    {
      var k := queue[|queue| - 1];
      ghost var m0 := marked[..];
      assert k in queue;
      QueueInit(m0, queue);
      w, bytes := queue[..|queue| - 1], 0;
      ghost var vs: set<Value> := {};
      if slots[k].Used? {
        bytes := slots[k].bytes;
        vs := ValueSet(Children(slots[k].obj));
        w := MarkAll(marked, w, Children(slots[k].obj));
      }
      TraceStep(slots, roots, m0, queue, done, marked[..], w, vs);
    }

    /** Drain the queue: mark everything reachable and total the bytes on the way. */
    method Trace(marked: array<bool>, queue: seq<nat>, ghost roots: set<Value>) returns (live: nat)
      requires Tracing(slots, roots, marked[..], queue, {}) && SlabInRange(slots)
      modifies marked
      ensures MarksReachable(slots, roots, marked[..])
      ensures live == BytesOf(slots, MarkSet(marked[..]), |slots|)
    {
      var worklist := queue;
      ghost var done: set<nat> := {};
      ghost var all := set k: nat | k < |slots| && slots[k] == slots[k];
      BytesOfNone(slots, |slots|);
      live := 0;
      while |worklist| > 0
        invariant Tracing(slots, roots, marked[..], worklist, done)
        invariant live == BytesOf(slots, done, |slots|)
        invariant done <= all
        decreases all - done
      {
        ghost var k := Last(worklist);
        var bytes;
        worklist, bytes := TraceOne(marked, worklist, roots, done);
        BytesOfInsert(slots, done, k, |slots|);
        live := live + bytes;
        done := done + {k};
      }
      TraceComplete(slots, roots, marked[..], done);
      assert done == MarkSet(marked[..]);
    }

    /** A precise, non-moving mark-sweep from `roots` and the permanent roots. */
    method Collect(roots: seq<Value>)
      requires InRange(|slots|, AllRoots(State(), roots)) && SlabInRange(slots)
      modifies this
      ensures State() == Collected(old(State()), roots)
    {
      hide Reachable, Tracing, MarksReachable, BytesOf, SlabInRange;
      ghost var before, rs := slots, AllRoots(State(), roots);
      var marked, queue := MarkRoots(roots);
      var live := Trace(marked, queue, rs);
      Sweep(marked);
      SweepIsExact(before, rs, marked[..], slots);
      nextGc := NextThreshold(heapBytes, live, MIN_GC_BYTES);
      heapBytes := live;
      pending := false;
    }
  }
}
