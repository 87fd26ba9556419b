/**
 What single instructions and natives mean, stated without their definitions:
 reading back what was built or stored, and the queries that foretell whether a
 blocking native would block.
 */
module InstrLaws {
  import opened Values
  import opened Heaps
  import opened Bytecode
  import opened Schedulers
  import opened Machine

  // ----- locals -----

  /** A local reads back what was last stored in it, and a store moves no other slot of any frame. */
  lemma LocalReadsBack(env: Env, below: seq<Value>, v: Value, slot: u16, other: u16,
                       frames: seq<Frame>, h: HeapState, o: Oracle)
    requires frames != [] && Last(frames).base + slot < |below| && Last(frames).base + other < |below|
    ensures var e := Perform(env, Store(slot), below + [v], frames, h, o);
            && e.Go? && |e.vstack| == |below| && e.frames == frames && e.heap == h
            && Perform(env, Load(slot), e.vstack, frames, h, o) == Go(e.vstack + [v], frames, h)
            && (other != slot ==> Perform(env, Load(other), e.vstack, frames, h, o)
                                  == Go(e.vstack + [below[Last(frames).base + other]], frames, h))
            && (forall k :: 0 <= k < |below| && k != Last(frames).base + slot ==> e.vstack[k] == below[k])
  {
    assert Init(below + [v]) == below;
  }

  /** `dup` pushes the top once more. */
  lemma DupCopies(env: Env, below: seq<Value>, v: Value, frames: seq<Frame>, h: HeapState, o: Oracle)
    requires frames != []
    ensures Perform(env, Dup, below + [v], frames, h, o) == Go(below + [v, v], frames, h)
  {
    var n, vs := |below|, below + [v];
    assert vs[..n] == below && vs[n..] == [v];
  }

  // ----- objects -----

  /** The reference a constructor pushed. */
  function Built(a: Applied): Value
    requires a.Push? && |a.vals| == 1
  {
    a.vals[0]
  }

  /** What a constructor built is a new object that reads back its operands; every old object reads as before. */
  lemma BuildReadsBack(m: Module, i: Instr, args: seq<Value>, h: HeapState, bytes: nat, k: u16)
    requires FreeListOk(h) && (i.EnumNew? || i.StructNew? || i.ListNew? || i.ClosureNew?)
    requires i.StructNew? ==> i.ty < |m.types|
    ensures var a := BuildOp(m, i, args, h, bytes);
            && a.Push? && |a.vals| == 1 && Fetch(h, Built(a)) == Dangling
            && (i.EnumNew? ==> ReadOp(EnumTag, a.vals, a.heap) == Push([Int(i.variant)], a.heap))
            && (i.EnumNew? && k < |args| ==> ReadOp(EnumGet(k), a.vals, a.heap) == Push([args[k]], a.heap))
            && (i.StructNew? && k < |args| ==> ReadOp(FieldGet(k), a.vals, a.heap) == Push([args[k]], a.heap))
            && (i.ListNew? && k < |args| ==>
                  ReadOp(ListGet, [Built(a), Int(k)], a.heap) == Push([args[k]], a.heap))
            && (i.ListNew? && |args| < POW63 ==> ReadOp(ListLen, a.vals, a.heap) == Push([Int(|args|)], a.heap))
            && (i.ClosureNew? ==> Fetch(a.heap, Built(a)) == Found(ClosureObj(i.func, args)))
            && (forall v :: Fetch(h, v).Found? ==> Fetch(a.heap, v) == Fetch(h, v))
  {
    hide FreeListOk, AllocState, AllocHandle;
    var obj := if i.EnumNew? then EnumObj(i.ty, i.variant, args) else if i.StructNew? then StructObj(i.ty, args)
               else if i.ListNew? then ListObj(args) else ClosureObj(i.func, args);
    AllocCorrect(h, obj, bytes);
  }

  /** A store is read back at its own place and nowhere else. */
  lemma StoreReadsBack(i: Instr, args: seq<Value>, h: HeapState, k: u16)
    requires i.FieldSet? || i.ListSet?
    requires |args| == if i.FieldSet? then 2 else 3
    requires StoreOp(i, args, h).Push?
    ensures var h' := StoreOp(i, args, h).heap;
            && (i.FieldSet? ==> ReadOp(FieldGet(i.field), [args[0]], h') == Push([args[1]], h'))
            && (i.FieldSet? && k != i.field && ReadOp(FieldGet(k), [args[0]], h).Push? ==>
                  ReadOp(FieldGet(k), [args[0]], h') == Push(ReadOp(FieldGet(k), [args[0]], h).vals, h'))
            && (i.ListSet? ==> ReadOp(ListGet, [args[0], args[1]], h') == Push([args[2]], h'))
            && (i.ListSet? && args[1] != Int(k) && ReadOp(ListGet, [args[0], Int(k)], h).Push? ==>
                  ReadOp(ListGet, [args[0], Int(k)], h') == Push(ReadOp(ListGet, [args[0], Int(k)], h).vals, h'))
            && (i.ListSet? ==> ReadOp(ListLen, [args[0]], h').Push?
                               && ReadOp(ListLen, [args[0]], h').vals == ReadOp(ListLen, [args[0]], h).vals)
            && (forall v :: v != args[0] ==> Fetch(h', v) == Fetch(h, v))
  {
  }

  /** Indexing a list succeeds exactly within its bounds and otherwise traps. */
  lemma ListGetBounds(env: Env, below: seq<Value>, v: Value, k: i64, items: seq<Value>,
                      frames: seq<Frame>, h: HeapState, o: Oracle)
    requires frames != [] && Fetch(h, v) == Found(ListObj(items))
    ensures Perform(env, ListGet, below + [v, Int(k)], frames, h, o)
         == if 0 <= k < |items| then Go(below + [items[k]], frames, h) else Stop(IndexOutOfBounds)
  {
    var n, a := |below|, below + [v, Int(k)];
    assert a[..n] == below && a[n..] == [v, Int(k)];
  }

  /** So does a store, which changes that element only. */
  lemma ListSetBounds(env: Env, below: seq<Value>, v: Value, k: i64, x: Value, items: seq<Value>,
                      frames: seq<Frame>, h: HeapState, o: Oracle)
    requires frames != [] && Fetch(h, v) == Found(ListObj(items))
    ensures var e := Perform(env, ListSet, below + [v, Int(k), x], frames, h, o);
            if 0 <= k < |items| then
              e.Go? && e.vstack == below && e.frames == frames && Fetch(e.heap, v) == Found(ListObj(items[k := x]))
            else e == Stop(IndexOutOfBounds)
  {
    var n, b := |below|, below + [v, Int(k), x];
    assert b[..n] == below && b[n..] == [v, Int(k), x];
  }

  /** A global reads back what was last stored in it; other globals keep theirs. */
  lemma GlobalReadsBack(m: Module, i: u32, j: u32, v: Value, h: HeapState)
    requires i < |h.globals| && j < |h.globals|
    ensures var a := HeapOp(m, GlobalSet(i), [v], h, 0);
            && a.Push? && a.vals == []
            && HeapOp(m, GlobalGet(j), [], a.heap, 0) == Push([if j == i then v else h.globals[j]], a.heap)
  {
  }

  /** A string constant is one object however often it is pushed. */
  lemma InternedOnce(h: HeapState, s: Text, t: Text, bytes: nat)
    requires FreeListOk(h)
    ensures var a := InternPush(h, s, bytes);
            && a.Push? && |a.vals| == 1 && InternPush(a.heap, s, bytes) == a
            && (s !in h.intern ==> Fetch(a.heap, a.vals[0]) == Found(StrObj(s)))
            && (t != s && t in h.intern ==> InternPush(a.heap, t, bytes) == Push([h.intern[t]], a.heap))
  {
    AllocCorrect(h, StrObj(s), bytes);
  }

  // ----- jumps and the call depth -----

  /** A jump goes to its target, a conditional one exactly on its condition, which it takes off the stack. */
  lemma JumpsLand(env: Env, below: seq<Value>, b: bool, target: u64, frames: seq<Frame>, h: HeapState, o: Oracle)
    requires frames != []
    ensures Perform(env, Jump(target), below, frames, h, o) == Go(below, SetPc(frames, target), h)
    ensures Perform(env, JumpIfTrue(target), below + [Bool(b)], frames, h, o)
         == Go(below, if b then SetPc(frames, target) else frames, h)
    ensures Perform(env, JumpIfFalse(target), below + [Bool(b)], frames, h, o)
         == Go(below, if b then frames else SetPc(frames, target), h)
    ensures Last(SetPc(frames, target)).pc == target && Init(SetPc(frames, target)) == Init(frames)
  {
    assert Init(below + [Bool(b)]) == below;
  }

  /** A call of an existing function with the right arguments overflows exactly with a million callers suspended. */
  lemma CallDepth(env: Env, func: u32, argc: u8, vstack: seq<Value>, frames: seq<Frame>, h: HeapState, o: Oracle)
    requires frames != [] && func < |env.m.functions| && env.m.functions[func].paramCount == argc <= |vstack|
    ensures var e := Perform(env, Call(func, argc), vstack, frames, h, o);
            if |Init(frames)| >= 1_000_000 then e == Stop(StackOverflow)
            else e.Go? && e.frames == frames + [Frame(func, 0, |vstack| - argc)] && e.heap == h
  {
  }

  // ----- virtual calls -----

  /** The row gives `selector` for objects like `obj`: enums have ids of their own above the base. */
  predicate Implements(row: DispatchEntry, obj: Obj, selector: Text) {
    && row.selector == selector
    && (|| (obj.StructObj? && row.ty == obj.ty)
        || (obj.EnumObj? && row.ty >= 0x8000_0000 && (row.ty == obj.ty || row.ty == obj.ty + 0x8000_0000)))
  }

  /** Row `k` is the first in the table that implements the selector. */
  predicate FirstImpl(rows: seq<DispatchEntry>, k: nat, obj: Obj, selector: Text) {
    k < |rows| && Implements(rows[k], obj, selector) && forall j :: 0 <= j < k ==> !Implements(rows[j], obj, selector)
  }

  /** The flat scan stops at the first row with the id and the selector. */
  lemma {:induction false} ScanStops(rows: seq<DispatchEntry>, ty: u32, selector: Text) returns (k: nat)
    ensures k <= |rows| && forall j :: 0 <= j < k ==> !(rows[j].ty == ty && rows[j].selector == selector)
    ensures ScanTarget(rows, ty, selector) == if k < |rows| then Some(rows[k].func) else None
    ensures k < |rows| ==> rows[k].ty == ty && rows[k].selector == selector
  {
    if rows == [] || (rows[0].ty == ty && rows[0].selector == selector) {
      k := 0;
    } else {
      k := ScanStops(rows[1..], ty, selector);
      k := k + 1;
    }
  }

  /**
   A virtual call is the direct call of the first row that implements the
   selector for the receiver's type.  It falls back exactly when there is none.
   */
  lemma VirtualDispatch(env: Env, selector: Text, argc: u8, vstack: seq<Value>,
                        frames: seq<Frame>, h: HeapState, o: Oracle)
    requires frames != [] && IndexOk(env.m.dispatch, env.m.index) && 1 <= argc <= |vstack|
    requires !Fetch(h, vstack[|vstack| - argc]).Dangling?
    ensures var rows, recv := env.m.dispatch, Fetch(h, vstack[|vstack| - argc]);
            && (forall k: nat :: recv.Found? && FirstImpl(rows, k, recv.obj, selector) ==>
                  Perform(env, CallVirtual(selector, argc), vstack, frames, h, o)
                  == Perform(env, Call(rows[k].func, argc), vstack, frames, h, o))
            && (FallsBack(env.m, CallVirtual(selector, argc), vstack, h)
                <==> recv.NotARef? || forall k :: 0 <= k < |rows| ==> !Implements(rows[k], recv.obj, selector))
  {
    hide EnterCall, IndexOk, DispatchTarget;
    var rows, recv := env.m.dispatch, Fetch(h, vstack[|vstack| - argc]);
    var id := DispatchTypeId(recv);
    if id.Some? {
      var obj := recv.obj;
      DispatchIsFirstMatch(env.m, id.value, selector);
      var first := ScanStops(rows, id.value, selector);
      forall j | 0 <= j < |rows|
        ensures Implements(rows[j], obj, selector) <==> rows[j].ty == id.value && rows[j].selector == selector
      {
      }
      forall k: nat | FirstImpl(rows, k, obj, selector) ensures k == first {
      }
    }
  }

  /** No row serves both a struct and an enum whose ids are below the base. */
  lemma KindsDispatchApart(row: DispatchEntry, a: Obj, b: Obj, selector: Text)
    requires a.StructObj? && b.EnumObj? && a.ty < 0x8000_0000
    ensures !(Implements(row, a, selector) && Implements(row, b, selector))
  {
  }

  // ----- natives -----

  /** The readiness queries say exactly whether the blocking native would ask to be re-run. */
  lemma QueriesForetell(id: nat, arg: i64, h: HeapState, s: Sched, o: Oracle)
    ensures var r := RunNative(IsDone, id, [Int(arg)], h, s, o);
            r == Quiet(h, s, Bool(RunNative(Join, id, [Int(arg)], h, s, o) != Retry(h, s)))
    ensures 0 <= arg < |s.channels| ==>
              RunNative(ChanReady, id, [Int(arg)], h, s, o)
              == Quiet(h, s, Bool(RunNative(Receive, id, [Int(arg)], h, s, o) != Retry(h, s)))
  {
    hide WakeAll, AllocState, AllocHandle;
  }
}
