/**
 No dangling handle over whole runs: whatever the interleaving of fibers,
 allocations, stores, channel traffic and collections at safepoints, every
 handle in a value stack, a finished fiber's result, an unstarted closure, a
 channel buffer, a global, an interned constant or a live object names an
 occupied slot.
 */
module RunHandles {
  import opened Values
  import opened Heaps
  import opened Bytecode
  import opened Schedulers
  import opened SchedulerInvariant
  import opened Machine
  import opened RunScheduler

  ghost predicate SchedLive(slots: seq<Slot>, s: Sched) {
    && (forall id: nat :: id < |s.fibers| ==> AllLive(slots, FiberRoots(s.fibers[id])))
    && (forall c: nat :: c < |s.channels| ==> AllLive(slots, s.channels[c].buffer))
  }

  ghost predicate HandlesOk(v: Vm) {
    && HeapGood(v.heap)
    && AllLive(v.heap.slots, v.vstack)
    && SchedLive(v.heap.slots, v.sched)
  }

  lemma SchedLiveKept(a: seq<Slot>, b: seq<Slot>, s: Sched)
    requires KeepsLive(a, b) && SchedLive(a, s)
    ensures SchedLive(b, s)
  {
    forall id: nat | id < |s.fibers|
      ensures AllLive(b, FiberRoots(s.fibers[id]))
    {
      KeepsLiveAll(a, b, FiberRoots(s.fibers[id]));
    }
    forall c: nat | c < |s.channels|
      ensures AllLive(b, s.channels[c].buffer)
    {
      KeepsLiveAll(a, b, s.channels[c].buffer);
    }
  }

  // ----- collection at a safepoint -----

  lemma {:induction false} FibersRootsCover(fs: seq<Fiber>, id: nat, x: Value)
    requires id < |fs| && x in FiberRoots(fs[id])
    ensures x in FibersRoots(fs)
  {
    if id == |fs| - 1 {
    } else {
      FibersRootsCover(Init(fs), id, x);
    }
  }

  lemma {:induction false} ChansRootsCover(cs: seq<Chan>, c: nat, x: Value)
    requires c < |cs| && x in cs[c].buffer
    ensures x in ChansRoots(cs)
  {
    if c == |cs| - 1 {
    } else {
      ChansRootsCover(Init(cs), c, x);
    }
  }

  /** Live values that are roots stay live. */
  lemma RootsSurvive(h: HeapState, roots: seq<Value>, vs: seq<Value>)
    requires SlabClosed(h.slots) && AllLive(h.slots, vs)
    requires forall x :: x in vs && x.Ref? ==> x in AllRoots(h, roots)
    ensures AllLive(Collected(h, roots).slots, vs)
  {
    forall i | 0 <= i < |vs|
      ensures Live(Collected(h, roots).slots, vs[i])
    {
      CollectionKeepsHandles(h, roots, vs[i]);
    }
  }

  /** The collector's root set covers everything the machine can still touch. */
  lemma CollectKeepsHandles(v: Vm, own: seq<Value>)
    requires HandlesOk(v)
    requires forall x :: x in v.vstack && x.Ref? ==> x in own
    ensures HandlesOk(v.(heap := Collected(v.heap, own + SchedRoots(v.sched))))
  {
    var h, roots := v.heap, own + SchedRoots(v.sched);
    var h' := Collected(h, roots);
    CollectionExact(h, roots);
    CollectionKeepsHandles(h, roots, Unit);
    RootsSurvive(h, roots, v.vstack);
    RootsSurvive(h, roots, h.globals);
    forall s | s in h.intern
      ensures Live(h'.slots, h'.intern[s])
    {
      CollectionKeepsHandles(h, roots, h.intern[s]);
    }
    forall id: nat | id < |v.sched.fibers|
      ensures AllLive(h'.slots, FiberRoots(v.sched.fibers[id]))
    {
      forall x | x in FiberRoots(v.sched.fibers[id])
        ensures x in AllRoots(h, roots)
      {
        FibersRootsCover(v.sched.fibers, id, x);
      }
      RootsSurvive(h, roots, FiberRoots(v.sched.fibers[id]));
    }
    forall c: nat | c < |v.sched.channels|
      ensures AllLive(h'.slots, v.sched.channels[c].buffer)
    {
      forall x | x in v.sched.channels[c].buffer
        ensures x in AllRoots(h, roots)
      {
        ChansRootsCover(v.sched.channels, c, x);
      }
      RootsSurvive(h, roots, v.sched.channels[c].buffer);
    }
  }

  lemma FetchKeepsHandles(env: Env, v: Vm)
    requires HandlesOk(v) && CanFetch(env, v)
    ensures HandlesOk(AfterFetch(env, v)) && AfterFetch(env, v).vstack == v.vstack
  {
    hide HandlesOk;
    var pc := Last(v.frames).pc + 1;
    var v0 := v.(frames := SetPc(v.frames, pc));
    var own := PollRoots(NextInstr(env, v), pc, v.vstack);
    assert HandlesOk(v0) by {
      FramesIrrelevant(v, v0);
    }
    if own.Some? {
      assert v.vstack != [] ==> v.vstack == Init(v.vstack) + [Last(v.vstack)];
      CollectKeepsHandles(v0, own.value);
      var w := v0.(heap := Collected(v.heap, own.value + SchedRoots(v.sched)));
      FramesIrrelevant(w, Stopped(w, OutOfMemory));
    }
  }

  lemma FramesIrrelevant(v: Vm, w: Vm)
    requires HandlesOk(v) && w.heap == v.heap && w.vstack == v.vstack && w.sched == v.sched
    ensures HandlesOk(w)
  {
  }

  lemma {:induction false} FibersRootsLive(slots: seq<Slot>, fs: seq<Fiber>)
    requires forall id: nat :: id < |fs| ==> AllLive(slots, FiberRoots(fs[id]))
    ensures AllLive(slots, FibersRoots(fs))
  {
    if fs == [] {
    } else {
      FibersRootsLive(slots, Init(fs));
      assert AllLive(slots, FiberRoots(fs[|fs| - 1]));
    }
  }

  lemma {:induction false} ChansRootsLive(slots: seq<Slot>, cs: seq<Chan>)
    requires forall c: nat :: c < |cs| ==> AllLive(slots, cs[c].buffer)
    ensures AllLive(slots, ChansRoots(cs))
  {
    if cs == [] {
    } else {
      ChansRootsLive(slots, Init(cs));
      assert AllLive(slots, cs[|cs| - 1].buffer);
    }
  }

  /**
   Whenever the machine's handles are live, a collection from any of the
   running fiber's values marks in range: what the in-place collector requires.
   */
  lemma MarkingInRange(v: Vm, own: seq<Value>)
    requires HandlesOk(v) && AllLive(v.heap.slots, own)
    ensures InRange(|v.heap.slots|, AllRoots(v.heap, own + SchedRoots(v.sched))) && SlabInRange(v.heap.slots)
  {
    var slots := v.heap.slots;
    FibersRootsLive(slots, v.sched.fibers);
    ChansRootsLive(slots, v.sched.channels);
    LiveInRange(slots, own + SchedRoots(v.sched));
    LiveInRange(slots, v.heap.globals);
    forall k | 0 <= k < |slots| && slots[k].Used? ensures InRange(|slots|, ValueSet(Children(slots[k].obj))) {
      LiveInRange(slots, Children(slots[k].obj));
    }
    forall x | x in v.heap.intern.Values && x.Ref? ensures x.h < |slots| {
      var s :| s in v.heap.intern && v.heap.intern[s] == x;
    }
  }

  lemma LiveInRange(slots: seq<Slot>, vs: seq<Value>)
    requires AllLive(slots, vs)
    ensures InRange(|slots|, ValueSet(vs))
  {
    forall v | v in vs && v.Ref? ensures v.h < |slots| {
      var i :| 0 <= i < |vs| && vs[i] == v;
      assert Live(slots, vs[i]);
    }
  }

  /** A safepoint's collection in place, on a heap object that holds the machine's heap. */
  method CollectAtSafepoint(heap: Heap, ghost v: Vm, own: seq<Value>, others: seq<Value>)
    requires heap.State() == v.heap && HandlesOk(v) && AllLive(v.heap.slots, own) && others == SchedRoots(v.sched)
    requires forall x :: x in v.vstack && x.Ref? ==> x in own
    modifies heap
    ensures heap.State() == Collected(v.heap, own + SchedRoots(v.sched)) && HandlesOk(v.(heap := heap.State()))
  {
    hide Collected, InRange, SlabInRange, HandlesOk, AllLive;
    MarkingInRange(v, own);
    CollectKeepsHandles(v, own);
    heap.Collect(own + others);
  }

  // ----- instructions -----

  lemma AllocGood(h: HeapState, obj: Obj, bytes: nat)
    requires HeapGood(h) && AllLive(h.slots, Children(obj))
    ensures HeapMoves(h, AllocState(h, obj, bytes), Ref(AllocHandle(h)))
  {
    AllocCorrect(h, obj, bytes);
    AllocKeepsClosed(h, obj, bytes);
    KeepsLiveAll(h.slots, AllocState(h, obj, bytes).slots, h.globals);
  }

  lemma OverwriteGood(h: HeapState, v: Value, obj: Obj)
    requires HeapGood(h) && Fetch(h, v).Found? && AllLive(h.slots, Children(obj))
    ensures HeapMoves(h, Overwrite(h, v, obj), Unit)
  {
    var h' := Overwrite(h, v, obj);
    assert KeepsLive(h.slots, h'.slots);
    KeepsLiveAll(h.slots, h'.slots, h.globals);
    forall k | 0 <= k < |h'.slots| && h'.slots[k].Used?
      ensures AllLive(h'.slots, Children(h'.slots[k].obj))
    {
      KeepsLiveAll(h.slots, h'.slots, Children(obj));
      KeepsLiveAll(h.slots, h'.slots, Children(h.slots[k].obj));
    }
  }

  /** The result of a data instruction, seen from the heap. */
  ghost predicate AppliedOk(h: HeapState, a: Applied) {
    match a
    case Push(vals, h') => HeapGood(h') && KeepsLive(h.slots, h'.slots) && AllLive(h'.slots, vals)
    case Fault(t) => t != Panic(DanglingHandle)
  }

  lemma InternGood(h: HeapState, s: Text, bytes: nat)
    requires HeapGood(h)
    ensures AppliedOk(h, InternPush(h, s, bytes))
  {
    AllocGood(h, StrObj(s), bytes);
  }

  lemma BuildKeepsHandles(m: Module, i: Instr, args: seq<Value>, h: HeapState, bytes: nat)
    requires HeapGood(h) && AllLive(h.slots, args)
    ensures AppliedOk(h, BuildOp(m, i, args, h, bytes))
  {
    hide HeapGood, AllocState, AllocHandle, InternPush;
    if i.ConstStr? {
      InternGood(h, i.s, bytes);
    } else if i.EnumNew? {
      AllocGood(h, EnumObj(i.ty, i.variant, args), bytes);
    } else if i.StructNew? {
      AllocGood(h, StructObj(i.ty, args), bytes);
    } else if i.ListNew? {
      AllocGood(h, ListObj(args), bytes);
    } else if i.ClosureNew? {
      AllocGood(h, ClosureObj(i.func, args), bytes);
    }
  }

  lemma StoreKeepsHandles(i: Instr, args: seq<Value>, h: HeapState)
    requires |args| >= 2 && (i.ListSet? ==> |args| == 3) && HeapGood(h) && AllLive(h.slots, args)
    ensures AppliedOk(h, StoreOp(i, args, h))
  {
    hide HeapGood, Overwrite;
    var f := Fetch(h, args[0]);
    if f.Found? {
      ObjectLive(h, args[0]);
      if i.FieldSet? && f.obj.StructObj? && i.field < |f.obj.fields| {
        OverwriteGood(h, args[0], StructObj(f.obj.ty, f.obj.fields[i.field := args[1]]));
      } else if i.ListSet? && f.obj.ListObj? && args[1].Int? && 0 <= args[1].n < |f.obj.items| {
        OverwriteGood(h, args[0], ListObj(f.obj.items[args[1].n := args[2]]));
      }
    }
  }

  lemma ReadKeepsHandles(i: Instr, args: seq<Value>, h: HeapState)
    requires args != [] && (i.ListGet? ==> |args| == 2) && HeapGood(h) && AllLive(h.slots, args)
    ensures AppliedOk(h, ReadOp(i, args, h))
  {
    hide HeapGood;
    if Fetch(h, args[0]).Found? {
      ObjectLive(h, args[0]);
    }
  }

  lemma ApplyKeepsHandles(env: Env, i: Instr, args: seq<Value>, h: HeapState, bytes: nat)
    requires HeapGood(h) && |args| == Pops(env.m, i) && AllLive(h.slots, args)
    ensures AppliedOk(h, Apply(env, i, args, h, bytes))
  {
    hide StoreOp, ReadOp, BuildOp, Scalar;
    if ShapeOf(i).OnHeap? {
      if i.FieldSet? || i.ListSet? {
        StoreKeepsHandles(i, args, h);
      } else if i.EnumTag? || i.EnumGet? || i.FieldGet? || i.ListGet? || i.ListLen? {
        ReadKeepsHandles(i, args, h);
      } else {
        BuildKeepsHandles(env.m, i, args, h, bytes);
      }
    } else {
      ScalarNoRef(env.alu, i, args);
    }
  }

  lemma ScalarNoRef(alu: Alu, i: Instr, args: seq<Value>)
    requires |args| == ShapeArity(ShapeOf(i))
    ensures Scalar(alu, i, args).Faults? ==> Scalar(alu, i, args).trap != Panic(DanglingHandle)
  {
  }

  lemma ObjectLive(h: HeapState, v: Value)
    requires HeapGood(h) && Fetch(h, v).Found?
    ensures AllLive(h.slots, Children(Fetch(h, v).obj))
  {
  }

  /** An instruction's effect, seen from the heap. */
  ghost predicate EffectOk(h: HeapState, e: Effect) {
    match e
    case Go(vstack, _, h') => HeapGood(h') && KeepsLive(h.slots, h'.slots) && AllLive(h'.slots, vstack)
    case Finish(value, rest) => Live(h.slots, value) && AllLive(h.slots, rest)
    case Stop(t) => t != Panic(DanglingHandle)
  }

  lemma EnterKeepsHandles(m: Module, vstack: seq<Value>, frames: seq<Frame>, h: HeapState, func: nat, argc: nat)
    requires HeapGood(h) && AllLive(h.slots, vstack)
    ensures EffectOk(h, EnterCall(m, vstack, frames, h, func, argc))
  {
  }

  lemma PerformKeepsHandles(env: Env, i: Instr, vstack: seq<Value>, frames: seq<Frame>, h: HeapState, o: Oracle)
    requires frames != [] && !i.CallNative? && HeapGood(h) && AllLive(h.slots, vstack)
    requires o.foreign.ForeignDone? ==> HeapMoves(h, o.foreign.heap, o.foreign.ret)
    ensures EffectOk(h, Perform(env, i, vstack, frames, h, o))
  {
    if IsData(i) {
      DataKeepsHandles(env, i, vstack, frames, h, o);
    } else if i.Call? {
      EnterKeepsHandles(env.m, vstack, frames, h, i.func, i.argc);
    } else if i.CallIndirect? {
      IndirectKeepsHandles(env.m, vstack, frames, h, i.argc);
    } else if i.CallVirtual? {
      VirtualKeepsHandles(env.m, vstack, frames, h, i.selector, i.argc, o);
    }
  }

  lemma DataKeepsHandles(env: Env, i: Instr, vstack: seq<Value>, frames: seq<Frame>, h: HeapState, o: Oracle)
    requires HeapGood(h) && AllLive(h.slots, vstack)
    ensures EffectOk(h, PopPush(env, i, vstack, frames, h, o))
  {
    hide Apply, HeapGood, Pops, KeepsLive;
    var k := Pops(env.m, i);
    if k <= |vstack| {
      var n := |vstack| - k;
      assert AllLive(h.slots, vstack[n..]) && AllLive(h.slots, vstack[..n]);
      ApplyKeepsHandles(env, i, vstack[n..], h, o.bytes);
      var a := Apply(env, i, vstack[n..], h, o.bytes);
      if a.Push? {
        KeepsLiveAll(h.slots, a.heap.slots, vstack[..n]);
      }
    }
  }

  lemma IndirectKeepsHandles(m: Module, vstack: seq<Value>, frames: seq<Frame>, h: HeapState, argc: nat)
    requires HeapGood(h) && AllLive(h.slots, vstack)
    ensures EffectOk(h, Indirect(m, vstack, frames, h, argc))
  {
    if argc + 1 <= |vstack| {
      var at := |vstack| - argc - 1;
      var c := Fetch(h, vstack[at]);
      if c.Found? && c.obj.ClosureObj? {
        assert AllLive(h.slots, Children(c.obj));
        EnterKeepsHandles(m, vstack[..at] + c.obj.captures + vstack[at + 1..], frames, h,
                          c.obj.func, |c.obj.captures| + argc);
      }
    }
  }

  lemma VirtualKeepsHandles(m: Module, vstack: seq<Value>, frames: seq<Frame>, h: HeapState,
                            selector: Text, argc: nat, o: Oracle)
    requires HeapGood(h) && AllLive(h.slots, vstack)
    requires o.foreign.ForeignDone? ==> HeapMoves(h, o.foreign.heap, o.foreign.ret)
    ensures EffectOk(h, Virtual(m, vstack, frames, h, selector, argc, o))
  {
    if 1 <= argc <= |vstack| {
      var base := |vstack| - argc;
      var target := VirtualTarget(m, Fetch(h, vstack[base]), selector);
      if target.Some? {
        EnterKeepsHandles(m, vstack, frames, h, target.value, argc);
      } else if o.foreign.ForeignDone? {
        KeepsLiveAll(h.slots, o.foreign.heap.slots, vstack[..base]);
      }
    }
  }

  // ----- natives and the driver -----

  /** Fibers that only changed their `queued` flag hold the same roots. */
  lemma FibersLiveKept(slots: seq<Slot>, s: Sched, t: Sched)
    requires SchedLive(slots, s) && Grows(s, t)
    requires forall id: nat :: |s.fibers| <= id < |t.fibers| ==> AllLive(slots, FiberRoots(t.fibers[id]))
    requires forall c: nat :: c < |t.channels| ==> AllLive(slots, t.channels[c].buffer)
    ensures SchedLive(slots, t)
  {
    forall id: nat | id < |t.fibers|
      ensures AllLive(slots, FiberRoots(t.fibers[id]))
    {
      if id < |s.fibers| {
        assert FiberRoots(t.fibers[id]) == FiberRoots(s.fibers[id]);
      }
    }
  }

  lemma ChannelOpsLive(slots: seq<Slot>, s: Sched, c: nat, v: Value)
    requires SchedInv(s) && SchedLive(slots, s) && c < |s.channels| && Live(slots, v)
    ensures SchedLive(slots, TrySend(s, c, v).0)
    ensures SchedLive(slots, TryReceive(s, c).0)
    ensures TryReceive(s, c).1.Got? ==> Live(slots, TryReceive(s, c).1.value)
    ensures SchedLive(slots, CloseChan(s, c))
  {
    hide SchedInv;
    ChannelOpsKeep(s, c, v);
    ChannelOpsChannels(s, c, v);
    assert AllLive(slots, s.channels[c].buffer);
    FibersLiveKept(slots, s, TrySend(s, c, v).0);
    FibersLiveKept(slots, s, TryReceive(s, c).0);
    FibersLiveKept(slots, s, CloseChan(s, c));
  }

  /** What the channel operations do to the channels. */
  lemma ChannelOpsChannels(s: Sched, c: nat, v: Value)
    requires SchedInv(s) && c < |s.channels|
    ensures var ch, (t, r) := s.channels[c], TrySend(s, c, v);
            t.channels == if r.Sent? then s.channels[c := ch.(buffer := ch.buffer + [v])] else s.channels
    ensures var ch, (t, r) := s.channels[c], TryReceive(s, c);
            if r.Got? then
              && ch.buffer == [r.value] + ch.buffer[1..]
              && t.channels == s.channels[c := ch.(buffer := ch.buffer[1..])]
            else t.channels == s.channels
    ensures CloseChan(s, c).channels == s.channels[c := s.channels[c].(closed := true)]
  {
    var ch := s.channels[c];
    ChannelsKeep(s, s.channels[c := ch.(buffer := ch.buffer + [v])]);
    WakeAllKeeps(s.(channels := s.channels[c := ch.(buffer := ch.buffer + [v])]));
    ChannelsKeep(s, s.channels[c := ch.(closed := true)]);
    WakeAllKeeps(s.(channels := s.channels[c := ch.(closed := true)]));
    if ch.buffer != [] {
      ChannelsKeep(s, s.channels[c := ch.(buffer := ch.buffer[1..])]);
      WakeAllKeeps(s.(channels := s.channels[c := ch.(buffer := ch.buffer[1..])]));
    }
  }

  ghost predicate NativeResultOk(h: HeapState, r: NativeResult) {
    match r
    case NativeOk(h', s', ret, _, _) => HeapMoves(h, h', ret) && SchedLive(h'.slots, s')
    case NativeFail(t) => t != Panic(DanglingHandle)
  }

  lemma SendLive(id: nat, h: HeapState, s: Sched, args: seq<Value>)
    requires HeapGood(h) && SchedInv(s) && SchedLive(h.slots, s) && AllLive(h.slots, args)
    ensures NativeResultOk(h, SendNative(id, h, s, args))
  {
    if |args| == 2 && args[0].Int? && 0 <= args[0].n < |s.channels| {
      ChannelOpsLive(h.slots, s, args[0].n, args[1]);
    }
  }

  lemma ReceiveLive(id: nat, h: HeapState, s: Sched, args: seq<Value>, bytes: nat)
    requires HeapGood(h) && SchedInv(s) && SchedLive(h.slots, s) && AllLive(h.slots, args)
    ensures NativeResultOk(h, ReceiveNative(id, h, s, args, bytes))
  {
    hide HeapGood, SchedInv, SchedLive, AllocState, AllocHandle;
    if |args| == 1 && args[0].Int? && 0 <= args[0].n < |s.channels| {
      var c: nat := args[0].n;
      ChannelOpsLive(h.slots, s, c, Unit);
      var (t, r) := TryReceive(s, c);
      match r
      case Got(v) =>
        AllocGood(h, SomeObj(v), bytes);
        SchedLiveKept(h.slots, AllocState(h, SomeObj(v), bytes).slots, t);
      case Drained =>
        AllocGood(h, NoneObj(), bytes);
        SchedLiveKept(h.slots, AllocState(h, NoneObj(), bytes).slots, t);
      case Empty =>
    }
  }

  lemma NativeKeepsHandles(k: Native, id: nat, args: seq<Value>, h: HeapState, s: Sched, o: Oracle)
    requires HeapGood(h) && SchedInv(s) && SchedLive(h.slots, s) && AllLive(h.slots, args)
    requires o.foreign.ForeignDone? ==> HeapMoves(h, o.foreign.heap, o.foreign.ret)
    ensures NativeResultOk(h, RunNative(k, id, args, h, s, o))
  {
    hide HeapGood, SchedInv, SendNative, ReceiveNative, WakePolls, SpawnFiber, CloseChan;
    match k
    case Spawn =>
      if |args| == 1 {
        SpawnKeeps(s, args[0]);
        var t := SpawnFiber(s, args[0]);
        assert forall j :: 0 <= j < |s.fibers| ==> t.fibers[..|s.fibers|][j] == s.fibers[j];
        FibersLiveKept(h.slots, s, t);
      }
    case ChanNew =>
      if |args| == 1 && args[0].Int? {
        FibersLiveKept(h.slots, s, NewChannel(s, if args[0].n < 0 then 0 else args[0].n));
      }
    case Join =>
      if |args| == 1 && args[0].Int? && ResultOf(s, args[0].n).Some? {
        assert AllLive(h.slots, FiberRoots(s.fibers[args[0].n]));
        assert FiberRoots(s.fibers[args[0].n]) == [ResultOf(s, args[0].n).value];
        assert Live(h.slots, FiberRoots(s.fibers[args[0].n])[0]);
      }
    case Send => SendLive(id, h, s, args);
    case Receive => ReceiveLive(id, h, s, args, o.bytes);
    case CloseChannel =>
      if |args| == 1 && args[0].Int? && 0 <= args[0].n < |s.channels| {
        ChannelOpsLive(h.slots, s, args[0].n, Unit);
      }
    case Foreign =>
      if o.foreign.ForeignDone? {
        SchedLiveKept(h.slots, o.foreign.heap.slots, s);
        WakePollsKeep(s, o.foreign.closed);
        FibersLiveKept(o.foreign.heap.slots, s, WakePolls(s, o.foreign.closed));
      }
    case _ =>
  }

  /** A fiber replaced by one with live roots. */
  lemma FiberReplaced(slots: seq<Slot>, s: Sched, t: Sched, id: nat)
    requires SchedLive(slots, s) && id < |s.fibers| == |t.fibers| && t.channels == s.channels
    requires forall j: nat :: j < |s.fibers| && j != id ==> t.fibers[j].state == s.fibers[j].state
    requires AllLive(slots, FiberRoots(t.fibers[id]))
    ensures SchedLive(slots, t)
  {
    forall j: nat | j < |t.fibers|
      ensures AllLive(slots, FiberRoots(t.fibers[j]))
    {
      if j != id {
        assert FiberRoots(t.fibers[j]) == FiberRoots(s.fibers[j]);
      }
    }
  }

  lemma ParkKeepsHandles(v: Vm, id: nat, s: Sched, vstack: seq<Value>, frames: seq<Frame>, req: ParkRequest)
    requires HeapGood(v.heap) && SchedLive(v.heap.slots, s) && id < |s.fibers| && AllLive(v.heap.slots, vstack)
    ensures HandlesOk(ParkCurrent(v, id, s, vstack, frames, req))
  {
    hide HeapGood, AddPoll, AddPolls;
    FiberReplaced(v.heap.slots, s, ParkCurrent(v, id, s, vstack, frames, req).sched, id);
  }

  lemma NativeStepKeepsHandles(env: Env, v: Vm, id: nat, native: nat, argc: nat, o: Oracle)
    requires HandlesOk(v) && SchedInv(v.sched) && v.frames != [] && Last(v.frames).pc > 0
    requires o.foreign.ForeignDone? ==> HeapMoves(v.heap, o.foreign.heap, o.foreign.ret)
    ensures var w := NativeStep(env, v, id, native, argc, o);
            HandlesOk(w) && (w.phase.Halt? && !v.phase.Halt? ==> w.phase.outcome != Trapped(Panic(DanglingHandle)))
  {
    hide HeapGood, SchedInv, RunNative, SchedLive, ParkCurrent;
    if argc <= |v.vstack| && native < |env.natives| {
      var base := |v.vstack| - argc;
      NativeKeepsHandles(env.natives[native], id, v.vstack[base..], v.heap, v.sched, o);
      var r := RunNative(env.natives[native], id, v.vstack[base..], v.heap, v.sched, o);
      if r.NativeOk? {
        KeepsLiveAll(v.heap.slots, r.heap.slots, v.vstack);
        if r.park.Some? && id < |r.sched.fibers| {
          var v1 := v.(heap := r.heap, log := LogWith(v.log, r.call));
          if r.park.value.BlockRetry? || r.park.value.Ready? {
            ParkKeepsHandles(v1, id, r.sched, v.vstack, SetPc(v.frames, Last(v.frames).pc - 1), r.park.value);
            ParkNotHalt(v1, id, r.sched, v.vstack, SetPc(v.frames, Last(v.frames).pc - 1), r.park.value);
          } else {
            ParkKeepsHandles(v1, id, r.sched, v.vstack[..base] + [r.ret], v.frames, r.park.value);
            ParkNotHalt(v1, id, r.sched, v.vstack[..base] + [r.ret], v.frames, r.park.value);
          }
        }
      }
    }
  }

  lemma ParkNotHalt(v: Vm, id: nat, s: Sched, vstack: seq<Value>, frames: seq<Frame>, req: ParkRequest)
    requires id < |s.fibers|
    ensures ParkCurrent(v, id, s, vstack, frames, req).phase.Pick?
  {
  }

  lemma AbsorbKeepsHandles(v: Vm, id: nat, e: Effect)
    requires HandlesOk(v) && SchedOk(v) && v.phase == Exec(id) && EffectOk(v.heap, e)
    ensures var w := Absorb(v, id, e);
            HandlesOk(w) && (w.phase.Halt? ==> w.phase.outcome != Trapped(Panic(DanglingHandle)))
  {
    match e
    case Go(vstack, frames, h) => SchedLiveKept(v.heap.slots, h.slots, v.sched);
    case Stop(t) =>
    case Finish(value, rest) =>
      CompleteKeeps(v.sched, id, value);
      FiberReplaced(v.heap.slots, v.sched, CompleteFiber(v.sched, id, value), id);
  }

  lemma KeepsLiveTrans(a: seq<Slot>, b: seq<Slot>, c: seq<Slot>)
    requires KeepsLive(a, b) && KeepsLive(b, c)
    ensures KeepsLive(a, c)
  {
  }

  /** Code run inside a fallback frees nothing and leaves every handle of the scheduler live. */
  lemma {:induction false} NestedKeepsHandles(
      id: nat, calls: seq<NestedCall>, h: HeapState, s: Sched, log: seq<ChanCall>)
    requires HeapGood(h) && SchedInv(s) && SchedLive(h.slots, s) && NestedEnabled(id, calls, h, s, log)
    ensures var r := RunNested(id, calls, h, s, log);
            && (r.NestedOk? ==>
                  HeapGood(r.heap) && KeepsLive(h.slots, r.heap.slots) && SchedLive(r.heap.slots, r.sched))
            && (r.NestedFail? ==> r.trap != Panic(DanglingHandle))
  {
    hide HeapGood, SchedInv, RunNative, SchedLive;
    if calls == [] {
    } else {
      hide KeepsLive;
      NestedKeepsHandles(id, Init(calls), h, s, log);
      NestedKeeps(id, Init(calls), h, s, log);
      var r, c := RunNested(id, Init(calls), h, s, log), Last(calls);
      if r.NestedOk? {
        NativeKeepsHandles(c.native, id, c.args, r.heap, r.sched, c.o);
        var n := RunNative(c.native, id, c.args, r.heap, r.sched, c.o);
        if n.NativeOk? {
          KeepsLiveTrans(h.slots, r.heap.slots, n.heap.slots);
        }
      }
    }
  }

  /** What a fallback leaves on the stack. */
  lemma FallbackEffect(env: Env, i: Instr, vstack: seq<Value>, frames: seq<Frame>, h: HeapState, o: Oracle)
    requires frames != [] && FallsBack(env.m, i, vstack, h) && o.foreign.ForeignDone?
    ensures i.CallVirtual? && i.argc <= |vstack|
    ensures Perform(env, i, vstack, frames, h, o)
         == Go(vstack[..|vstack| - i.argc] + [o.foreign.ret], frames, o.foreign.heap)
  {
    hide VirtualTarget;
  }

  lemma InstrKeepsHandles(env: Env, v: Vm, id: nat, i: Instr, o: Oracle)
    requires HandlesOk(v) && SchedOk(v) && v.phase == Exec(id) && v.frames != [] && !i.CallNative?
    requires OracleOk(env, v, id, i, o)
    ensures var w := InstrStep(env, v, id, i, o);
            HandlesOk(w) && (w.phase.Halt? ==> w.phase.outcome != Trapped(Panic(DanglingHandle)))
  {
    hide SchedOk, HandlesOk, HeapGood, HeapMoves, Absorb, Perform, FallsBack, RunNested, NestedEnabled, EffectOk;
    hide AllLive, SchedInv, Grows;
    HandlesParts(v);
    AfterNestedOk(env, v, id, i, o);
    var w, e := AfterNested(env, v, id, i, o), Perform(env, i, v.vstack, v.frames, v.heap, o);
    if FallsBack(env.m, i, v.vstack, v.heap) && o.foreign.ForeignDone? {
      AfterNestedKeepsHandles(env, v, id, i, o);
      if !w.phase.Halt? {
        FallbackEffect(env, i, v.vstack, v.frames, v.heap, o);
        HandlesParts(w);
        FallbackLive(w, e, |w.vstack| - i.argc, o);
        AbsorbKeepsHandles(w, id, e);
      }
    } else {
      PerformKeepsHandles(env, i, v.vstack, v.frames, v.heap, o);
      AbsorbKeepsHandles(v, id, e);
    }
  }

  lemma AfterNestedKeepsHandles(env: Env, v: Vm, id: nat, i: Instr, o: Oracle)
    requires HandlesOk(v) && SchedOk(v)
    requires FallsBack(env.m, i, v.vstack, v.heap) && NestedEnabled(id, o.nested, v.heap, v.sched, v.log)
    ensures var w := AfterNested(env, v, id, i, o);
            HandlesOk(w) && (w.phase.Halt? && !v.phase.Halt? ==> w.phase.outcome != Trapped(Panic(DanglingHandle)))
  {
    hide HeapGood, SchedLive, FallsBack, RunNested, NestedEnabled;
    NestedKeepsHandles(id, o.nested, v.heap, v.sched, v.log);
    var r := RunNested(id, o.nested, v.heap, v.sched, v.log);
    if r.NestedOk? {
      KeepsLiveAll(v.heap.slots, r.heap.slots, v.vstack);
    }
  }

  lemma FallbackLive(v: Vm, e: Effect, n: nat, o: Oracle)
    requires o.foreign.ForeignDone? && HeapMoves(v.heap, o.foreign.heap, o.foreign.ret)
    requires n <= |v.vstack| && AllLive(v.heap.slots, v.vstack)
    requires e.Go? && e.vstack == v.vstack[..n] + [o.foreign.ret] && e.heap == o.foreign.heap
    ensures EffectOk(v.heap, e)
  {
    KeepsLiveAll(v.heap.slots, e.heap.slots, v.vstack[..n]);
  }

  lemma ExecKeepsHandles(env: Env, v: Vm, id: nat, o: Oracle)
    requires HandlesOk(v) && SchedOk(v) && v.phase == Exec(id) && Enabled(env, v, DoInstr(o))
    ensures var w := ExecStep(env, v, id, o);
            HandlesOk(w) && (w.phase.Halt? ==> w.phase.outcome != Trapped(Panic(DanglingHandle)))
  {
    hide HandlesOk, SchedOk, NativeStep, InstrStep, HeapMoves, HeapGood, AfterFetch, RunNested, NestedEnabled;
    if CanFetch(env, v) {
      var i, v1 := NextInstr(env, v), AfterFetch(env, v);
      FetchOk(env, v);
      FetchKeepsHandles(env, v);
      if !v1.phase.Halt? {
        HandlesParts(v1);
        if i.CallNative? {
          NativeStepKeepsHandles(env, v1, id, i.native, i.argc, o);
        } else {
          InstrKeepsHandles(env, v1, id, i, o);
        }
      }
    } else {
      FramesIrrelevant(v, ExecStep(env, v, id, o));
    }
  }

  lemma HandlesParts(v: Vm)
    requires HandlesOk(v) && SchedOk(v)
    ensures HeapGood(v.heap) && AllLive(v.heap.slots, v.vstack) && SchedInv(v.sched)
  {
  }

  lemma ResumeLive(env: Env, v: Vm, id: nat, f: Fiber)
    requires HandlesOk(v) && v.phase.Pick? && AllLive(v.heap.slots, FiberRoots(f))
    ensures var w := Resume(env, v, id, f.state);
            HandlesOk(w) && (w.phase.Halt? ==> w.phase.outcome != Trapped(Panic(DanglingHandle)))
  {
    hide HeapGood, SchedLive;
    if f.state.NotStarted? {
      var c := f.state.closure;
      assert FiberRoots(f) == [c];
      assert Live(v.heap.slots, FiberRoots(f)[0]);
      if Fetch(v.heap, c).Found? {
        ObjectLive(v.heap, c);
      }
    }
  }

  lemma ResumeKeepsHandles(env: Env, v: Vm)
    requires HandlesOk(v) && SchedOk(v) && v.phase.Pick? && v.sched.ready != []
    ensures var w := PickStep(env, v);
            HandlesOk(w) && (w.phase.Halt? ==> w.phase.outcome != Trapped(Panic(DanglingHandle)))
  {
    hide SchedInv, Dequeue, HeapGood;
    var s, id := v.sched, v.sched.ready[0];
    DequeueKeeps(s);
    FiberReplaced(v.heap.slots, s, Dequeue(s), id);
    ResumeLive(env, v.(sched := Dequeue(s)), id, s.fibers[id]);
  }

  lemma OutsideKeepsHandles(v: Vm, h: int, now: int)
    requires HandlesOk(v) && SchedOk(v)
    ensures HandlesOk(v.(sched := WakePoll(v.sched, h)))
    ensures HandlesOk(v.(phase := Pick, sched := WakeTimers(v.sched, now)))
  {
    WakePollKeeps(v.sched, h);
    FibersLiveKept(v.heap.slots, v.sched, WakePoll(v.sched, h));
    WakeTimersKeeps(v.sched, now);
    FibersLiveKept(v.heap.slots, v.sched, WakeTimers(v.sched, now));
  }

  lemma DeliverKeepsHandles(v: Vm, id: nat, h: HeapState, value: Value)
    requires HandlesOk(v) && SchedOk(v) && id in v.jobs && HeapMoves(v.heap, h, value)
    ensures HandlesOk(DeliverStep(v, id, h, value))
  {
    DeliverReady(v.sched, id);
    KeepsLiveAll(v.heap.slots, h.slots, v.vstack);
    SchedLiveKept(v.heap.slots, h.slots, v.sched);
    assert AllLive(h.slots, FiberRoots(v.sched.fibers[id]));
    FiberReplaced(h.slots, v.sched, DeliverIo(v.sched, id, value), id);
  }

  /** Every transition keeps all handles live, and none ends in a dangling-handle panic. */
  lemma StepKeepsHandles(env: Env, v: Vm, e: Event)
    requires HandlesOk(v) && SchedOk(v) && !v.phase.Halt? && Enabled(env, v, e)
    ensures var w := Step(env, v, e);
            HandlesOk(w) && (w.phase.Halt? ==> w.phase.outcome != Trapped(Panic(DanglingHandle)))
  {
    match e
    case DoInstr(o) => ExecKeepsHandles(env, v, v.phase.id, o);
    case DoPick =>
      if v.sched.ready != [] {
        ResumeKeepsHandles(env, v);
      } else {
        FramesIrrelevant(v, PickStep(env, v));
      }
    case SocketReady(h) => OutsideKeepsHandles(v, h, 0);
    case IoDone(id, h, value) =>
      DeliverKeepsHandles(v, id, h, value);
      DeliverOk(v, id, h, value);
    case IoFault(_) => FramesIrrelevant(v, Step(env, v, e));
    case Tick(now) => OutsideKeepsHandles(v, 0, now);
  }
}
