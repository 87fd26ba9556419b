/**
 Memory over whole runs: an allocation that reaches the threshold or the ceiling
 makes a collection due, the next safepoint does it and frees exactly what the
 program no longer holds, a run goes on only within the ceiling, and safepoints
 are never far apart (`poll_gc` in `runtime/src/interp/mod.rs`, `alloc`,
 `should_collect` and `over_ceiling` in `runtime/src/heap.rs`).
 */
module RunMemory {
  import opened Values
  import opened Heaps
  import opened Bytecode
  import opened Schedulers
  import opened SchedulerInvariant
  import opened Machine
  import opened RunScheduler
  import opened RunHandles
  import opened Runs
  import opened RunHistory

  // ----- a collection is due whenever one is needed -----

  /** If no collection is due, the heap is below its threshold and within its ceiling. */
  ghost predicate Metered(h: HeapState) {
    h.paused == 0 && (h.pending || (h.heapBytes < h.nextGc && h.heapBytes <= h.maxHeap))
  }

  lemma ChargedTrans(a: HeapState, b: HeapState, c: HeapState)
    requires Charged(a, b) && Charged(b, c)
    ensures Charged(a, c)
  {
  }

  lemma BuildCharges(m: Module, i: Instr, args: seq<Value>, h: HeapState, bytes: nat)
    ensures var a := BuildOp(m, i, args, h, bytes); a.Push? ==> Charged(h, a.heap)
  {
  }

  lemma ApplyCharges(env: Env, i: Instr, args: seq<Value>, h: HeapState, bytes: nat)
    requires |args| == Pops(env.m, i)
    ensures var a := Apply(env, i, args, h, bytes); a.Push? ==> Charged(h, a.heap)
  {
    hide BuildOp, Scalar;
    BuildCharges(env.m, i, args, h, bytes);
  }

  lemma PerformCharges(env: Env, i: Instr, vstack: seq<Value>, frames: seq<Frame>, h: HeapState, o: Oracle)
    requires frames != [] && !i.CallNative?
    ensures var e := Perform(env, i, vstack, frames, h, o);
            e.Go? ==> Charged(h, e.heap) || (FallsBack(env.m, i, vstack, h) && o.foreign.ForeignDone?)
  {
    hide Apply, Pops, EnterFrame, VirtualTarget, Charged;
    assert Charged(h, h) by { Uncharged(h); }
    if IsData(i) && |vstack| >= Pops(env.m, i) {
      ApplyCharges(env, i, vstack[|vstack| - Pops(env.m, i)..], h, o.bytes);
    }
  }

  lemma Uncharged(h: HeapState)
    ensures Charged(h, h)
  {
  }

  lemma NativeCharges(k: Native, id: nat, args: seq<Value>, h: HeapState, s: Sched, o: Oracle)
    requires o.foreign.ForeignDone? ==> Charged(h, o.foreign.heap)
    ensures var r := RunNative(k, id, args, h, s, o); r.NativeOk? ==> Charged(h, r.heap)
  {
    hide WakeAll, WakePolls, SpawnFiber, NewChannel, Ints, TrySend, TryReceive;
  }

  lemma {:induction false} NestedCharges(id: nat, calls: seq<NestedCall>, h: HeapState, s: Sched, log: seq<ChanCall>)
    requires NestedEnabled(id, calls, h, s, log)
    ensures var r := RunNested(id, calls, h, s, log); r.NestedOk? ==> Charged(h, r.heap)
  {
    if calls == [] {
    } else {
      hide RunNative, HeapGood, KeepsLive, Charged;
      NestedCharges(id, Init(calls), h, s, log);
      var r, c := RunNested(id, Init(calls), h, s, log), Last(calls);
      if r.NestedOk? {
        NativeCharges(c.native, id, c.args, r.heap, r.sched, c.o);
        var n := RunNative(c.native, id, c.args, r.heap, r.sched, c.o);
        if n.NativeOk? {
          ChargedTrans(h, r.heap, n.heap);
        }
      }
    }
  }

  lemma NativeStepCharges(env: Env, v: Vm, id: nat, native: nat, argc: nat, o: Oracle)
    requires v.frames != [] && Last(v.frames).pc > 0
    requires o.foreign.ForeignDone? ==> Charged(v.heap, o.foreign.heap)
    ensures Charged(v.heap, NativeStep(env, v, id, native, argc, o).heap)
  {
    hide RunNative, ParkIo, ParkFiber, Charged;
    assert Charged(v.heap, v.heap) by { Uncharged(v.heap); }
    if argc <= |v.vstack| && native < |env.natives| {
      NativeCharges(env.natives[native], id, v.vstack[|v.vstack| - argc..], v.heap, v.sched, o);
    }
  }

  lemma InstrCharges(env: Env, v: Vm, id: nat, i: Instr, o: Oracle)
    requires v.frames != [] && !i.CallNative? && OracleOk(env, v, id, i, o)
    ensures Charged(v.heap, InstrStep(env, v, id, i, o).heap)
  {
    hide Perform, RunNested, NestedEnabled, HeapGood, KeepsLive, Charged, FallsBack, CompleteFiber;
    assert Charged(v.heap, v.heap) by { Uncharged(v.heap); }
    PerformCharges(env, i, v.vstack, v.frames, v.heap, o);
    if FallsBack(env.m, i, v.vstack, v.heap) && o.foreign.ForeignDone? {
      NestedCharges(id, o.nested, v.heap, v.sched, v.log);
      FallbackEffect(env, i, v.vstack, v.frames, v.heap, o);
      var w := AfterNested(env, v, id, i, o);
      if !w.phase.Halt? {
        ChargedTrans(v.heap, w.heap, o.foreign.heap);
      }
    }
  }

  lemma FetchMeters(env: Env, v: Vm)
    requires CanFetch(env, v) && Metered(v.heap) && !v.phase.Halt?
    ensures var w := AfterFetch(env, v);
            w.heap.maxHeap == v.heap.maxHeap && (w.phase.Halt? || Metered(w.heap))
  {
  }

  /** Every transition keeps the ceiling, and leaves a collection due whenever the heap needs one. */
  lemma StepKeepsMetered(env: Env, v: Vm, e: Event)
    requires Metered(v.heap) && !v.phase.Halt? && Enabled(env, v, e)
    ensures var w := Step(env, v, e);
            w.heap.maxHeap == v.heap.maxHeap && (w.phase.Halt? || Metered(w.heap))
  {
    hide AfterFetch, NativeStep, InstrStep, NestedEnabled, HeapGood, KeepsLive, RunNested, FallsBack, Resume;
    if e.DoInstr? && CanFetch(env, v) {
      var i, v1 := NextInstr(env, v), AfterFetch(env, v);
      FetchMeters(env, v);
      FetchParts(env, v);
      if !v1.phase.Halt? {
        if i.CallNative? {
          NativesHaveNoFallback(env, v1, v.phase.id, i, e.o);
          NativeStepCharges(env, v1, v.phase.id, i.native, i.argc, e.o);
        } else {
          InstrCharges(env, v1, v.phase.id, i, e.o);
        }
      }
    } else if e.DoPick? && v.sched.ready != [] && v.sched.ready[0] < |v.sched.fibers| {
      ResumeHeap(env, v.(sched := Dequeue(v.sched)), v.sched.ready[0], v.sched.fibers[v.sched.ready[0]].state);
    }
  }

  lemma NativesHaveNoFallback(env: Env, v: Vm, id: nat, i: Instr, o: Oracle)
    requires i.CallNative?
    ensures AfterNested(env, v, id, i, o) == v
  {
  }

  lemma FetchParts(env: Env, v: Vm)
    requires CanFetch(env, v)
    ensures var w := AfterFetch(env, v);
            && w.frames == SetPc(v.frames, Last(v.frames).pc + 1) && w.vstack == v.vstack && w.sched == v.sched
            && (w.phase == v.phase || w.phase.Halt?)
  {
  }

  lemma ResumeHeap(env: Env, v: Vm, id: nat, was: FiberState)
    ensures Resume(env, v, id, was).heap == v.heap
  {
  }

  lemma {:induction false} RunKeepsMetered(env: Env, v: Vm, events: seq<Event>)
    requires Metered(v.heap) && RunOf(env, v, events)
    ensures var w := After(env, v, events);
            w.heap.maxHeap == v.heap.maxHeap && (w.phase.Halt? || Metered(w.heap))
  {
    if events == [] {
    } else {
      hide Metered, Step, Enabled;
      RunPrefix(env, v, events);
      RunKeepsMetered(env, v, Init(events));
      StepKeepsMetered(env, After(env, v, Init(events)), Last(events));
    }
  }

  // ----- what a safepoint does -----

  /** Fiber states that hold `x`: the closure to start, the result, a slot of the parked stack. */
  predicate HeldBy(st: FiberState, x: Value) {
    st == NotStarted(x) || st == Done(x) || (st.Suspended? && x in st.vstack)
  }

  /** The program can name `x`: on a stack, in a fiber, in a channel, as a global or as a constant. */
  ghost predicate Held(v: Vm, x: Value) {
    || x in v.vstack || x in v.heap.globals || x in v.heap.intern.Values
    || (exists id: nat :: id < |v.sched.fibers| && HeldBy(v.sched.fibers[id].state, x))
    || (exists c: nat :: c < |v.sched.channels| && x in v.sched.channels[c].buffer)
  }

  ghost predicate InUseVia(v: Vm, p: seq<nat>, k: nat) {
    p != [] && Held(v, Ref(p[0])) && Last(p) == k && Path(v.heap.slots, p)
  }

  /** The program can get to slot `k` from something it holds. */
  ghost predicate InUse(v: Vm, k: nat) { exists p :: InUseVia(v, p, k) }

  lemma {:induction false} FibersRootsMembers(fs: seq<Fiber>, x: Value)
    ensures x in FibersRoots(fs) <==> exists id: nat :: id < |fs| && HeldBy(fs[id].state, x)
  {
    if fs == [] {
    } else {
      var init := Init(fs);
      FibersRootsMembers(init, x);
      assert x in FiberRoots(Last(fs)) <==> HeldBy(fs[|fs| - 1].state, x);
      assert forall id: nat :: id < |init| ==> init[id] == fs[id];
    }
  }

  lemma {:induction false} ChansRootsMembers(cs: seq<Chan>, x: Value)
    ensures x in ChansRoots(cs) <==> exists c: nat :: c < |cs| && x in cs[c].buffer
  {
    if cs == [] {
    } else {
      var init := Init(cs);
      ChansRootsMembers(init, x);
      assert forall c: nat :: c < |init| ==> init[c] == cs[c];
      assert x in ChansRoots(cs) <==> x in ChansRoots(init) || x in cs[|cs| - 1].buffer;
    }
  }

  /** The handles among the collector's roots are those the program holds. */
  lemma RootsAreHeld(v: Vm, own: seq<Value>, k: nat)
    requires Ref(k) in own <==> Ref(k) in v.vstack
    ensures Ref(k) in AllRoots(v.heap, own + SchedRoots(v.sched)) <==> Held(v, Ref(k))
  {
    FibersRootsMembers(v.sched.fibers, Ref(k));
    ChansRootsMembers(v.sched.channels, Ref(k));
  }

  lemma ReachableIsInUse(v: Vm, own: seq<Value>, k: nat)
    requires forall j: nat :: Ref(j) in own <==> Ref(j) in v.vstack
    ensures Reachable(v.heap.slots, AllRoots(v.heap, own + SchedRoots(v.sched)), k) <==> InUse(v, k)
  {
    hide Held, AllRoots;
    var roots := AllRoots(v.heap, own + SchedRoots(v.sched));
    forall p: seq<nat> | p != [] ensures PathFrom(v.heap.slots, roots, p, k) <==> InUseVia(v, p, k) {
      RootsAreHeld(v, own, p[0]);
    }
    if Reachable(v.heap.slots, roots, k) {
      var p :| PathFrom(v.heap.slots, roots, p, k);
      assert InUseVia(v, p, k);
    }
    if InUse(v, k) {
      var p :| InUseVia(v, p, k);
      assert PathFrom(v.heap.slots, roots, p, k);
    }
  }

  /** What the fetch of an instruction that polls leaves behind. */
  ghost predicate Swept(v: Vm, w: Vm) {
    && (forall k: nat :: k < |v.heap.slots| == |w.heap.slots| ==>
          w.heap.slots[k] == if v.heap.slots[k].Used? && InUse(v, k) then v.heap.slots[k] else Free)
    && |w.heap.slots| == |v.heap.slots| && w.heap.heapBytes == TotalBytes(w.heap.slots)
    && w.heap.globals == v.heap.globals && w.heap.intern == v.heap.intern
  }

  /**
   At a safepoint a collection that is due is done, and keeps exactly the objects
   in use.  Afterwards none is due, and the run has ended out of memory exactly
   when the survivors exceed the ceiling.  Elsewhere the heap is left alone.
   */
  lemma SafepointExact(env: Env, v: Vm)
    requires CanFetch(env, v) && Metered(v.heap) && !v.phase.Halt?
    ensures var w, i := AfterFetch(env, v), NextInstr(env, v);
            if PollRoots(i, Last(v.frames).pc + 1, v.vstack).None? then w.heap == v.heap && w.phase == v.phase
            else
              && (if v.heap.pending then Swept(v, w) else w.heap == v.heap)
              && (w.phase.Halt? <==> v.heap.pending && w.heap.heapBytes > w.heap.maxHeap)
              && w.phase == (if w.phase.Halt? then Halt(Trapped(OutOfMemory)) else v.phase)
              && !w.heap.pending && (w.phase.Halt? || w.heap.heapBytes <= w.heap.maxHeap)
              && w.heap.heapBytes < w.heap.nextGc
  {
    hide InUse, Reachable, TotalBytes, Held, AllRoots;
    var i, pc := NextInstr(env, v), Last(v.frames).pc + 1;
    var own := PollRoots(i, pc, v.vstack);
    if own.Some? && v.heap.pending {
      OwnHandles(i, pc, v.vstack);
      var w := AfterFetch(env, v);
      forall k: nat | k < |v.heap.slots|
        ensures w.heap.slots[k] == if v.heap.slots[k].Used? && InUse(v, k) then v.heap.slots[k] else Free
      {
        ReachableIsInUse(v, own.value, k);
      }
    }
  }

  lemma OwnHandles(i: Instr, pc: nat, vstack: seq<Value>)
    requires PollRoots(i, pc, vstack).Some?
    ensures forall j: nat :: Ref(j) in PollRoots(i, pc, vstack).value <==> Ref(j) in vstack
  {
    assert vstack != [] ==> vstack == Init(vstack) + [Last(vstack)];
  }

  /** A safepoint in place: collect if one is due, and report whether the ceiling is passed. */
  method PollGc(heap: Heap, ghost v: Vm, own: seq<Value>, others: seq<Value>) returns (over: bool)
    requires heap.State() == v.heap && HandlesOk(v) && !v.phase.Halt?
    requires AllLive(v.heap.slots, own) && others == SchedRoots(v.sched)
    requires forall x :: x in v.vstack && x.Ref? ==> x in own
    modifies heap
    ensures heap.State() == Safepoint(v, Some(own)).heap
    ensures over <==> Safepoint(v, Some(own)).phase.Halt?
    ensures HandlesOk(v.(heap := heap.State()))
  {
    hide Collected, HandlesOk, AllLive;
    over := false;
    if heap.pending && heap.paused == 0 {
      CollectAtSafepoint(heap, v, own, others);
      over := heap.heapBytes > heap.maxHeap;
    } else {
      FramesIrrelevant(v, v.(heap := heap.State()));
    }
  }

  // ----- safepoints are never far apart -----

  /** Instructions left in the functions on the call stack. */
  function Remaining(m: Module, frames: seq<Frame>): nat {
    if frames == [] then 0 else Remaining(m, Init(frames)) + FrameRemaining(m, Last(frames))
  }

  function FrameRemaining(m: Module, f: Frame): nat {
    if f.func < |m.functions| && f.pc <= |m.functions[f.func].code| then |m.functions[f.func].code| - f.pc else 0
  }

  lemma RemainingPush(m: Module, frames: seq<Frame>, f: Frame)
    ensures Remaining(m, frames + [f]) == Remaining(m, frames) + FrameRemaining(m, f)
  {
    assert Init(frames + [f]) == frames;
  }

  lemma UnpolledData(env: Env, i: Instr, args: seq<Value>, h: HeapState, bytes: nat)
    requires |args| == Pops(env.m, i)
    requires !(i.ConstStr? || i.EnumNew? || i.StructNew? || i.ListNew? || i.ClosureNew?)
    ensures var a := Apply(env, i, args, h, bytes);
            a.Push? ==> a.heap.heapBytes == h.heapBytes && a.heap.pending == h.pending
  {
    hide Scalar, ReadOp, StoreOp, ShapeOf, ShapeArity;
    if i.FieldSet? || i.ListSet? {
      StoreCharges(i, args, h);
    } else if i.EnumTag? || i.EnumGet? || i.FieldGet? || i.ListGet? || i.ListLen? {
      ReadCharges(i, args, h);
    }
  }

  lemma StoreCharges(i: Instr, args: seq<Value>, h: HeapState)
    requires |args| >= 2 && (i.ListSet? ==> |args| == 3)
    ensures var a := StoreOp(i, args, h);
            a.Push? ==> a.heap.heapBytes == h.heapBytes && a.heap.pending == h.pending
  {
  }

  lemma ReadCharges(i: Instr, args: seq<Value>, h: HeapState)
    requires args != [] && (i.ListGet? ==> |args| == 2)
    ensures ReadOp(i, args, h).Push? ==> ReadOp(i, args, h).heap == h
  {
  }

  /** An instruction that does not poll allocates nothing and moves forward in its function, or returns. */
  lemma UnpolledForward(env: Env, i: Instr, vstack: seq<Value>, frames: seq<Frame>, h: HeapState, o: Oracle)
    requires frames != [] && !i.CallNative? && PollRoots(i, Last(frames).pc, vstack).None?
    ensures var e := Perform(env, i, vstack, frames, h, o);
            e.Go? ==>
              && e.heap.heapBytes == h.heapBytes && e.heap.pending == h.pending
              && (|e.frames| == |frames| ==>
                    e.frames == SetPc(frames, Last(e.frames).pc) && Last(e.frames).pc >= Last(frames).pc)
              && (|e.frames| == |frames| || e.frames == Init(frames))
  {
    hide Apply, Pops, EnterFrame;
    if IsData(i) && |vstack| >= Pops(env.m, i) {
      UnpolledData(env, i, vstack[|vstack| - Pops(env.m, i)..], h, o.bytes);
    }
  }

  /** A step that does not poll brings the fiber closer to one that does, on an unchanged byte account. */
  lemma UnpolledProgress(env: Env, v: Vm, id: nat, o: Oracle)
    requires v.phase == Exec(id) && CanFetch(env, v)
    requires PollRoots(NextInstr(env, v), Last(v.frames).pc + 1, v.vstack).None?
    ensures var w := ExecStep(env, v, id, o);
            && w.heap.heapBytes == v.heap.heapBytes && w.heap.pending == v.heap.pending
            && (w.phase.Exec? ==> Remaining(env.m, w.frames) < Remaining(env.m, v.frames))
  {
    hide Perform, PollRoots;
    var i, f := NextInstr(env, v), Last(v.frames);
    var frames := SetPc(v.frames, f.pc + 1);
    assert !i.CallVirtual? && !i.CallNative? by { CallsPoll(i, f.pc + 1, v.vstack); }
    UnpolledForward(env, i, v.vstack, frames, v.heap, o);
    var w := ExecStep(env, v, id, o);
    if w.phase.Exec? {
      RemainingPush(env.m, Init(v.frames), f);
      assert v.frames == Init(v.frames) + [f];
      if |w.frames| == |frames| {
        RemainingPush(env.m, Init(v.frames), f.(pc := Last(w.frames).pc));
      }
    }
  }

  lemma CallsPoll(i: Instr, pc: nat, vstack: seq<Value>)
    requires PollRoots(i, pc, vstack).None?
    ensures !i.CallVirtual? && !i.CallNative?
  {
  }

  /** Jumps poll exactly when they go backwards. */
  lemma BackwardJumpsPoll(env: Env, i: Instr, vstack: seq<Value>, frames: seq<Frame>, h: HeapState, o: Oracle)
    requires frames != [] && (i.Jump? || i.JumpIfTrue? || i.JumpIfFalse?)
    ensures var e := Perform(env, i, vstack, frames, h, o);
            e.Go? ==> |e.frames| == |frames|
                      && (PollRoots(i, Last(frames).pc, vstack).Some? <==> Last(e.frames).pc < Last(frames).pc)
  {
  }

  /** The fiber is running at an instruction that does not poll. */
  predicate Unpolled(env: Env, v: Vm) {
    v.phase.Exec? && (CanFetch(env, v) ==> PollRoots(NextInstr(env, v), Last(v.frames).pc + 1, v.vstack).None?)
  }

  /**
   However the program runs, it cannot execute more instructions without reaching
   a safepoint than are left in the functions on its call stack, and its byte
   account does not move meanwhile.
   */
  lemma {:induction false} PollWithin(env: Env, v: Vm, events: seq<Event>)
    requires RunOf(env, v, events) && forall k :: 0 <= k < |events| ==> Unpolled(env, After(env, v, events[..k]))
    requires v.phase.Exec? && After(env, v, events).phase.Exec?
    ensures |events| + Remaining(env.m, After(env, v, events).frames) <= Remaining(env.m, v.frames)
    ensures After(env, v, events).heap.heapBytes == v.heap.heapBytes
  {
    if events == [] {
    } else {
      hide Step, Enabled, Unpolled, RunOf, Remaining;
      var init, e := Init(events), Last(events);
      RunPrefix(env, v, events);
      assert forall k :: 0 <= k < |init| ==> init[..k] == events[..k];
      assert events[..|init|] == init;
      var u := After(env, v, init);
      UnpolledRuns(env, u);
      PollWithin(env, v, init);
      UnpolledStep(env, u, e);
    }
  }

  lemma UnpolledRuns(env: Env, v: Vm)
    requires Unpolled(env, v)
    ensures v.phase.Exec?
  {
  }

  lemma UnpolledStep(env: Env, v: Vm, e: Event)
    requires Unpolled(env, v) && Enabled(env, v, e) && Step(env, v, e).phase.Exec?
    ensures Remaining(env.m, Step(env, v, e).frames) < Remaining(env.m, v.frames)
    ensures Step(env, v, e).heap.heapBytes == v.heap.heapBytes
  {
    hide ExecStep, PollRoots, Remaining, OracleOk;
    if CanFetch(env, v) {
      UnpolledProgress(env, v, v.phase.id, e.o);
    } else {
      CannotFetch(env, v, v.phase.id, e.o);
    }
  }

  lemma CannotFetch(env: Env, v: Vm, id: nat, o: Oracle)
    requires !CanFetch(env, v)
    ensures ExecStep(env, v, id, o).phase.Halt?
  {
  }
}
