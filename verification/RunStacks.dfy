/**
 Stack discipline over whole runs: every fiber's shared value stack, running
 or parked, is the flattening of consistent separate stacks, across calls,
 closure splices, native parks and retries, resumes and I/O delivery.
 */
module RunStacks {
  import opened Values
  import opened Heaps
  import opened Bytecode
  import opened Schedulers
  import opened SchedulerInvariant
  import opened Machine
  import opened Stacks
  import opened RunScheduler

  ghost predicate Shapes(m: Module, d: Depths, fs: seq<SFrame>, vs: seq<Value>, frs: seq<Frame>)
    requires |d| == |m.functions|
  {
    StackOk(m, d, fs) && vs == FlatValues(fs) && frs == FlatFrames(fs)
  }

  /** The shared stack is a flattening of consistent separate stacks. */
  ghost predicate Shaped(m: Module, d: Depths, vs: seq<Value>, frs: seq<Frame>)
    requires |d| == |m.functions|
  {
    exists fs :: Shapes(m, d, fs, vs, frs)
  }

  /** As `Shaped`, with an operand on top for the value a worker will deliver. */
  ghost predicate ShapedIo(m: Module, d: Depths, vs: seq<Value>, frs: seq<Frame>)
    requires |d| == |m.functions|
  {
    exists fs :: Shapes(m, d, fs, vs, frs) && Last(fs).operands != []
  }

  ghost predicate FiberShaped(m: Module, d: Depths, f: Fiber)
    requires |d| == |m.functions|
  {
    match f.state
    case Suspended(vs, frs) => if f.pending then ShapedIo(m, d, vs, frs) else Shaped(m, d, vs, frs)
    case _ => true
  }

  ghost predicate StacksOk(env: Env, d: Depths, v: Vm)
    requires |d| == |env.m.functions|
  {
    && (if v.phase.Exec? then Shaped(env.m, d, v.vstack, v.frames) else v.vstack == [] && v.frames == [])
    && (forall id: nat :: id < |v.sched.fibers| ==> FiberShaped(env.m, d, v.sched.fibers[id]))
  }

  // ----- one instruction -----

  /** Advance the active frame's `pc`. */
  function Advance(fs: seq<SFrame>): seq<SFrame>
    requires fs != []
  {
    Init(fs) + [Last(fs).(pc := Last(fs).pc + 1)]
  }

  lemma FetchShape(env: Env, d: Depths, v: Vm, fs: seq<SFrame>)
    requires DepthsOk(env.m, d) && Shapes(env.m, d, fs, v.vstack, v.frames)
    ensures CanFetch(env, v) && Fetching(env.m, d, Advance(fs), NextInstr(env, v))
    ensures v.vstack == FlatValues(Advance(fs))
    ensures SetPc(v.frames, Last(v.frames).pc + 1) == FlatFrames(Advance(fs))
  {
    var rest, top := Init(fs), Last(fs);
    assert fs == rest + [top];
    FlatSnoc(rest, top);
    FlatSnoc(rest, top.(pc := top.pc + 1));
    assert Last(Advance(fs)).(pc := Last(Advance(fs)).pc - 1) == top;
  }

  /** What the invariant says of the machine after `AfterFetch`. */
  lemma AfterFetchShape(env: Env, d: Depths, v: Vm, fs: seq<SFrame>)
    requires DepthsOk(env.m, d) && SchedOk(v) && Shapes(env.m, d, fs, v.vstack, v.frames)
    ensures CanFetch(env, v)
    ensures var w := AfterFetch(env, v);
            && w.vstack == FlatValues(Advance(fs)) && w.frames == FlatFrames(Advance(fs))
            && Fetching(env.m, d, Advance(fs), NextInstr(env, v))
  {
    FetchShape(env, d, v, fs);
    FetchOk(env, v);
  }

  /** Popping a native's arguments and pushing its result moves to the next depth. */
  lemma NativeShape(m: Module, d: Depths, fs: seq<SFrame>, i: Instr, ret: Value)
    requires DepthsOk(m, d) && Fetching(m, d, fs, i) && i.CallNative?
    ensures var vs := FlatValues(fs);
            && i.argc <= |vs|
            && ShapedIo(m, d, vs[..|vs| - i.argc] + [ret], FlatFrames(fs))
  {
    hide FlatValues, FlatFrames;
    var rest, top := Init(fs), Last(fs);
    assert fs == rest + [top];
    FetchingTop(m, d, rest, top, i);
    var n: nat := |top.operands| - i.argc;
    var popped := top.(operands := top.operands[..n]);
    PopTop(rest, top, i.argc);
    PushTop(rest, popped, [ret]);
    var done := popped.(operands := popped.operands + [ret]);
    TopKeeps(m, d, rest, done);
    assert Shapes(m, d, rest + [done], FlatValues(rest + [done]), FlatFrames(rest + [done]));
  }

  /** Rewinding `pc` to retry the native restores the stacks it started from. */
  lemma RetryShape(m: Module, d: Depths, fs: seq<SFrame>, i: Instr)
    requires DepthsOk(m, d) && Fetching(m, d, fs, i)
    ensures FlatFrames(fs) != [] && Last(FlatFrames(fs)).pc > 0
    ensures Shaped(m, d, FlatValues(fs), SetPc(FlatFrames(fs), Last(FlatFrames(fs)).pc - 1))
  {
    var rest, top := Init(fs), Last(fs);
    assert fs == rest + [top];
    var back := top.(pc := top.pc - 1);
    FetchingTop(m, d, rest, top, i);
    FlatSnoc(rest, top);
    FlatSnoc(rest, back);
    TopKeeps(m, d, rest, back);
    assert Shapes(m, d, rest + [back], FlatValues(rest + [back]), FlatFrames(rest + [back]));
  }

  /** Fibers other than `id` keep their shapes. */
  lemma OthersShaped(m: Module, d: Depths, s: Sched, t: Sched, id: nat)
    requires |d| == |m.functions| && |s.fibers| <= |t.fibers|
    requires forall j: nat :: j < |s.fibers| ==> FiberShaped(m, d, s.fibers[j])
    requires forall j: nat :: j < |s.fibers| && j != id ==>
                                t.fibers[j].state == s.fibers[j].state && t.fibers[j].pending == s.fibers[j].pending
    requires forall j: nat :: |s.fibers| <= j < |t.fibers| ==> t.fibers[j].state.NotStarted?
    requires id < |t.fibers| ==> FiberShaped(m, d, t.fibers[id])
    ensures forall j: nat :: j < |t.fibers| ==> FiberShaped(m, d, t.fibers[j])
  {
  }

  lemma GrownShaped(m: Module, d: Depths, s: Sched, t: Sched)
    requires |d| == |m.functions| && Grows(s, t)
    requires forall j: nat :: j < |s.fibers| ==> FiberShaped(m, d, s.fibers[j])
    ensures forall j: nat :: j < |t.fibers| ==> FiberShaped(m, d, t.fibers[j])
  {
    forall j: nat | j < |t.fibers|
      ensures FiberShaped(m, d, t.fibers[j])
    {
      if j < |s.fibers| {
        assert t.fibers[j].state == s.fibers[j].state;
      }
    }
  }

  lemma ParkShaped(env: Env, d: Depths, v: Vm, id: nat, s: Sched, vstack: seq<Value>, frames: seq<Frame>, req: ParkRequest)
    requires |d| == |env.m.functions| && id < |s.fibers|
    requires forall j: nat :: j < |s.fibers| ==> FiberShaped(env.m, d, s.fibers[j])
    requires if req.Await? then ShapedIo(env.m, d, vstack, frames) else Shaped(env.m, d, vstack, frames)
    requires !s.fibers[id].pending
    ensures StacksOk(env, d, ParkCurrent(v, id, s, vstack, frames, req))
  {
    hide AddPoll, AddPolls;
    OthersShaped(env.m, d, s, ParkCurrent(v, id, s, vstack, frames, req).sched, id);
  }

  lemma IoShapeIsShape(m: Module, d: Depths, vs: seq<Value>, frs: seq<Frame>)
    requires |d| == |m.functions| && ShapedIo(m, d, vs, frs)
    ensures Shaped(m, d, vs, frs)
  {
  }

  lemma NativeStepShaped(env: Env, d: Depths, v: Vm, id: nat, fs: seq<SFrame>, i: Instr, o: Oracle)
    requires DepthsOk(env.m, d) && Fetching(env.m, d, fs, i) && i.CallNative?
    requires v.phase == Exec(id) && SchedOk(v)
    requires v.vstack == FlatValues(fs) && v.frames == FlatFrames(fs)
    requires forall j: nat :: j < |v.sched.fibers| ==> FiberShaped(env.m, d, v.sched.fibers[j])
    ensures v.frames != [] && Last(v.frames).pc > 0
    ensures var w := NativeStep(env, v, id, i.native, i.argc, o);
            && (!w.phase.Halt? ==> StacksOk(env, d, w))
            && (w.phase.Halt? ==> w.phase.outcome.Trapped? && !StackBug(w.phase.outcome.trap))
  {
    hide RunNative, FlatValues, FlatFrames, Shaped, ShapedIo, FiberShaped, FunctionOk, ParkCurrent, SchedInv;
    NativeShape(env.m, d, fs, i, Unit);
    RetryShape(env.m, d, fs, i);
    if i.native < |env.natives| {
      var base := |v.vstack| - i.argc;
      var r := RunNative(env.natives[i.native], id, v.vstack[base..], v.heap, v.sched, o);
      NativeKeeps(env.natives[i.native], id, v.vstack[base..], v.heap, v.sched, o);
      NativeTraps(env.natives[i.native], id, v.vstack[base..], v.heap, v.sched, o);
      if r.NativeOk? {
        NativeShape(env.m, d, fs, i, r.ret);
        IoShapeIsShape(env.m, d, v.vstack[..base] + [r.ret], v.frames);
        GrownShaped(env.m, d, v.sched, r.sched);
        RunningPlain(v.sched, id);
        if r.park.Some? {
          var v1 := v.(heap := r.heap, log := LogWith(v.log, r.call));
          if r.park.value.BlockRetry? || r.park.value.Ready? {
            ParkShaped(env, d, v1, id, r.sched, v.vstack, SetPc(v.frames, Last(v.frames).pc - 1), r.park.value);
            ParkHasPick(v1, id, r.sched, v.vstack, SetPc(v.frames, Last(v.frames).pc - 1), r.park.value);
          } else {
            ParkShaped(env, d, v1, id, r.sched, v.vstack[..base] + [r.ret], v.frames, r.park.value);
            ParkHasPick(v1, id, r.sched, v.vstack[..base] + [r.ret], v.frames, r.park.value);
          }
        }
      }
    }
  }

  lemma ParkHasPick(v: Vm, id: nat, s: Sched, vstack: seq<Value>, frames: seq<Frame>, req: ParkRequest)
    requires id < |s.fibers|
    ensures ParkCurrent(v, id, s, vstack, frames, req).phase.Pick?
  {
  }

  lemma NativeTraps(k: Native, id: nat, args: seq<Value>, h: HeapState, s: Sched, o: Oracle)
    ensures var r := RunNative(k, id, args, h, s, o); r.NativeFail? ==> !StackBug(r.trap) && r.trap != Bug(Deadlock)
  {
    hide WakeAll, WakePolls, SpawnFiber, AllocState, AllocHandle;
  }

  /** Absorbing the flattened reference effect keeps every fiber in shape. */
  lemma AbsorbShaped(env: Env, d: Depths, v: Vm, id: nat, e: SEffect)
    requires |d| == |env.m.functions| && v.phase == Exec(id) && SchedOk(v)
    requires forall j: nat :: j < |v.sched.fibers| ==> FiberShaped(env.m, d, v.sched.fibers[j])
    requires KeepsDepths(env.m, d, e)
    ensures var w := Absorb(v, id, Flat(e));
            && (!w.phase.Halt? ==> StacksOk(env, d, w))
            && (w.phase.Halt? && w.phase.outcome.Trapped? ==> !StackBug(w.phase.outcome.trap))
  {
    hide FlatValues, FlatFrames;
    match e
    case SGo(fs, h) => assert Shapes(env.m, d, fs, FlatValues(fs), FlatFrames(fs));
    case SStop(t) =>
    case SFinish(value) =>
      CompleteKeeps(v.sched, id, value);
      OthersShaped(env.m, d, v.sched, CompleteFiber(v.sched, id, value), id);
  }

  lemma {:induction false} NestedTraps(id: nat, calls: seq<NestedCall>, h: HeapState, s: Sched, log: seq<ChanCall>)
    ensures var r := RunNested(id, calls, h, s, log);
            r.NestedFail? ==> !StackBug(r.trap) && r.trap != Bug(Deadlock)
  {
    if calls == [] {
    } else {
      hide RunNative;
      NestedTraps(id, Init(calls), h, s, log);
      var r, c := RunNested(id, Init(calls), h, s, log), Last(calls);
      if r.NestedOk? {
        NativeTraps(c.native, id, c.args, r.heap, r.sched, c.o);
      }
    }
  }

  lemma AfterNestedShaped(env: Env, d: Depths, v: Vm, id: nat, i: Instr, o: Oracle)
    requires |d| == |env.m.functions| && SchedOk(v) && v.phase == Exec(id)
    requires forall j: nat :: j < |v.sched.fibers| ==> FiberShaped(env.m, d, v.sched.fibers[j])
    ensures var w := AfterNested(env, v, id, i, o);
            && (w.phase.Halt? ==> w.phase.outcome.Trapped? && !StackBug(w.phase.outcome.trap))
            && (!w.phase.Halt? ==> SchedOk(w) && w.phase == v.phase
                                   && forall j: nat :: j < |w.sched.fibers| ==> FiberShaped(env.m, d, w.sched.fibers[j]))
  {
    hide SchedOk, RunNested, FallsBack, FiberShaped, Grows;
    AfterNestedOk(env, v, id, i, o);
    NestedTraps(id, o.nested, v.heap, v.sched, v.log);
    var w := AfterNested(env, v, id, i, o);
    if !w.phase.Halt? {
      GrownShaped(env.m, d, v.sched, w.sched);
    }
  }

  lemma ExecShaped(env: Env, d: Depths, v: Vm, id: nat, o: Oracle)
    requires DepthsOk(env.m, d) && SchedOk(v) && v.phase == Exec(id) && StacksOk(env, d, v)
    ensures var w := ExecStep(env, v, id, o);
            && (!w.phase.Halt? ==> StacksOk(env, d, w))
            && (w.phase.Halt? && w.phase.outcome.Trapped? ==> !StackBug(w.phase.outcome.trap))
  {
    hide FunctionOk, SchedOk, NativeStep, Absorb, Perform, AfterFetch, FiberShaped, KeepsDepths, SPerform, AfterNested;
    var fs :| Shapes(env.m, d, fs, v.vstack, v.frames);
    AfterFetchShape(env, d, v, fs);
    FetchOk(env, v);
    var i, v1 := NextInstr(env, v), AfterFetch(env, v);
    if !v1.phase.Halt? {
      if i.CallNative? {
        NativeStepShaped(env, d, v1, id, Advance(fs), i, o);
      } else {
        SharedRefinesSeparate(env, d, Advance(fs), i, v1.heap, o);
        AfterNestedShaped(env, d, v1, id, i, o);
        var v2 := AfterNested(env, v1, id, i, o);
        if !v2.phase.Halt? {
          AbsorbShaped(env, d, v2, id, SPerform(env, i, Advance(fs), v1.heap, o));
        }
      }
    }
  }

  // ----- the driver -----

  lemma StartShape(env: Env, d: Depths, func: nat, args: seq<Value>)
    requires DepthsOk(env.m, d)
    ensures var e := EnterFrame(args, env.m, func, |args|);
            && (e.Entered? ==> Shaped(env.m, d, e.vstack, [e.frame]))
            && (e.Refused? ==> !StackBug(e.trap))
  {
    if func < |env.m.functions| && |args| == env.m.functions[func].paramCount {
      var lc: nat := env.m.functions[func].localCount;
      var f := SFrame(func, 0, Resize(args, lc), []);
      assert FunctionOk(env.m, env.m.functions[func], d[func]);
      CalleeFlat([], func, args, lc);
      assert FlatValues([]) == [] && FlatFrames([]) == [];
      assert [] + args == args && [] + [f] == [f];
      assert StackOk(env.m, d, [f]);
      assert Shapes(env.m, d, [f], Resize(args, lc), [Frame(func, 0, 0)]);
    }
  }

  lemma ResumeShaped(env: Env, d: Depths, v: Vm)
    requires DepthsOk(env.m, d) && SchedOk(v) && v.phase.Pick? && StacksOk(env, d, v) && v.sched.ready != []
    ensures var w := PickStep(env, v);
            && (!w.phase.Halt? ==> StacksOk(env, d, w))
            && (w.phase.Halt? && w.phase.outcome.Trapped? ==> !StackBug(w.phase.outcome.trap))
  {
    hide SchedInv, Dequeue, FunctionOk, EnterFrame;
    var s, id := v.sched, v.sched.ready[0];
    DequeueKeeps(s);
    OthersShaped(env.m, d, s, Dequeue(s), id);
    match s.fibers[id].state
    case NotStarted(c) =>
      var o := Fetch(v.heap, c);
      if o.Found? && o.obj.ClosureObj? {
        assert v.vstack + o.obj.captures == o.obj.captures;
        StartShape(env, d, o.obj.func, o.obj.captures);
      }
    case Suspended(vs, frs) =>
      var fs :| Shapes(env.m, d, fs, vs, frs);
      FlatLength(fs);
    case _ =>
  }

  /** Delivery replaces the one placeholder operand and nothing else. */
  lemma DeliverShape(m: Module, d: Depths, vs: seq<Value>, frs: seq<Frame>, v: Value)
    requires |d| == |m.functions| && ShapedIo(m, d, vs, frs) && vs != []
    ensures Shaped(m, d, Init(vs) + [v], frs)
  {
    var fs :| Shapes(m, d, fs, vs, frs) && Last(fs).operands != [];
    var rest, top := Init(fs), Last(fs);
    assert fs == rest + [top];
    var popped := top.(operands := Init(top.operands));
    PopTop(rest, top, 1);
    PushTop(rest, popped, [v]);
    var full := popped.(operands := popped.operands + [v]);
    assert forall k :: 0 <= k < |rest| ==> fs[k] == rest[k];
    TopKeeps(m, d, rest, full);
    assert Shapes(m, d, rest + [full], FlatValues(rest + [full]), FlatFrames(rest + [full]));
  }

  lemma DeliverShaped(env: Env, d: Depths, v: Vm, id: nat, h: HeapState, value: Value)
    requires |d| == |env.m.functions| && SchedOk(v) && v.phase.Wait? && StacksOk(env, d, v) && id in v.jobs
    ensures StacksOk(env, d, DeliverStep(v, id, h, value))
  {
    DeliverReady(v.sched, id);
    var f := v.sched.fibers[id];
    assert FiberShaped(env.m, d, f);
    DeliverShape(env.m, d, f.state.vstack, f.state.frames, value);
    OthersShaped(env.m, d, v.sched, DeliverIo(v.sched, id, value), id);
  }

  lemma OutsideShaped(env: Env, d: Depths, v: Vm, h: int, now: int)
    requires |d| == |env.m.functions| && SchedOk(v) && v.phase.Wait? && StacksOk(env, d, v)
    ensures StacksOk(env, d, v.(sched := WakePoll(v.sched, h)))
    ensures StacksOk(env, d, v.(phase := Pick, sched := WakeTimers(v.sched, now)))
  {
    WakePollKeeps(v.sched, h);
    GrownShaped(env.m, d, v.sched, WakePoll(v.sched, h));
    WakeTimersKeeps(v.sched, now);
    GrownShaped(env.m, d, v.sched, WakeTimers(v.sched, now));
  }

  /** Every transition of depth-consistent bytecode keeps all stacks consistent and hits no stack bug. */
  lemma StepKeepsStacks(env: Env, d: Depths, v: Vm, e: Event)
    requires DepthsOk(env.m, d) && SchedOk(v) && StacksOk(env, d, v) && !v.phase.Halt? && Enabled(env, v, e)
    ensures var w := Step(env, v, e);
            && (!w.phase.Halt? ==> StacksOk(env, d, w))
            && (w.phase.Halt? && w.phase.outcome.Trapped? ==> !StackBug(w.phase.outcome.trap))
  {
    hide SchedOk, FiberShaped, FunctionOk;
    match e
    case DoInstr(o) => ExecShaped(env, d, v, v.phase.id, o);
    case DoPick =>
      if v.sched.ready != [] {
        ResumeShaped(env, d, v);
      }
    case SocketReady(h) => OutsideShaped(env, d, v, h, 0);
    case IoDone(id, h, value) =>
      DeliverShaped(env, d, v, id, h, value);
      DeliverOk(v, id, h, value);
    case IoFault(_) =>
    case Tick(now) => OutsideShaped(env, d, v, 0, now);
  }
}
