/**
 The main theorems: what holds in every state of every run of the machine.
 */
module Runs {
  import opened Values
  import opened Heaps
  import opened Bytecode
  import opened Schedulers
  import opened SchedulerInvariant
  import opened Machine
  import opened Stacks
  import opened RunScheduler
  import opened RunHandles
  import opened RunStacks
  import opened RunChannels

  /** Everything that holds while a run is under way. */
  ghost predicate Inv(env: Env, d: Depths, v: Vm)
    requires |d| == |env.m.functions|
  {
    SchedOk(v) && HandlesOk(v) && StacksOk(env, d, v) && ChannelsOk(env, v)
  }

  /**
   How a run may end.  Never by a stack bug, a dangling handle, a corrupt
   scheduler or a fiber that cannot be scheduled; with a value only when the
   main fiber returned it; and with a deadlock report only if every unfinished
   fiber is blocked and no join, receive or send among them can complete.
   */
  ghost predicate EndsWell(env: Env, v: Vm)
    requires v.phase.Halt?
  {
    match v.phase.outcome
    case Returned(value) => |v.sched.fibers| > 0 && v.sched.fibers[MAIN_FIBER].state == Done(value)
    case Trapped(t) =>
      && !StackBug(t) && t != Panic(DanglingHandle) && t != Bug(NotSchedulable)
      && (t == Bug(Deadlock) ==> AllStuck(env, v.sched))
  }

  ghost predicate AllStuck(env: Env, s: Sched) {
    && WaitersOk(env, s)
    && (forall id: nat :: id < |s.fibers| && !s.fibers[id].state.Done? ==>
          id in s.blocked && s.fibers[id].state.Suspended?)
  }

  lemma PickEndsWell(env: Env, d: Depths, v: Vm)
    requires DepthsOk(env.m, d) && Inv(env, d, v) && v.phase.Pick?
    requires PickStep(env, v).phase.Halt?
    ensures EndsWell(env, PickStep(env, v))
  {
    hide SchedInv, HandlesOk, WaitersOk, Conserved, FiberShaped, FunctionOk;
    StepKeepsHandles(env, v, DoPick);
    StepKeepsStacks(env, d, v, DoPick);
    PickOk(env, v);
    if v.sched.ready == [] {
      IdleMeansDeadlock(env, v);
    } else {
      ResumeTraps(env, v);
    }
  }

  /** Loading a fiber never reports a deadlock. */
  lemma ResumeTraps(env: Env, v: Vm)
    requires v.phase.Pick? && v.sched.ready != []
    ensures PickStep(env, v).phase != Halt(Trapped(Bug(Deadlock)))
  {
    hide Dequeue;
  }

  lemma ExecEndsWell(env: Env, d: Depths, v: Vm, id: nat, o: Oracle)
    requires DepthsOk(env.m, d) && Inv(env, d, v) && v.phase == Exec(id) && Enabled(env, v, DoInstr(o))
    requires ExecStep(env, v, id, o).phase.Halt?
    ensures EndsWell(env, ExecStep(env, v, id, o))
  {
    hide SchedOk, HandlesOk, StacksOk, ChannelsOk, FunctionOk, OracleOk, NativeStep, Absorb, Perform, AfterFetch;
    hide RunNested, FallsBack, StackBug;
    StepKeepsHandles(env, v, DoInstr(o));
    StepKeepsStacks(env, d, v, DoInstr(o));
    if CanFetch(env, v) {
      var i, v1 := NextInstr(env, v), AfterFetch(env, v);
      FetchOk(env, v);
      if !v1.phase.Halt? {
        if i.CallNative? {
          NativeStepOk(env, v1, id, i.native, i.argc, o);
          NativeStepTraps(env, v1, id, i.native, i.argc, o);
        } else {
          AfterNestedOk(env, v1, id, i, o);
          NestedTraps(id, o.nested, v1.heap, v1.sched, v1.log);
          var v2 := AfterNested(env, v1, id, i, o);
          if !v2.phase.Halt? {
            AbsorbEnds(env, v1, v2, id, i, o);
          }
        }
      }
    }
  }

  lemma NativeStepTraps(env: Env, v: Vm, id: nat, native: nat, argc: nat, o: Oracle)
    requires v.frames != [] && Last(v.frames).pc > 0 && v.phase.Exec?
    ensures NativeStep(env, v, id, native, argc, o).phase != Halt(Trapped(Bug(Deadlock)))
  {
    hide WakeAll, WakePolls, SpawnFiber, AllocState, AllocHandle, NewChannel, Ints, ParkFiber, ParkIo;
  }

  lemma AbsorbEnds(env: Env, u: Vm, v: Vm, id: nat, i: Instr, o: Oracle)
    requires u.frames != [] && !i.CallNative? && v.phase == Exec(id) && SchedOk(v)
    ensures var w := Absorb(v, id, Perform(env, i, u.vstack, u.frames, u.heap, o));
            && w.phase != Halt(Trapped(Bug(Deadlock))) && w.phase != Halt(Trapped(Bug(NotSchedulable)))
            && (w.phase.Halt? && w.phase.outcome.Returned? ==>
                  |w.sched.fibers| > 0 && w.sched.fibers[MAIN_FIBER].state == Done(w.phase.outcome.value))
  {
    hide Perform, SchedInv;
    PerformTraps(env, i, u.vstack, u.frames, u.heap, o);
    var e := Perform(env, i, u.vstack, u.frames, u.heap, o);
    if e.Finish? {
      CompleteKeeps(v.sched, id, e.value);
    }
  }

  predicate DriverTrap(t: Trap) { t == Bug(Deadlock) || t == Bug(NotSchedulable) }

  lemma PerformTraps(env: Env, i: Instr, vstack: seq<Value>, frames: seq<Frame>, h: HeapState, o: Oracle)
    requires frames != [] && !i.CallNative?
    ensures var e := Perform(env, i, vstack, frames, h, o); e.Stop? ==> !DriverTrap(e.trap)
  {
    hide Apply, Resize, DispatchTarget;
    if IsData(i) && Pops(env.m, i) <= |vstack| {
      ApplyPushes(env, i, vstack[|vstack| - Pops(env.m, i)..], h, o.bytes);
    }
  }

  /** One transition from a good state leads to a good state or a good end. */
  lemma StepSafe(env: Env, d: Depths, v: Vm, e: Event)
    requires DepthsOk(env.m, d) && Inv(env, d, v) && !v.phase.Halt? && Enabled(env, v, e)
    ensures var w := Step(env, v, e); if w.phase.Halt? then EndsWell(env, w) else Inv(env, d, w)
  {
    hide SchedOk, HandlesOk, StacksOk, ChannelsOk, FunctionOk, EndsWell;
    StepKeepsSched(env, v, e);
    StepKeepsHandles(env, v, e);
    StepKeepsStacks(env, d, v, e);
    StepKeepsChannels(env, v, e);
    if Step(env, v, e).phase.Halt? {
      StepEndsWell(env, d, v, e);
    }
  }

  lemma StepEndsWell(env: Env, d: Depths, v: Vm, e: Event)
    requires DepthsOk(env.m, d) && Inv(env, d, v) && !v.phase.Halt? && Enabled(env, v, e)
    requires Step(env, v, e).phase.Halt?
    ensures EndsWell(env, Step(env, v, e))
  {
    hide SchedOk, HandlesOk, StacksOk, ChannelsOk, FunctionOk, ExecStep, PickStep;
    match e
    case DoInstr(o) => ExecEndsWell(env, d, v, v.phase.id, o);
    case DoPick => PickEndsWell(env, d, v);
    case IoDone(id, h, value) => DeliverOk(v, id, h, value);
    case _ =>
  }

  lemma StartGood(env: Env, d: Depths, h: HeapState, func: nat, args: seq<Value>)
    requires DepthsOk(env.m, d) && HeapGood(h) && AllLive(h.slots, args)
    ensures var v := Start(env, h, func, args); if v.phase.Halt? then EndsWell(env, v) else Inv(env, d, v)
  {
    hide HeapGood, FunctionOk;
    StartShape(env, d, func, args);
    var v := Start(env, h, func, args);
    var s := v.sched;
    assert Init(s.fibers) == [];
    assert forall id: nat :: PlaceOf(s, id) == Place(false, false, 0, {});
    assert SchedInv(s);
    assert FiberRoots(s.fibers[0]) == [];
  }

  /**
   Safety of every run of depth-consistent bytecode: from a good heap and live
   arguments, after any possible sequence of events, the machine is in a state
   satisfying the whole invariant, or the run ended well.
   */
  lemma {:induction false} RunSafe(env: Env, d: Depths, h: HeapState, func: nat, args: seq<Value>, events: seq<Event>)
    requires DepthsOk(env.m, d) && HeapGood(h) && AllLive(h.slots, args)
    requires RunOf(env, Start(env, h, func, args), events)
    ensures var v := After(env, Start(env, h, func, args), events);
            if v.phase.Halt? then EndsWell(env, v) else Inv(env, d, v)
  {
    hide Inv, EndsWell, HeapGood, FunctionOk, Step, Enabled, Start;
    var v0 := Start(env, h, func, args);
    if events == [] {
      StartGood(env, d, h, func, args);
    } else {
      RunPrefix(env, v0, events);
      RunSafe(env, d, h, func, args, Init(events));
      StepSafe(env, d, After(env, v0, Init(events)), Last(events));
    }
  }

  lemma RunPrefix(env: Env, v: Vm, events: seq<Event>)
    requires events != [] && RunOf(env, v, events)
    ensures RunOf(env, v, Init(events))
    ensures !After(env, v, Init(events)).phase.Halt? && Enabled(env, After(env, v, Init(events)), Last(events))
  {
    hide After, Enabled;
    var n := |events| - 1;
    assert events[..n] == Init(events);
    forall k | 0 <= k < n
      ensures !After(env, v, Init(events)[..k]).phase.Halt?
      ensures Enabled(env, After(env, v, Init(events)[..k]), Init(events)[k])
    {
      assert Init(events)[..k] == events[..k];
    }
  }
}
