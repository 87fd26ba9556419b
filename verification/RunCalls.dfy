/**
 One call of a blocking native over a run: however often it is re-executed, it
 transfers at most once, what it was called with, and then the fiber is past it.
 */
module RunCalls {
  import opened Values
  import opened Heaps
  import opened Bytecode
  import opened Schedulers
  import opened SchedulerInvariant
  import opened Machine
  import opened RunScheduler
  import opened RunHandles
  import opened RunChannels
  import opened Runs
  import opened RunHistory

  /** The completed channel calls of one fiber, in order. */
  function CallsOf(log: seq<ChanCall>, id: nat): seq<ChanCall> {
    if log == [] then []
    else if Last(log).fiber == id then CallsOf(Init(log), id) + [Last(log)]
    else CallsOf(Init(log), id)
  }

  lemma CallsStep(log: seq<ChanCall>, e: ChanCall, id: nat)
    ensures CallsOf(log + [e], id) == if e.fiber == id then CallsOf(log, id) + [e] else CallsOf(log, id)
  {
    assert Init(log + [e]) == log;
  }

  // ----- whose call it was -----

  lemma NativeOwnsCall(k: Native, id: nat, args: seq<Value>, h: HeapState, s: Sched, o: Oracle)
    ensures var r := RunNative(k, id, args, h, s, o); r.NativeOk? && r.call.Some? ==> r.call.value.fiber == id
  {
    hide WakeAll, WakePolls, SpawnFiber, AllocState, AllocHandle, NewChannel, Ints;
  }

  lemma LogKeepsOthers(log: seq<ChanCall>, call: Option<ChanCall>, id: nat, other: nat)
    requires call.Some? ==> call.value.fiber == id
    requires other != id
    ensures CallsOf(LogWith(log, call), other) == CallsOf(log, other)
  {
    if call.Some? {
      CallsStep(log, call.value, other);
    }
  }

  lemma {:induction false} NestedOwnsCalls(
      id: nat, calls: seq<NestedCall>, h: HeapState, s: Sched, log: seq<ChanCall>, other: nat)
    requires other != id
    ensures var r := RunNested(id, calls, h, s, log); r.NestedOk? ==> CallsOf(r.log, other) == CallsOf(log, other)
  {
    if calls == [] {
    } else {
      hide RunNative, CallsOf;
      NestedOwnsCalls(id, Init(calls), h, s, log, other);
      var r, c := RunNested(id, Init(calls), h, s, log), Last(calls);
      if r.NestedOk? {
        NativeOwnsCall(c.native, id, c.args, r.heap, r.sched, c.o);
        var n := RunNative(c.native, id, c.args, r.heap, r.sched, c.o);
        if n.NativeOk? {
          LogKeepsOthers(r.log, n.call, id, other);
        }
      }
    }
  }

  lemma NativeStepOwnsCalls(env: Env, v: Vm, id: nat, native: nat, argc: nat, o: Oracle, other: nat)
    requires v.frames != [] && Last(v.frames).pc > 0 && other != id
    ensures CallsOf(NativeStep(env, v, id, native, argc, o).log, other) == CallsOf(v.log, other)
  {
    hide RunNative, CallsOf, ParkCurrent;
    if argc <= |v.vstack| && native < |env.natives| {
      var base, k := |v.vstack| - argc, env.natives[native];
      var r := RunNative(k, id, v.vstack[base..], v.heap, v.sched, o);
      NativeOwnsCall(k, id, v.vstack[base..], v.heap, v.sched, o);
      if r.NativeOk? {
        LogKeepsOthers(v.log, r.call, id, other);
        if r.park.Some? && id < |r.sched.fibers| {
          var v1 := v.(heap := r.heap, log := LogWith(v.log, r.call));
          ParkLog(v1, id, r.sched, v.vstack, SetPc(v.frames, Last(v.frames).pc - 1), r.park.value);
          ParkLog(v1, id, r.sched, v.vstack[..base] + [r.ret], v.frames, r.park.value);
        }
      }
    }
  }

  lemma InstrOwnsCalls(env: Env, v: Vm, id: nat, i: Instr, o: Oracle, other: nat)
    requires v.frames != [] && !i.CallNative? && other != id
    ensures CallsOf(InstrStep(env, v, id, i, o).log, other) == CallsOf(v.log, other)
  {
    hide RunNested, Perform, CallsOf, FallsBack;
    NestedOwnsCalls(id, o.nested, v.heap, v.sched, v.log, other);
  }

  /** Only the running fiber makes calls. */
  lemma StepOwnsCalls(env: Env, v: Vm, e: Event, other: nat)
    requires SchedOk(v) && !v.phase.Halt? && Enabled(env, v, e) && v.phase != Exec(other)
    ensures CallsOf(Step(env, v, e).log, other) == CallsOf(v.log, other)
  {
    hide CallsOf, SchedOk, NativeStep, InstrStep, AfterFetch, OracleOk, HeapMoves, Dequeue, EnterFrame, DeliverIo;
    if e.DoInstr? && CanFetch(env, v) {
      var i, v1 := NextInstr(env, v), AfterFetch(env, v);
      FetchOk(env, v);
      if !v1.phase.Halt? {
        if i.CallNative? {
          NativeStepOwnsCalls(env, v1, v.phase.id, i.native, i.argc, e.o, other);
        } else {
          InstrOwnsCalls(env, v1, v.phase.id, i, e.o, other);
        }
      }
    }
  }

  // ----- one call over a run -----

  /** The running fiber is about to send or receive. */
  predicate Calling(env: Env, v: Vm, id: nat) {
    && v.phase == Exec(id) && CanFetch(env, v) && NextInstr(env, v).CallNative?
    && NextInstr(env, v).argc <= |v.vstack| && NextInstr(env, v).native < |env.natives|
    && (CalledNative(env, v).Send? || CalledNative(env, v).Receive?)
  }

  function CalledNative(env: Env, v: Vm): Native
    requires CanFetch(env, v) && NextInstr(env, v).CallNative? && NextInstr(env, v).native < |env.natives|
  {
    env.natives[NextInstr(env, v).native]
  }

  /** The fiber of `v` is still at its call: running at it, or parked with the stacks it called with. */
  predicate AtCall(v: Vm, id: nat, u: Vm) {
    && !u.phase.Halt? && id < |u.sched.fibers|
    && (if u.phase == Exec(id) then u.vstack == v.vstack && u.frames == v.frames
        else u.sched.fibers[id].state == Suspended(v.vstack, v.frames) && !u.sched.fibers[id].pending)
  }

  /** What the program sees when it takes an `Option` apart: a `Some` of `x`, or a `None`. */
  predicate ReadsSome(h: HeapState, v: Value, x: Value) {
    && Fetch(h, v).Found? && Fetch(h, v).obj.EnumObj? && Fetch(h, v).obj.ty == 1
    && ReadOp(EnumTag, [v], h) == Push([Int(0)], h) && ReadOp(EnumGet(0), [v], h) == Push([x], h)
  }

  predicate ReadsNone(h: HeapState, v: Value) {
    && Fetch(h, v).Found? && Fetch(h, v).obj.EnumObj? && Fetch(h, v).obj.ty == 1
    && ReadOp(EnumTag, [v], h) == Push([Int(1)], h)
  }

  /** The last value taken off channel `c` is `x`, and all that were taken are the first that were sent. */
  predicate LastTaken(log: seq<ChanCall>, c: nat, x: Value) {
    ReceivedOn(log, c) != [] && Last(ReceivedOn(log, c)) == x && ReceivedOn(log, c) <= SentOn(log, c)
  }

  /** A receive handed the program `x`, which is the call's own entry and the next value sent. */
  predicate Handed(v: Vm, id: nat, c: nat, w: Vm, x: Value)
    requires w.vstack != []
  {
    && ReadsSome(w.heap, Last(w.vstack), x) && CallsOf(w.log, id) == CallsOf(v.log, id) + [RecvCall(id, c, x)]
    && LastTaken(w.log, c, x)
  }

  /**
   The fiber is past the call, its arguments replaced by the answer.  A send
   transferred its own value.  A receive answers `Some` of the value it took,
   the next one sent, or `None` having taken nothing.
   */
  ghost predicate Transferred(env: Env, v: Vm, id: nat, w: Vm)
    requires Calling(env, v, id)
  {
    var n := |v.vstack| - NextInstr(env, v).argc;
    var args := v.vstack[n..];
    && w.phase == Exec(id) && w.frames == SetPc(v.frames, Last(v.frames).pc + 1)
    && |w.vstack| == n + 1 && w.vstack[..n] == v.vstack[..n]
    && (if CalledNative(env, v).Send? then
          && |args| == 2 && args[0].Int? && args[0].n >= 0 && Last(w.vstack) == Unit
          && CallsOf(w.log, id) == CallsOf(v.log, id) + [SendCall(id, args[0].n, args[1])]
        else
          && |args| == 1 && args[0].Int? && args[0].n >= 0
          && ((ReadsNone(w.heap, Last(w.vstack)) && CallsOf(w.log, id) == CallsOf(v.log, id))
              || exists x :: Handed(v, id, args[0].n, w, x)))
  }

  /** What one attempt asks for, answers and reports. */
  lemma AttemptResult(k: Native, id: nat, args: seq<Value>, h: HeapState, s: Sched, o: Oracle) returns (x: Value)
    requires (k.Send? || k.Receive?) && FreeListOk(h)
    ensures var r := RunNative(k, id, args, h, s, o);
            r.NativeOk? ==>
              && (r.park.None? || (r.park == Some(BlockRetry) && r.call.None?))
              && |args| == (if k.Send? then 2 else 1) && args[0].Int? && args[0].n >= 0
              && (r.park.None? && k.Send? ==> r.ret == Unit && r.call == Some(SendCall(id, args[0].n, args[1])))
              && (r.park.None? && k.Receive? ==>
                    if r.call.Some? then r.call == Some(RecvCall(id, args[0].n, x)) && ReadsSome(r.heap, r.ret, x)
                    else ReadsNone(r.heap, r.ret))
  {
    hide WakeAll, AllocState, AllocHandle, FreeListOk;
    x := Unit;
    if k.Receive? && |args| == 1 && args[0].Int? && 0 <= args[0].n < |s.channels| {
      var out := TryReceive(s, args[0].n).1;
      if out.Got? {
        x := out.value;
        AllocCorrect(h, SomeObj(x), o.bytes);
      } else {
        AllocCorrect(h, NoneObj(), o.bytes);
      }
    }
  }

  /** After a receive the books say which of the values sent it was. */
  lemma TakenInOrder(cs: seq<Chan>, log: seq<ChanCall>, id: nat, c: nat, x: Value)
    requires Conserved(cs, log + [RecvCall(id, c, x)])
    ensures LastTaken(log + [RecvCall(id, c, x)], c, x)
  {
    LogStep(log, RecvCall(id, c, x), c);
  }

  /** What a run keeps and these results rest on. */
  ghost predicate Sound(env: Env, v: Vm) { SchedOk(v) && HandlesOk(v) && ChannelsOk(env, v) }

  /** An attempt ends the run, parks the fiber where it was, or transfers and passes the call. */
  lemma AttemptStep(env: Env, v: Vm, id: nat, u: Vm, o: Oracle)
    requires Calling(env, v, id) && Sound(env, u) && u.phase == Exec(id) && AtCall(v, id, u)
    requires CallsOf(u.log, id) == CallsOf(v.log, id)
    ensures var w := ExecStep(env, u, id, o);
            || w.phase.Halt? || Transferred(env, v, id, w)
            || (AtCall(v, id, w) && CallsOf(w.log, id) == CallsOf(u.log, id))
  {
    hide RunNative, CallsOf, ParkCurrent, AfterFetch, SchedInv, HandlesOk, HeapGood, WaitersOk, Conserved, LastTaken;
    hide ReadsSome, ReadsNone, FreeListOk;
    FetchOk(env, u);
    FetchKeepsHandles(env, u);
    var i, u1 := NextInstr(env, u), AfterFetch(env, u);
    assert i == NextInstr(env, v);
    if !u1.phase.Halt? {
      var base, k := |u.vstack| - i.argc, env.natives[i.native];
      var args := u.vstack[base..];
      var r := RunNative(k, id, args, u1.heap, u1.sched, o);
      HeapListed(u1);
      var x := AttemptResult(k, id, args, u1.heap, u1.sched, o);
      NativeKeeps(k, id, args, u1.heap, u1.sched, o);
      NativeConserves(k, id, args, u1.heap, u1.sched, o, u1.log);
      if r.NativeOk? {
        var u2 := u1.(heap := r.heap, log := LogWith(u1.log, r.call));
        if r.park.Some? {
          var back := SetPc(u1.frames, Last(u1.frames).pc - 1);
          assert back == u.frames by { Rewound(u.frames); }
          RunningPlain(r.sched, id);
          ParkLog(u2, id, r.sched, u1.vstack, back, r.park.value);
          ParkNotPending(u2, id, r.sched, u1.vstack, back);
        } else if r.call.Some? {
          CallsStep(u1.log, r.call.value, id);
          if k.Receive? {
            TakenInOrder(r.sched.channels, u1.log, id, args[0].n, x);
            assert Handed(v, id, args[0].n, ExecStep(env, u, id, o), x);
          }
        }
      }
    }
  }

  lemma HeapListed(v: Vm)
    requires HandlesOk(v)
    ensures FreeListOk(v.heap)
  {
  }

  lemma Rewound(frames: seq<Frame>)
    requires frames != []
    ensures var on := SetPc(frames, Last(frames).pc + 1);
            on != [] && Last(on).pc > 0 && SetPc(on, Last(on).pc - 1) == frames
  {
    assert frames == Init(frames) + [Last(frames)];
    assert Init(SetPc(frames, Last(frames).pc + 1)) == Init(frames);
  }

  lemma ParkNotPending(v: Vm, id: nat, s: Sched, vstack: seq<Value>, frames: seq<Frame>)
    requires id < |s.fibers|
    ensures ParkCurrent(v, id, s, vstack, frames, BlockRetry).sched.fibers[id].pending == s.fibers[id].pending
  {
  }

  /** While parked at the call, the fiber stays at it, or is resumed at it. */
  lemma WaitStep(env: Env, v: Vm, id: nat, u: Vm, e: Event)
    requires Calling(env, v, id) && SchedOk(u) && AtCall(v, id, u) && u.phase != Exec(id) && Enabled(env, u, e)
    ensures var w := Step(env, u, e);
            w.phase.Halt? || (AtCall(v, id, w) && CallsOf(w.log, id) == CallsOf(u.log, id))
  {
    hide CallsOf, SchedInv, Dequeue, ExecStep, HeapMoves, OracleOk;
    StepOwnsCalls(env, u, e, id);
    StepMoves(env, u, e);
    var w := Step(env, u, e);
    if !w.phase.Halt? {
      StepKeepsSched(env, u, e);
      if Schedules(u, e) {
        DequeueKeeps(u.sched);
        assert u.sched.ready[0] == id || w.sched.fibers[id] == u.sched.fibers[id];
      } else if e.IoDone? {
        assert e.id != id;
      }
      assert w.phase == Exec(id) ==> Schedules(u, e) && u.sched.ready[0] == id by {
        assert w.phase == Exec(id) ==> w.sched.fibers[id].state.Running?;
      }
    }
  }

  /**
   As long as the fiber is at its call it has transferred nothing.  The step that
   takes it off the call ends the run or transfers exactly once, and then the
   fiber runs past the call with the answer on its stack.
   */
  lemma {:induction false} CallTransfersOnce(env: Env, v: Vm, id: nat, events: seq<Event>)
    requires Calling(env, v, id) && Sound(env, v) && RunOf(env, v, events)
    requires forall k :: 0 <= k < |events| ==> AtCall(v, id, After(env, v, events[..k]))
    ensures var w := After(env, v, events);
            || w.phase.Halt? || Transferred(env, v, id, w)
            || (AtCall(v, id, w) && CallsOf(w.log, id) == CallsOf(v.log, id))
  {
    hide SchedOk, HandlesOk, ChannelsOk, Step, Enabled, Transferred, CallsOf, AtCall;
    if events == [] {
      assert AtCall(v, id, v) by { StartsAtCall(env, v, id); }
    } else {
      var u, e := After(env, v, Init(events)), Last(events);
      RunPrefix(env, v, events);
      assert events[..|events| - 1] == Init(events);
      forall k | 0 <= k < |Init(events)| ensures AtCall(v, id, After(env, v, Init(events)[..k])) {
        assert Init(events)[..k] == events[..k];
      }
      CallTransfersOnce(env, v, id, Init(events));
      RunKeepsSound(env, v, Init(events));
      NotTransferred(env, v, id, u);
      if u.phase == Exec(id) {
        ExecIsInstr(env, u, e);
        AttemptStep(env, v, id, u, e.o);
      } else {
        WaitStep(env, v, id, u, e);
      }
    }
  }

  lemma {:induction false} RunKeepsSound(env: Env, v: Vm, events: seq<Event>)
    requires Sound(env, v) && RunOf(env, v, events)
    ensures !After(env, v, events).phase.Halt? ==> Sound(env, After(env, v, events))
  {
    if events == [] {
    } else {
      hide SchedOk, HandlesOk, ChannelsOk, Step, Enabled;
      RunPrefix(env, v, events);
      RunKeepsSound(env, v, Init(events));
      var u := After(env, v, Init(events));
      StepKeepsSched(env, u, Last(events));
      StepKeepsHandles(env, u, Last(events));
      StepKeepsChannels(env, u, Last(events));
    }
  }

  lemma StartsAtCall(env: Env, v: Vm, id: nat)
    requires Calling(env, v, id) && SchedOk(v)
    ensures AtCall(v, id, v)
  {
  }

  lemma NotTransferred(env: Env, v: Vm, id: nat, u: Vm)
    requires Calling(env, v, id) && AtCall(v, id, u)
    ensures !Transferred(env, v, id, u) && !u.phase.Halt?
  {
    if u.phase == Exec(id) {
      assert Last(SetPc(v.frames, Last(v.frames).pc + 1)).pc == Last(u.frames).pc + 1;
    }
  }

  lemma ExecIsInstr(env: Env, v: Vm, e: Event)
    requires v.phase.Exec? && Enabled(env, v, e)
    ensures e.DoInstr? && Step(env, v, e) == ExecStep(env, v, v.phase.id, e.o)
  {
  }

  // ----- joins -----

  /** Once a fiber has finished, every later join of it answers what it finished with. */
  lemma JoinAnswersResult(env: Env, v: Vm, events: seq<Event>, target: nat, id: nat, h: HeapState, o: Oracle)
    requires SchedOk(v) && RunOf(env, v, events) && target < POW63
    requires target < |v.sched.fibers| && v.sched.fibers[target].state.Done?
    ensures var s := After(env, v, events).sched;
            RunNative(Join, id, [Int(target)], h, s, o) == Quiet(h, s, v.sched.fibers[target].state.value)
  {
    hide SchedOk, After, RunOf, WorkersFixed, ClosedFixed;
    RunForward(env, v, events);
  }
}
