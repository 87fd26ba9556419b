/**
 The scheduler invariant over whole runs of the machine: which fiber runs,
 which are listed where, and which syscalls are out.
 */
module RunScheduler {
  import opened Values
  import opened Heaps
  import opened Bytecode
  import opened Schedulers
  import opened SchedulerInvariant
  import opened Machine

  /**
   The scheduler is consistent, exactly the fiber in phase `Exec` is running,
   the main fiber has not finished, and the jobs out at the workers are exactly
   those of the fibers with a pending finish.
   */
  ghost predicate SchedOk(v: Vm) {
    var fs := v.sched.fibers;
    && SchedInv(v.sched)
    && |fs| > 0 && !fs[MAIN_FIBER].state.Done?
    && (v.phase.Exec? ==> v.phase.id < |fs|)
    && (forall id: nat :: id < |fs| ==> (fs[id].state.Running? <==> v.phase == Exec(id)))
    && (forall id: nat :: id in v.jobs <==> id < |fs| && fs[id].pending)
  }

  /** Fibers keep state, pending flag and sources; new ones are unstarted. */
  predicate Grows(s: Sched, t: Sched) {
    && |s.fibers| <= |t.fibers|
    && (forall id :: 0 <= id < |s.fibers| ==>
          t.fibers[id] == s.fibers[id].(queued := t.fibers[id].queued))
    && (forall id :: |s.fibers| <= id < |t.fibers| ==>
          t.fibers[id].state.NotStarted? && !t.fibers[id].pending)
  }

  lemma {:induction false} WakePollsKeep(s: Sched, handles: seq<int>)
    requires SchedInv(s)
    ensures SchedInv(WakePolls(s, handles)) && SameButQueued(s, WakePolls(s, handles))
    ensures WakePolls(s, handles).channels == s.channels && WakePolls(s, handles).blocked == s.blocked
  {
    if handles == [] {
    } else {
      WakePollsKeep(s, Init(handles));
      WakePollKeeps(WakePolls(s, Init(handles)), Last(handles));
    }
  }

  /** Channel operations keep the invariant whatever they do to the buffers. */
  lemma ChannelOpsKeep(s: Sched, c: nat, v: Value)
    requires SchedInv(s) && c < |s.channels|
    ensures SchedInv(TrySend(s, c, v).0) && SameButQueued(s, TrySend(s, c, v).0)
    ensures SchedInv(TryReceive(s, c).0) && SameButQueued(s, TryReceive(s, c).0)
    ensures SchedInv(CloseChan(s, c)) && SameButQueued(s, CloseChan(s, c))
  {
    var ch := s.channels[c];
    var sent := s.(channels := s.channels[c := ch.(buffer := ch.buffer + [v])]);
    var closed := s.(channels := s.channels[c := ch.(closed := true)]);
    ChannelsKeep(s, sent.channels);
    WakeAllKeeps(sent);
    ChannelsKeep(s, closed.channels);
    WakeAllKeeps(closed);
    if ch.buffer != [] {
      var got := s.(channels := s.channels[c := ch.(buffer := ch.buffer[1..])]);
      ChannelsKeep(s, got.channels);
      WakeAllKeeps(got);
    }
  }

  lemma NativeKeeps(k: Native, id: nat, args: seq<Value>, h: HeapState, s: Sched, o: Oracle)
    requires SchedInv(s)
    ensures var r := RunNative(k, id, args, h, s, o);
            && (r.NativeOk? ==> SchedInv(r.sched) && Grows(s, r.sched))
            && (r.NativeFail? ==> r.trap != Bug(NotSchedulable) && r.trap != Panic(Corrupt))
  {
    hide SchedInv, WakeAll, SpawnFiber, AllocState, AllocHandle;
    match k
    case Spawn =>
      if |args| == 1 {
        SpawnKeeps(s, args[0]);
        assert forall j :: 0 <= j < |s.fibers| ==> SpawnFiber(s, args[0]).fibers[..|s.fibers|][j] == s.fibers[j];
      }
    case ChanNew =>
      if |args| == 1 && args[0].Int? {
        ChannelsKeep(s, NewChannel(s, if args[0].n < 0 then 0 else args[0].n).channels);
      }
    case Send =>
      if |args| == 2 && args[0].Int? && 0 <= args[0].n < |s.channels| {
        ChannelOpsKeep(s, args[0].n, args[1]);
      }
    case Receive =>
      if |args| == 1 && args[0].Int? && 0 <= args[0].n < |s.channels| {
        ChannelOpsKeep(s, args[0].n, Unit);
      }
    case CloseChannel =>
      if |args| == 1 && args[0].Int? && 0 <= args[0].n < |s.channels| {
        ChannelOpsKeep(s, args[0].n, Unit);
      }
    case Foreign =>
      if o.foreign.ForeignDone? {
        WakePollsKeep(s, o.foreign.closed);
      }
    case _ =>
  }

  lemma ParkStep(v: Vm, id: nat, s: Sched, vstack: seq<Value>, frames: seq<Frame>, req: ParkRequest)
    requires SchedOk(v) && v.phase == Exec(id) && SchedInv(s) && Grows(v.sched, s)
    requires req.Await? ==> vstack != []
    ensures SchedOk(ParkCurrent(v, id, s, vstack, frames, req))
    ensures ParkCurrent(v, id, s, vstack, frames, req).phase.Pick?
  {
    hide SchedInv, AddPoll, AddPolls;
    RunningPlain(s, id);
    var t := ParkCurrent(v, id, s, vstack, frames, req).sched;
    if req.Await? {
      ParkIoKeeps(s, id, vstack, frames);
    } else {
      ParkKeeps(s, id, vstack, frames, req);
    }
    assert |t.fibers| == |s.fibers|;
    assert forall j: nat :: j < |s.fibers| && j != id ==> t.fibers[j] == s.fibers[j];
    assert t.fibers[id].state == Suspended(vstack, frames);
    assert t.fibers[id].pending == req.Await?;
  }

  lemma NativeStepOk(env: Env, v: Vm, id: nat, native: nat, argc: nat, o: Oracle)
    requires SchedOk(v) && v.phase == Exec(id)
    requires v.frames != [] && Last(v.frames).pc > 0
    ensures var w := NativeStep(env, v, id, native, argc, o);
            && (!w.phase.Halt? ==> SchedOk(w))
            && (w.phase.Halt? ==> w.phase.outcome.Trapped? && w.phase.outcome.trap != Bug(NotSchedulable))
            && (w.phase.Halt? && argc <= |v.vstack| ==> w.phase.outcome.trap != Panic(Corrupt))
  {
    hide SchedInv, RunNative, ParkCurrent;
    if argc <= |v.vstack| && native < |env.natives| {
      var base := |v.vstack| - argc;
      var r := RunNative(env.natives[native], id, v.vstack[base..], v.heap, v.sched, o);
      NativeKeeps(env.natives[native], id, v.vstack[base..], v.heap, v.sched, o);
      if r.NativeOk? && r.park.Some? {
        var v1 := v.(heap := r.heap, log := LogWith(v.log, r.call));
        if r.park.value.BlockRetry? || r.park.value.Ready? {
          ParkStep(v1, id, r.sched, v.vstack, SetPc(v.frames, Last(v.frames).pc - 1), r.park.value);
        } else {
          ParkStep(v1, id, r.sched, v.vstack[..base] + [r.ret], v.frames, r.park.value);
        }
      }
    }
  }

  lemma AbsorbOk(v: Vm, id: nat, e: Effect)
    requires SchedOk(v) && v.phase == Exec(id)
    ensures var w := Absorb(v, id, e);
            && (!w.phase.Halt? ==> SchedOk(w))
            && (w.phase.Halt? ==> e.Stop? || id == MAIN_FIBER)
  {
    if e.Finish? {
      CompleteKeeps(v.sched, id, e.value);
      RunningPlain(v.sched, id);
    }
  }

  lemma GrowsTrans(s: Sched, t: Sched, u: Sched)
    requires Grows(s, t) && Grows(t, u)
    ensures Grows(s, u)
  {
    forall id | 0 <= id < |s.fibers| ensures u.fibers[id] == s.fibers[id].(queued := u.fibers[id].queued) {
      assert t.fibers[id] == s.fibers[id].(queued := t.fibers[id].queued);
    }
    forall id | |s.fibers| <= id < |u.fibers| ensures u.fibers[id].state.NotStarted? && !u.fibers[id].pending {
      assert id < |t.fibers| ==> u.fibers[id] == t.fibers[id].(queued := u.fibers[id].queued);
    }
  }

  /** Code run inside a fallback keeps the scheduler invariant and the states of all fibers. */
  lemma {:induction false} NestedKeeps(id: nat, calls: seq<NestedCall>, h: HeapState, s: Sched, log: seq<ChanCall>)
    requires SchedInv(s)
    ensures var r := RunNested(id, calls, h, s, log);
            && (r.NestedOk? ==> SchedInv(r.sched) && Grows(s, r.sched))
            && (r.NestedFail? ==> r.trap != Bug(NotSchedulable) && r.trap != Panic(Corrupt))
  {
    if calls == [] {
      assert Grows(s, s);
    } else {
      hide SchedInv, RunNative, Grows;
      NestedKeeps(id, Init(calls), h, s, log);
      var r, c := RunNested(id, Init(calls), h, s, log), Last(calls);
      if r.NestedOk? {
        NativeKeeps(c.native, id, c.args, r.heap, r.sched, c.o);
        var n := RunNative(c.native, id, c.args, r.heap, r.sched, c.o);
        if n.NativeOk? {
          GrowsTrans(s, r.sched, n.sched);
        }
      }
    }
  }

  lemma AfterNestedOk(env: Env, v: Vm, id: nat, i: Instr, o: Oracle)
    requires SchedOk(v) && v.phase == Exec(id)
    ensures var w := AfterNested(env, v, id, i, o);
            && w == v.(heap := w.heap, sched := w.sched, log := w.log, phase := w.phase)
            && (w.phase.Halt? ==> w.phase.outcome.Trapped? && w.phase.outcome.trap != Bug(NotSchedulable)
                                  && w.phase.outcome.trap != Panic(Corrupt))
            && (!w.phase.Halt? ==> SchedOk(w) && w.phase == v.phase && Grows(v.sched, w.sched))
  {
    hide SchedInv, RunNested, FallsBack;
    NestedKeeps(id, o.nested, v.heap, v.sched, v.log);
  }

  /** The driver can always load the fiber it dequeues. */
  lemma ResumeOk(env: Env, v: Vm)
    requires SchedOk(v) && v.phase.Pick? && v.sched.ready != []
    ensures var w := PickStep(env, v);
            && (!w.phase.Halt? ==> w.phase == Exec(v.sched.ready[0]) && SchedOk(w))
            && (w.phase.Halt? ==>
                  w.phase.outcome.Trapped? && w.phase.outcome.trap != Bug(NotSchedulable)
                  && w.phase.outcome.trap != Panic(Corrupt))
  {
    var s := v.sched;
    DequeueKeeps(s);
    var id, t := s.ready[0], Dequeue(s);
    RunningPlain(t, id);
    assert forall j: nat :: j < |s.fibers| && j != id ==> t.fibers[j] == s.fibers[j];
  }

  /** A fiber's place, once nothing but `blocked` is left to wait in. */
  lemma OnlyBlockedLeft(s: Sched, id: nat)
    requires SchedInv(s) && id < |s.fibers|
    requires s.ready == [] && s.timers == [] && s.poll == map[] && s.ioBlocked == 0
    requires !s.fibers[id].state.Running? && !s.fibers[id].state.Done?
    ensures id in s.blocked && s.fibers[id].state.Suspended?
  {
    var p := PlaceOf(s, id);
    assert PlacedOk(s.fibers[id], p);
    assert !p.ready && p.timers == 0 && p.polls == {};
    if s.fibers[id].pending {
      PendingUpdate(s.fibers, id, s.fibers[id].(pending := false));
      assert false;
    }
  }

  /**
   When the driver finds nothing runnable and no outside source, every
   unfinished fiber is blocked, the main one among them: the silent `Unit`
   exit is never taken and what is reported is a deadlock of all of them.
   */
  lemma IdleMeansDeadlock(env: Env, v: Vm)
    requires SchedOk(v) && v.phase.Pick?
    requires v.sched.ready == [] && v.sched.timers == [] && |v.sched.poll| == 0 && v.sched.ioBlocked == 0
    ensures MAIN_FIBER in v.sched.blocked
    ensures PickStep(env, v) == Stopped(v, Bug(Deadlock))
    ensures forall id: nat :: id < |v.sched.fibers| && !v.sched.fibers[id].state.Done? ==>
                                id in v.sched.blocked && v.sched.fibers[id].state.Suspended?
  {
    var s := v.sched;
    assert s.poll == map[];
    forall id: nat | id < |s.fibers| && !s.fibers[id].state.Done?
      ensures id in s.blocked && s.fibers[id].state.Suspended?
    {
      OnlyBlockedLeft(s, id);
    }
  }

  lemma PickOk(env: Env, v: Vm)
    requires SchedOk(v) && v.phase.Pick?
    ensures var w := PickStep(env, v);
            && (!w.phase.Halt? ==> SchedOk(w))
            && (w.phase.Halt? ==>
                  w.phase.outcome.Trapped? && w.phase.outcome.trap != Bug(NotSchedulable)
                  && w.phase.outcome.trap != Panic(Corrupt))
  {
    if v.sched.ready != [] {
      ResumeOk(env, v);
    } else if |v.sched.poll| == 0 && v.sched.ioBlocked == 0 && v.sched.timers == [] {
      IdleMeansDeadlock(env, v);
    }
  }

  lemma DeliverOk(v: Vm, id: nat, h: HeapState, value: Value)
    requires SchedOk(v) && v.phase.Wait? && id in v.jobs
    ensures SchedOk(DeliverStep(v, id, h, value)) && !DeliverStep(v, id, h, value).phase.Halt?
  {
    DeliverReady(v.sched, id);
    DeliverKeeps(v.sched, id, value);
    var t := DeliverIo(v.sched, id, value);
    assert forall j: nat :: j < |t.fibers| && j != id ==> t.fibers[j] == v.sched.fibers[j];
  }

  lemma OutsideOk(v: Vm, h: int, now: int)
    requires SchedOk(v) && v.phase.Wait?
    ensures SchedOk(v.(sched := WakePoll(v.sched, h)))
    ensures SchedOk(v.(phase := Pick, sched := WakeTimers(v.sched, now)))
  {
    WakePollKeeps(v.sched, h);
    WakeTimersKeeps(v.sched, now);
  }

  lemma FetchOk(env: Env, v: Vm)
    requires SchedOk(v) && CanFetch(env, v)
    ensures var w := AfterFetch(env, v);
            && w == v.(frames := w.frames, heap := w.heap, phase := w.phase)
            && w.frames == SetPc(v.frames, Last(v.frames).pc + 1)
            && (w.phase == v.phase || w.phase == Halt(Trapped(OutOfMemory)))
            && (w.phase == v.phase ==> SchedOk(w))
  {
  }

  lemma ExecOk(env: Env, v: Vm, id: nat, o: Oracle)
    requires SchedOk(v) && v.phase == Exec(id)
    ensures var w := ExecStep(env, v, id, o); !w.phase.Halt? ==> SchedOk(w)
  {
    hide SchedOk, NativeStep, AfterNested, Absorb, Perform, AfterFetch;
    if CanFetch(env, v) {
      var i, v1 := NextInstr(env, v), AfterFetch(env, v);
      FetchOk(env, v);
      if !v1.phase.Halt? {
        if i.CallNative? {
          NativeStepOk(env, v1, id, i.native, i.argc, o);
        } else {
          AfterNestedOk(env, v1, id, i, o);
          var v2 := AfterNested(env, v1, id, i, o);
          if !v2.phase.Halt? {
            AbsorbOk(v2, id, Perform(env, i, v1.vstack, v1.frames, v1.heap, o));
          }
        }
      }
    }
  }

  /** Every transition keeps the scheduler invariant. */
  lemma StepKeepsSched(env: Env, v: Vm, e: Event)
    requires SchedOk(v) && !v.phase.Halt? && Enabled(env, v, e)
    ensures !Step(env, v, e).phase.Halt? ==> SchedOk(Step(env, v, e))
  {
    match e
    case DoInstr(o) => ExecOk(env, v, v.phase.id, o);
    case DoPick => PickOk(env, v);
    case SocketReady(h) => OutsideOk(v, h, 0);
    case IoDone(id, h, value) => DeliverOk(v, id, h, value);
    case IoFault(_) =>
    case Tick(now) => OutsideOk(v, 0, now);
  }
}
