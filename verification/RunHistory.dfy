/**
 What one point of a run fixes about every later point: closed channels, results
 of finished fibers, the stacks of a fiber out at a worker, and the order in
 which ready fibers get to run.
 */
module RunHistory {
  import opened Values
  import opened Heaps
  import opened Bytecode
  import opened Schedulers
  import opened SchedulerInvariant
  import opened Machine
  import opened Stacks
  import opened RunScheduler
  import opened RunHandles
  import opened RunChannels
  import opened Runs

  /** Channels are only added; capacities stay and a closed channel stays closed. */
  predicate ChannelsOnward(cs: seq<Chan>, ds: seq<Chan>) {
    && |cs| <= |ds|
    && (forall c: nat :: c < |cs| ==> ds[c].capacity == cs[c].capacity && (cs[c].closed ==> ds[c].closed))
  }

  /** Only the running fiber changes, the queue is only added to, channels move on. */
  predicate Onward(s: Sched, t: Sched) {
    && s.ready <= t.ready
    && |s.fibers| <= |t.fibers|
    && (forall id: nat :: id < |s.fibers| && !s.fibers[id].state.Running? ==>
          t.fibers[id] == s.fibers[id].(queued := t.fibers[id].queued))
    && ChannelsOnward(s.channels, t.channels)
  }

  lemma OnwardTrans(s: Sched, t: Sched, u: Sched)
    requires Onward(s, t) && Onward(t, u)
    ensures Onward(s, u)
  {
    forall id: nat | id < |s.fibers| && !s.fibers[id].state.Running?
      ensures u.fibers[id] == s.fibers[id].(queued := u.fibers[id].queued)
    {
      assert t.fibers[id] == s.fibers[id].(queued := t.fibers[id].queued);
    }
  }

  lemma {:induction false} ReadyAppends(s: Sched, ids: seq<nat>)
    ensures s.ready <= MakeAllReady(s, ids).ready
  {
    if ids == [] {
    } else {
      ReadyAppends(s, Init(ids));
    }
  }

  lemma WakesOnward(s: Sched, h: int, now: int)
    requires SchedInv(s)
    ensures Onward(s, WakeAll(s)) && Onward(s, WakePoll(s, h)) && Onward(s, WakeTimers(s, now))
  {
    hide SchedInv;
    WakeAllKeeps(s);
    WakePollKeeps(s, h);
    WakeTimersKeeps(s, now);
    ReadyAppends(s.(blocked := []), s.blocked);
    if h in s.poll {
      ReadyAppends(s.(poll := s.poll - {h}), s.poll[h]);
    }
    ReadyAppends(s.(timers := NotDue(s.timers, now)), DueIds(s.timers, now));
  }

  lemma {:induction false} WakePollsOnward(s: Sched, handles: seq<int>)
    requires SchedInv(s)
    ensures Onward(s, WakePolls(s, handles))
  {
    if handles != [] {
      hide SchedInv, Onward, WakePoll;
      WakePollsOnward(s, Init(handles));
      WakePollsKeep(s, Init(handles));
      var t := WakePolls(s, Init(handles));
      WakesOnward(t, Last(handles), 0);
      OnwardTrans(s, t, WakePolls(s, handles));
    } else {
      assert Onward(s, s);
    }
  }

  lemma ChannelOpsOnward(s: Sched, c: nat, v: Value)
    requires SchedInv(s) && c < |s.channels|
    ensures Onward(s, TrySend(s, c, v).0)
    ensures Onward(s, TryReceive(s, c).0)
    ensures Onward(s, CloseChan(s, c))
  {
    hide SchedInv, WakeAll, Onward;
    var ch := s.channels[c];
    var sent := s.(channels := s.channels[c := ch.(buffer := ch.buffer + [v])]);
    var closed := s.(channels := s.channels[c := ch.(closed := true)]);
    ChannelsKeep(s, sent.channels);
    ChannelsKeep(s, closed.channels);
    RewriteOnward(s, sent);
    RewriteOnward(s, closed);
    OnwardRefl(s);
    if ch.buffer != [] {
      var got := s.(channels := s.channels[c := ch.(buffer := ch.buffer[1..])]);
      ChannelsKeep(s, got.channels);
      RewriteOnward(s, got);
    }
  }

  lemma OnwardRefl(s: Sched)
    ensures Onward(s, s)
  {
  }

  lemma RewriteOnward(s: Sched, t: Sched)
    requires t == s.(channels := t.channels) && ChannelsOnward(s.channels, t.channels) && SchedInv(t)
    ensures Onward(s, WakeAll(t))
  {
    hide SchedInv, WakeAll;
    WakesOnward(t, 0, 0);
    OnwardTrans(s, t, WakeAll(t));
  }

  /** A value is accepted only by an open channel. */
  predicate CallOk(s: Sched, call: Option<ChanCall>) {
    call.Some? && call.value.SendCall? ==> call.value.chan < |s.channels| && !s.channels[call.value.chan].closed
  }

  lemma NativeOnward(k: Native, id: nat, args: seq<Value>, h: HeapState, s: Sched, o: Oracle)
    requires SchedInv(s)
    ensures var r := RunNative(k, id, args, h, s, o); r.NativeOk? ==> Onward(s, r.sched) && CallOk(s, r.call)
  {
    hide SchedInv, WakeAll, SpawnFiber, AllocState, AllocHandle, WakePolls, Ints, Onward;
    OnwardRefl(s);
    match k
    case Spawn =>
      if |args| == 1 {
        SpawnOnward(s, args[0]);
      }
    case ChanNew =>
      if |args| == 1 && args[0].Int? {
        NewChannelOnward(s, if args[0].n < 0 then 0 else args[0].n);
      }
    case Send =>
      if |args| == 2 && args[0].Int? && 0 <= args[0].n < |s.channels| {
        ChannelOpsOnward(s, args[0].n, args[1]);
      }
    case Receive =>
      if |args| == 1 && args[0].Int? && 0 <= args[0].n < |s.channels| {
        ChannelOpsOnward(s, args[0].n, Unit);
      }
    case CloseChannel =>
      if |args| == 1 && args[0].Int? && 0 <= args[0].n < |s.channels| {
        ChannelOpsOnward(s, args[0].n, Unit);
      }
    case Foreign =>
      if o.foreign.ForeignDone? {
        WakePollsOnward(s, o.foreign.closed);
      }
    case _ =>
  }

  lemma SpawnOnward(s: Sched, c: Value)
    requires SchedInv(s)
    ensures Onward(s, SpawnFiber(s, c))
  {
    hide SchedInv;
    SpawnKeeps(s, c);
    var t := SpawnFiber(s, c);
    assert forall j :: 0 <= j < |s.fibers| ==> t.fibers[j] == t.fibers[..|s.fibers|][j];
  }

  lemma NewChannelOnward(s: Sched, capacity: nat)
    ensures Onward(s, NewChannel(s, capacity))
  {
  }

  lemma ParkOnward(v: Vm, id: nat, s: Sched, vstack: seq<Value>, frames: seq<Frame>, req: ParkRequest)
    requires id < |s.fibers| && s.fibers[id].state.Running?
    ensures var w := ParkCurrent(v, id, s, vstack, frames, req); Onward(s, w.sched) && w.log == v.log
  {
    hide AddPoll, AddPolls;
  }

  /** Channels closed before accept nothing more. */
  ghost predicate ClosedRefuse(cs: seq<Chan>, log: seq<ChanCall>, later: seq<ChanCall>) {
    forall c: nat :: c < |cs| && cs[c].closed ==> SentOn(later, c) == SentOn(log, c)
  }

  ghost predicate Moves(v: Vm, w: Vm) { Onward(v.sched, w.sched) && ClosedRefuse(v.sched.channels, v.log, w.log) }

  lemma CallRefused(s: Sched, log: seq<ChanCall>, call: Option<ChanCall>)
    requires CallOk(s, call)
    ensures ClosedRefuse(s.channels, log, LogWith(log, call))
  {
    if call.Some? {
      forall c: nat | c < |s.channels| && s.channels[c].closed
        ensures SentOn(log + [call.value], c) == SentOn(log, c)
      {
        LogStep(log, call.value, c);
      }
    }
  }

  lemma RefuseTrans(cs: seq<Chan>, ds: seq<Chan>, a: seq<ChanCall>, b: seq<ChanCall>, c: seq<ChanCall>)
    requires ChannelsOnward(cs, ds) && ClosedRefuse(cs, a, b) && ClosedRefuse(ds, b, c)
    ensures ClosedRefuse(cs, a, c)
  {
  }

  lemma {:induction false} NestedMoves(id: nat, calls: seq<NestedCall>, h: HeapState, s: Sched, log: seq<ChanCall>)
    requires SchedInv(s)
    ensures var r := RunNested(id, calls, h, s, log);
            r.NestedOk? ==> Onward(s, r.sched) && ClosedRefuse(s.channels, log, r.log)
  {
    if calls == [] {
      OnwardRefl(s);
    } else {
      hide SchedInv, RunNative, Onward, ClosedRefuse;
      NestedMoves(id, Init(calls), h, s, log);
      NestedKeeps(id, Init(calls), h, s, log);
      var r, c := RunNested(id, Init(calls), h, s, log), Last(calls);
      if r.NestedOk? {
        NativeOnward(c.native, id, c.args, r.heap, r.sched, c.o);
        var n := RunNative(c.native, id, c.args, r.heap, r.sched, c.o);
        if n.NativeOk? {
          OnwardTrans(s, r.sched, n.sched);
          CallRefused(r.sched, r.log, n.call);
          OnwardChannels(s, r.sched);
          RefuseTrans(s.channels, r.sched.channels, log, r.log, LogWith(r.log, n.call));
        }
      }
    }
  }

  lemma OnwardChannels(s: Sched, t: Sched)
    requires Onward(s, t)
    ensures ChannelsOnward(s.channels, t.channels)
  {
  }

  lemma MovesTrans(u: Vm, v: Vm, w: Vm)
    requires Moves(u, v) && Moves(v, w)
    ensures Moves(u, w)
  {
    OnwardTrans(u.sched, v.sched, w.sched);
  }

  lemma AfterNestedMoves(env: Env, v: Vm, id: nat, i: Instr, o: Oracle)
    requires SchedOk(v)
    ensures Moves(v, AfterNested(env, v, id, i, o))
  {
    hide SchedInv, RunNested, FallsBack, Onward;
    OnwardRefl(v.sched);
    NestedMoves(id, o.nested, v.heap, v.sched, v.log);
  }

  lemma NativeStepMoves(env: Env, v: Vm, id: nat, native: nat, argc: nat, o: Oracle)
    requires SchedOk(v) && v.phase == Exec(id) && v.frames != [] && Last(v.frames).pc > 0
    ensures Moves(v, NativeStep(env, v, id, native, argc, o))
  {
    hide SchedInv, RunNative, ParkCurrent, Onward;
    OnwardRefl(v.sched);
    if argc <= |v.vstack| && native < |env.natives| {
      var base, k := |v.vstack| - argc, env.natives[native];
      var args := v.vstack[base..];
      var r := RunNative(k, id, args, v.heap, v.sched, o);
      NativeOnward(k, id, args, v.heap, v.sched, o);
      NativeKeeps(k, id, args, v.heap, v.sched, o);
      if r.NativeOk? {
        CallRefused(v.sched, v.log, r.call);
        if r.park.Some? {
          var v1 := v.(heap := r.heap, log := LogWith(v.log, r.call));
          if r.park.value.BlockRetry? || r.park.value.Ready? {
            var frames := SetPc(v.frames, Last(v.frames).pc - 1);
            ParkOnward(v1, id, r.sched, v.vstack, frames, r.park.value);
            OnwardTrans(v.sched, r.sched, ParkCurrent(v1, id, r.sched, v.vstack, frames, r.park.value).sched);
          } else {
            var vs := v.vstack[..base] + [r.ret];
            ParkOnward(v1, id, r.sched, vs, v.frames, r.park.value);
            OnwardTrans(v.sched, r.sched, ParkCurrent(v1, id, r.sched, vs, v.frames, r.park.value).sched);
          }
        }
      }
    }
  }

  lemma AbsorbMoves(v: Vm, id: nat, e: Effect)
    requires SchedOk(v) && v.phase == Exec(id)
    ensures Moves(v, Absorb(v, id, e))
  {
    hide SchedInv;
    if e.Finish? {
      hide WakeAll;
      CompleteKeeps(v.sched, id, e.value);
      var s1 := v.sched.(fibers := v.sched.fibers[id := v.sched.fibers[id].(state := Done(e.value))]);
      assert s1.ready <= WakeAll(s1).ready by { WakeAllAppends(s1); }
    }
  }

  lemma WakeAllAppends(s: Sched)
    ensures s.ready <= WakeAll(s).ready
  {
    ReadyAppends(s.(blocked := []), s.blocked);
  }

  lemma RefuseRefl(cs: seq<Chan>, log: seq<ChanCall>)
    ensures ClosedRefuse(cs, log, log)
  {
  }

  lemma ExecMoves(env: Env, v: Vm, id: nat, o: Oracle)
    requires SchedOk(v) && v.phase == Exec(id)
    ensures Moves(v, ExecStep(env, v, id, o))
  {
    hide SchedOk, NativeStep, Absorb, Perform, AfterFetch, Onward, AfterNested, ClosedRefuse;
    OnwardRefl(v.sched);
    RefuseRefl(v.sched.channels, v.log);
    if CanFetch(env, v) {
      var i, v1 := NextInstr(env, v), AfterFetch(env, v);
      FetchOk(env, v);
      if !v1.phase.Halt? {
        if i.CallNative? {
          NativeStepMoves(env, v1, id, i.native, i.argc, o);
        } else {
          AfterNestedOk(env, v1, id, i, o);
          AfterNestedMoves(env, v1, id, i, o);
          var v2 := AfterNested(env, v1, id, i, o);
          if !v2.phase.Halt? {
            AbsorbMoves(v2, id, Perform(env, i, v1.vstack, v1.frames, v1.heap, o));
            MovesTrans(v1, v2, InstrStep(env, v1, id, i, o));
          }
        }
      }
    }
  }

  // ----- one step -----

  predicate Schedules(v: Vm, e: Event) { e.DoPick? && v.sched.ready != [] }

  /** A pick dequeues the head, a delivery touches its own fiber, everything else moves on. */
  lemma StepMoves(env: Env, v: Vm, e: Event)
    requires SchedOk(v) && !v.phase.Halt? && Enabled(env, v, e)
    ensures var w := Step(env, v, e);
            if Schedules(v, e) then v.sched.ready[0] < |v.sched.fibers| && w.sched == Dequeue(v.sched) && w.log == v.log
            else if e.IoDone? then
              && DeliverStep(v, e.id, e.heap, e.value) == w && e.id < |v.sched.fibers| && v.sched.fibers[e.id].pending
            else Moves(v, w)
  {
    hide SchedInv, ExecStep, Onward, Dequeue;
    OnwardRefl(v.sched);
    match e
    case DoInstr(o) => ExecMoves(env, v, v.phase.id, o);
    case DoPick =>
      if v.sched.ready != [] {
        DequeueKeeps(v.sched);
      }
    case SocketReady(h) => WakesOnward(v.sched, h, 0);
    case IoDone(_, _, _) =>
    case IoFault(_) =>
    case Tick(now) => WakesOnward(v.sched, 0, now);
  }

  // ----- whole runs -----

  /** The fibers scheduled by the events, in order. */
  ghost function Picks(env: Env, v: Vm, events: seq<Event>): seq<nat> {
    if events == [] then []
    else
      var u := After(env, v, Init(events));
      if Schedules(u, Last(events)) then Picks(env, v, Init(events)) + [u.sched.ready[0]]
      else Picks(env, v, Init(events))
  }

  predicate NoDelivery(events: seq<Event>, id: nat) {
    forall k :: 0 <= k < |events| && events[k].IoDone? ==> events[k].id != id
  }

  /** Closed channels stay closed and have accepted nothing more. */
  ghost predicate ClosedFixed(v: Vm, w: Vm) {
    ChannelsOnward(v.sched.channels, w.sched.channels) && ClosedRefuse(v.sched.channels, v.log, w.log)
  }

  /** Finished fibers keep their results. */
  predicate ResultsFixed(v: Vm, w: Vm) {
    && |v.sched.fibers| <= |w.sched.fibers|
    && (forall id: nat :: id < |v.sched.fibers| && v.sched.fibers[id].state.Done? ==>
          w.sched.fibers[id].state == v.sched.fibers[id].state)
  }

  /** Until its own delivery, a fiber out at a worker keeps its stacks. */
  ghost predicate WorkersFixed(v: Vm, w: Vm, events: seq<Event>) {
    && |v.sched.fibers| <= |w.sched.fibers|
    && (forall id: nat :: id < |v.sched.fibers| && v.sched.fibers[id].pending && NoDelivery(events, id) ==>
          w.sched.fibers[id].pending && w.sched.fibers[id].state == v.sched.fibers[id].state)
  }

  lemma StepClosed(env: Env, v: Vm, e: Event)
    requires SchedOk(v) && !v.phase.Halt? && Enabled(env, v, e)
    ensures ClosedFixed(v, Step(env, v, e))
  {
    hide SchedInv, Step, Dequeue;
    var w := Step(env, v, e);
    StepMoves(env, v, e);
    if Schedules(v, e) {
      DequeueKeeps(v.sched);
    }
  }

  lemma StepResults(env: Env, v: Vm, e: Event)
    requires SchedOk(v) && !v.phase.Halt? && Enabled(env, v, e)
    ensures ResultsFixed(v, Step(env, v, e))
  {
    hide SchedInv, Step, Dequeue;
    StepMoves(env, v, e);
    if Schedules(v, e) {
      DequeueKeeps(v.sched);
    }
  }

  lemma StepWorkers(env: Env, v: Vm, e: Event)
    requires SchedOk(v) && !v.phase.Halt? && Enabled(env, v, e)
    ensures WorkersFixed(v, Step(env, v, e), [e])
  {
    hide Step, Dequeue;
    StepMoves(env, v, e);
    if Schedules(v, e) {
      DequeueKeeps(v.sched);
    }
    forall id: nat | id < |v.sched.fibers| && v.sched.fibers[id].pending
      ensures v.sched.fibers[id].state.Suspended?
    {
      DeliverReady(v.sched, id);
    }
    assert e.IoDone? ==> forall id: nat :: NoDelivery([e], id) ==> [e][0].id != id;
  }

  /** Until it is scheduled or delivered to, a fiber that is not running keeps its state. */
  ghost predicate ParkedFixed(v: Vm, w: Vm, picks: seq<nat>, events: seq<Event>) {
    && |v.sched.fibers| <= |w.sched.fibers|
    && (forall id: nat :: id < |v.sched.fibers| && !v.sched.fibers[id].state.Running?
                          && id !in picks && NoDelivery(events, id) ==>
          w.sched.fibers[id].state == v.sched.fibers[id].state)
  }

  lemma StepParked(env: Env, v: Vm, e: Event)
    requires SchedOk(v) && !v.phase.Halt? && Enabled(env, v, e)
    ensures ParkedFixed(v, Step(env, v, e), if Schedules(v, e) then [v.sched.ready[0]] else [], [e])
  {
    hide Step, Dequeue, SchedInv;
    StepMoves(env, v, e);
    if Schedules(v, e) {
      DequeueKeeps(v.sched);
    }
    assert e.IoDone? ==> forall id: nat :: NoDelivery([e], id) ==> [e][0].id != id;
  }

  lemma ParkedTrans(v: Vm, u: Vm, w: Vm, picks: seq<nat>, pick: seq<nat>, events: seq<Event>)
    requires events != [] && ParkedFixed(v, u, picks, Init(events)) && ParkedFixed(u, w, pick, [Last(events)])
    ensures ParkedFixed(v, w, picks + pick, events)
  {
    hide NoDelivery;
    DeliverySplit(events);
  }

  /** Stacks and closures of fibers waiting anywhere are safe until their own turn. */
  lemma {:induction false} RunParked(env: Env, v: Vm, events: seq<Event>)
    requires SchedOk(v) && RunOf(env, v, events)
    ensures ParkedFixed(v, After(env, v, events), Picks(env, v, events), events)
  {
    if events == [] {
    } else {
      hide SchedOk, Step, Enabled, RunOf, ParkedFixed;
      var u, e := After(env, v, Init(events)), Last(events);
      RunPrefix(env, v, events);
      RunParked(env, v, Init(events));
      RunKeepsSched(env, v, Init(events));
      StepParked(env, u, e);
      var pick := if Schedules(u, e) then [u.sched.ready[0]] else [];
      ParkedTrans(v, u, Step(env, u, e), Picks(env, v, Init(events)), pick, events);
      assert Picks(env, v, events) == Picks(env, v, Init(events)) + pick;
    }
  }

  /** The fiber scheduled goes on from exactly its saved stacks, or starts its closure on its captures. */
  lemma ResumeRestores(env: Env, v: Vm)
    requires SchedOk(v) && v.phase.Pick? && v.sched.ready != [] && v.vstack == []
    ensures var id, w := v.sched.ready[0], PickStep(env, v);
            && id < |v.sched.fibers|
            && match v.sched.fibers[id].state
               case Suspended(vs, frs) => frs != [] ==> w.phase == Exec(id) && w.vstack == vs && w.frames == frs
               case NotStarted(c) =>
                 Fetch(v.heap, c).Found? && Fetch(v.heap, c).obj.ClosureObj? ==>
                   var o := Fetch(v.heap, c).obj;
                   o.func < |env.m.functions| && env.m.functions[o.func].paramCount == |o.captures|
                   && env.m.functions[o.func].localCount >= |o.captures| ==>
                     && w.phase == Exec(id) && w.frames == [Frame(o.func, 0, 0)]
                     && w.vstack == o.captures + Units(env.m.functions[o.func].localCount - |o.captures|)
               case _ => false
  {
    hide Dequeue, SchedInv;
    DequeueKeeps(v.sched);
    var c := v.sched.fibers[v.sched.ready[0]].state;
    if c.NotStarted? && Fetch(v.heap, c.closure).Found? && Fetch(v.heap, c.closure).obj.ClosureObj? {
      assert [] + Fetch(v.heap, c.closure).obj.captures == Fetch(v.heap, c.closure).obj.captures;
    }
  }

  lemma StepQueue(env: Env, v: Vm, e: Event)
    requires SchedOk(v) && !v.phase.Halt? && Enabled(env, v, e)
    ensures var w := Step(env, v, e);
            if Schedules(v, e) then w.sched.ready == v.sched.ready[1..] else v.sched.ready <= w.sched.ready
  {
    hide SchedInv, Step, Dequeue;
    StepMoves(env, v, e);
    if Schedules(v, e) {
      DequeueReady(v.sched);
    }
  }

  lemma DequeueReady(s: Sched)
    requires s.ready != [] && s.ready[0] < |s.fibers|
    ensures Dequeue(s).ready == s.ready[1..]
  {
  }

  /**
   A completion is for a fiber that waits for it: only the placeholder on top of
   its saved stack is replaced, it joins the end of the queue, and no other
   fiber changes.
   */
  lemma DeliveryExact(env: Env, v: Vm, id: nat, h: HeapState, value: Value)
    requires SchedOk(v) && Enabled(env, v, IoDone(id, h, value))
    ensures var s, w := v.sched, Step(env, v, IoDone(id, h, value));
            && w.phase == v.phase && w.heap == h && w.jobs == v.jobs - {id}
            && id < |s.fibers| && s.fibers[id].state.Suspended? && s.fibers[id].state.vstack != []
            && w.sched.fibers == s.fibers[id := Fiber(
                 Suspended(Init(s.fibers[id].state.vstack) + [value], s.fibers[id].state.frames), false, true, None)]
            && id !in s.ready && w.sched.ready == s.ready + [id] && w.sched.ioBlocked == s.ioBlocked - 1
  {
    hide HeapMoves;
    DeliverReady(v.sched, id);
    assert PlacedOk(v.sched.fibers[id], PlaceOf(v.sched, id));
  }

  lemma {:induction false} RunKeepsSched(env: Env, v: Vm, events: seq<Event>)
    requires SchedOk(v) && RunOf(env, v, events)
    ensures !After(env, v, events).phase.Halt? ==> SchedOk(After(env, v, events))
  {
    if events == [] {
    } else {
      hide SchedOk, Step, Enabled;
      RunPrefix(env, v, events);
      RunKeepsSched(env, v, Init(events));
      StepKeepsSched(env, After(env, v, Init(events)), Last(events));
    }
  }

  lemma NothingMoved(v: Vm)
    ensures ClosedFixed(v, v) && ResultsFixed(v, v) && WorkersFixed(v, v, [])
  {
  }

  lemma FixedTrans(v: Vm, u: Vm, w: Vm, events: seq<Event>)
    requires events != [] && ClosedFixed(v, u) && ResultsFixed(v, u) && WorkersFixed(v, u, Init(events))
    requires ClosedFixed(u, w) && ResultsFixed(u, w) && WorkersFixed(u, w, [Last(events)])
    ensures ClosedFixed(v, w) && ResultsFixed(v, w) && WorkersFixed(v, w, events)
  {
    hide SentOn, NoDelivery;
    DeliverySplit(events);
  }

  /** Whatever happens later, what was fixed at `v` is fixed. */
  lemma {:induction false} RunForward(env: Env, v: Vm, events: seq<Event>)
    requires SchedOk(v) && RunOf(env, v, events)
    ensures var w := After(env, v, events);
            ClosedFixed(v, w) && ResultsFixed(v, w) && WorkersFixed(v, w, events)
  {
    if events != [] {
      hide SchedOk, Step, Enabled, RunOf, ClosedFixed, ResultsFixed, WorkersFixed;
      var u, e := After(env, v, Init(events)), Last(events);
      RunPrefix(env, v, events);
      RunForward(env, v, Init(events));
      RunKeepsSched(env, v, Init(events));
      StepClosed(env, u, e);
      StepResults(env, u, e);
      StepWorkers(env, u, e);
      FixedTrans(v, u, Step(env, u, e), events);
    } else {
      NothingMoved(v);
    }
  }

  lemma DeliverySplit(events: seq<Event>)
    requires events != []
    ensures forall id: nat :: NoDelivery(events, id) ==> NoDelivery(Init(events), id) && NoDelivery([Last(events)], id)
  {
    forall id: nat | NoDelivery(events, id) ensures NoDelivery(Init(events), id) && NoDelivery([Last(events)], id) {
      assert forall k :: 0 <= k < |Init(events)| ==> Init(events)[k] == events[k];
      assert [Last(events)][0] == events[|events| - 1];
    }
  }

  lemma QueueStep(ready: seq<nat>, picked: seq<nat>, queue: seq<nat>, later: seq<nat>)
    requires ready <= picked + queue
    ensures queue != [] && later == queue[1..] ==> ready <= picked + [queue[0]] + later
    ensures queue <= later ==> ready <= picked + later
  {
    if queue != [] && later == queue[1..] {
      assert picked + queue == picked + [queue[0]] + later;
    }
  }

  /**
   First ready, first run: the fibers ready at `v` are scheduled in that order
   before any that become ready later, and those not yet scheduled are still
   at the front of the queue.
   */
  lemma {:induction false} RunFifo(env: Env, v: Vm, events: seq<Event>)
    requires SchedOk(v) && RunOf(env, v, events)
    ensures v.sched.ready <= Picks(env, v, events) + After(env, v, events).sched.ready
  {
    if events == [] {
    } else {
      hide SchedOk, Step, Enabled, RunOf;
      var u, e := After(env, v, Init(events)), Last(events);
      RunPrefix(env, v, events);
      RunFifo(env, v, Init(events));
      RunKeepsSched(env, v, Init(events));
      StepQueue(env, u, e);
      QueueStep(v.sched.ready, Picks(env, v, Init(events)), u.sched.ready, After(env, v, events).sched.ready);
    }
  }

  lemma {:induction false} AfterSplit(env: Env, v: Vm, before: seq<Event>, later: seq<Event>)
    ensures After(env, v, before + later) == After(env, After(env, v, before), later)
  {
    if later == [] {
      assert before + later == before;
    } else {
      assert Init(before + later) == before + Init(later);
      AfterSplit(env, v, before, Init(later));
    }
  }

  lemma RunSplit(env: Env, v: Vm, before: seq<Event>, later: seq<Event>)
    requires RunOf(env, v, before + later)
    ensures RunOf(env, v, before) && RunOf(env, After(env, v, before), later)
  {
    hide After, Enabled;
    var all := before + later;
    forall k | 0 <= k < |before|
      ensures !After(env, v, before[..k]).phase.Halt? && Enabled(env, After(env, v, before[..k]), before[k])
    {
      assert all[..k] == before[..k] && all[k] == before[k];
    }
    forall k | 0 <= k < |later|
      ensures !After(env, After(env, v, before), later[..k]).phase.Halt?
      ensures Enabled(env, After(env, After(env, v, before), later[..k]), later[k])
    {
      AfterSplit(env, v, before, later[..k]);
      assert all[..|before| + k] == before + later[..k] && all[|before| + k] == later[k];
    }
  }

  /** The two points of one run of depth-consistent bytecode, from its start. */
  lemma {:induction false} RunHistoryHolds(env: Env, d: Depths, h: HeapState, func: nat, args: seq<Value>,
                        before: seq<Event>, later: seq<Event>)
    requires DepthsOk(env.m, d) && HeapGood(h) && AllLive(h.slots, args)
    requires RunOf(env, Start(env, h, func, args), before + later)
    requires !After(env, Start(env, h, func, args), before).phase.Halt?
    ensures var v := After(env, Start(env, h, func, args), before);
            var w := After(env, Start(env, h, func, args), before + later);
            && ClosedFixed(v, w) && ResultsFixed(v, w) && WorkersFixed(v, w, later)
            && v.sched.ready <= Picks(env, v, later) + w.sched.ready
            && ParkedFixed(v, w, Picks(env, v, later), later)
  {
    hide ParkedFixed, Start, After, HeapGood, RunOf, ClosedFixed, ResultsFixed, WorkersFixed, Picks, HandlesOk;
    hide ChannelsOk, SchedOk;
    var v0 := Start(env, h, func, args);
    RunSplit(env, v0, before, later);
    AfterSplit(env, v0, before, later);
    RunSafe(env, d, h, func, args, before);
    RunForward(env, After(env, v0, before), later);
    RunFifo(env, After(env, v0, before), later);
    RunParked(env, After(env, v0, before), later);
  }
}
