/**
 Channels and blocked waiters over whole runs: no wake-up is lost, and every
 value sent is received once, in order, or still buffered.
 */
module RunChannels {
  import opened Values
  import opened Heaps
  import opened Bytecode
  import opened Schedulers
  import opened SchedulerInvariant
  import opened Machine
  import opened RunScheduler
  import opened RunHandles

  // ----- blocked waiters -----

  datatype Attempt = Attempt(native: Native, args: seq<Value>)

  /** The native call a suspended fiber will re-execute first, read off its saved code position. */
  function RetryOf(env: Env, f: FiberState): Option<Attempt> {
    if f.Suspended? && f.frames != [] && Last(f.frames).func < |env.m.functions|
       && Last(f.frames).pc < |env.m.functions[Last(f.frames).func].code|
    then
      var i := env.m.functions[Last(f.frames).func].code[Last(f.frames).pc];
      if i.CallNative? && i.native < |env.natives| && i.argc <= |f.vstack| then
        Some(Attempt(env.natives[i.native], f.vstack[|f.vstack| - i.argc..]))
      else None
    else None
  }

  /**
   A join of an unfinished fiber, a receive on an empty open channel, or a send
   on a full open channel: the operation cannot complete in `s`.
   */
  predicate Stuck(a: Attempt, s: Sched) {
    match a.native
    case Join => |a.args| == 1 && a.args[0].Int? && ResultOf(s, a.args[0].n).None?
    case Receive =>
      && |a.args| == 1 && a.args[0].Int? && 0 <= a.args[0].n < |s.channels|
      && s.channels[a.args[0].n].buffer == [] && !s.channels[a.args[0].n].closed
    case Send =>
      && |a.args| == 2 && a.args[0].Int? && 0 <= a.args[0].n < |s.channels|
      && |s.channels[a.args[0].n].buffer| >= s.channels[a.args[0].n].capacity && !s.channels[a.args[0].n].closed
    case _ => false
  }

  /** `Stuck` is exactly what makes the native ask to be re-run, and such an attempt changes nothing. */
  lemma StuckIsRetry(k: Native, id: nat, args: seq<Value>, h: HeapState, s: Sched, o: Oracle)
    ensures var r := RunNative(k, id, args, h, s, o);
            && (Stuck(Attempt(k, args), s) <==> r.NativeOk? && r.park == Some(BlockRetry))
            && (Stuck(Attempt(k, args), s) ==> r == Retry(h, s))
  {
    hide WakeAll, WakePolls, SpawnFiber, AllocState, AllocHandle, NewChannel, Ints;
  }

  /** Every fiber blocked on one operation is about to retry it and still cannot complete it. */
  ghost predicate WaitersOk(env: Env, s: Sched) {
    forall id: nat :: id in s.blocked && id < |s.fibers| && s.fibers[id].sources.None? ==>
                        && RetryOf(env, s.fibers[id].state).Some?
                        && Stuck(RetryOf(env, s.fibers[id].state).value, s)
  }

  /** Channels keep contents and finished fibers stay the only finished ones. */
  predicate SameResources(s: Sched, t: Sched) {
    && s.channels <= t.channels
    && (forall id: nat :: id < |t.fibers| && t.fibers[id].state.Done? ==> id < |s.fibers| && s.fibers[id].state.Done?)
  }

  lemma StuckKept(a: Attempt, s: Sched, t: Sched)
    requires Stuck(a, s) && SameResources(s, t)
    ensures Stuck(a, t)
  {
  }

  /** Waiters carried over unchanged stay stuck. */
  lemma WaitersKept(env: Env, s: Sched, t: Sched)
    requires WaitersOk(env, s) && SameResources(s, t)
    requires forall id: nat :: id in t.blocked && id < |t.fibers| && t.fibers[id].sources.None? ==>
                                 && id in s.blocked && id < |s.fibers| && s.fibers[id].sources.None?
                                 && t.fibers[id].state == s.fibers[id].state
    ensures WaitersOk(env, t)
  {
    hide Stuck, SameResources, RetryOf;
    forall id: nat | id in t.blocked && id < |t.fibers| && t.fibers[id].sources.None?
      ensures RetryOf(env, t.fibers[id].state).Some? && Stuck(RetryOf(env, t.fibers[id].state).value, t)
    {
      StuckKept(RetryOf(env, s.fibers[id].state).value, s, t);
    }
  }

  lemma GrownWaiters(env: Env, s: Sched, t: Sched)
    requires SchedInv(s) && WaitersOk(env, s) && Grows(s, t) && s.channels <= t.channels
    requires forall id: nat :: id in t.blocked ==> id in s.blocked
    ensures WaitersOk(env, t)
  {
    forall id: nat | id in t.blocked
      ensures id < |s.fibers|
    {
      assert PlaceOf(s, id).Parked();
    }
    WaitersKept(env, s, t);
  }

  /** Success on a channel wakes every waiter; anything else leaves the resources alone. */
  lemma NativeWaiters(env: Env, k: Native, id: nat, args: seq<Value>, h: HeapState, s: Sched, o: Oracle)
    requires SchedInv(s) && WaitersOk(env, s)
    ensures var r := RunNative(k, id, args, h, s, o);
            r.NativeOk? ==> WaitersOk(env, r.sched)
  {
    hide WaitersOk, SchedInv, WakePolls, SpawnFiber, WakeAll, AllocState, AllocHandle;
    match k
    case Spawn =>
      if |args| == 1 {
        SpawnKeeps(s, args[0]);
        var t := SpawnFiber(s, args[0]);
        assert forall j :: 0 <= j < |s.fibers| ==> t.fibers[..|s.fibers|][j] == s.fibers[j];
        GrownWaiters(env, s, t);
      }
    case ChanNew =>
      if |args| == 1 && args[0].Int? {
        GrownWaiters(env, s, NewChannel(s, if args[0].n < 0 then 0 else args[0].n));
      }
    case Send =>
      if |args| == 2 && args[0].Int? && 0 <= args[0].n < |s.channels| {
        ChannelOpsWaiters(env, s, args[0].n, args[1]);
      }
    case Receive =>
      if |args| == 1 && args[0].Int? && 0 <= args[0].n < |s.channels| {
        ChannelOpsWaiters(env, s, args[0].n, Unit);
      }
    case CloseChannel =>
      if |args| == 1 && args[0].Int? && 0 <= args[0].n < |s.channels| {
        ChannelOpsWaiters(env, s, args[0].n, Unit);
      }
    case Foreign =>
      if o.foreign.ForeignDone? {
        WakePollsKeep(s, o.foreign.closed);
        GrownWaiters(env, s, WakePolls(s, o.foreign.closed));
      }
    case _ =>
  }

  lemma NoWaiters(env: Env, s: Sched)
    requires s.blocked == []
    ensures WaitersOk(env, s)
  {
  }

  lemma ChannelOpsWaiters(env: Env, s: Sched, c: nat, v: Value)
    requires SchedInv(s) && WaitersOk(env, s) && c < |s.channels|
    ensures WaitersOk(env, TrySend(s, c, v).0)
    ensures WaitersOk(env, TryReceive(s, c).0)
    ensures WaitersOk(env, CloseChan(s, c))
  {
    hide WaitersOk, SchedInv, WakeAll;
    var ch := s.channels[c];
    ChannelsKeep(s, s.channels[c := ch.(buffer := ch.buffer + [v])]);
    var sent := s.(channels := s.channels[c := ch.(buffer := ch.buffer + [v])]);
    WakeAllKeeps(sent);
    NoWaiters(env, WakeAll(sent));
    ChannelsKeep(s, s.channels[c := ch.(closed := true)]);
    var closed := s.(channels := s.channels[c := ch.(closed := true)]);
    WakeAllKeeps(closed);
    NoWaiters(env, WakeAll(closed));
    if ch.buffer != [] {
      ChannelsKeep(s, s.channels[c := ch.(buffer := ch.buffer[1..])]);
      var got := s.(channels := s.channels[c := ch.(buffer := ch.buffer[1..])]);
      WakeAllKeeps(got);
      NoWaiters(env, WakeAll(got));
    }
  }

  /** Parking anywhere but on one operation adds no waiter; parking on a stuck one adds a stuck one. */
  lemma ParkWaiters(env: Env, v: Vm, id: nat, s: Sched, vstack: seq<Value>, frames: seq<Frame>, req: ParkRequest)
    requires SchedInv(s) && WaitersOk(env, s) && id < |s.fibers| && s.fibers[id].state.Running?
    requires req.BlockRetry? ==>
               && RetryOf(env, Suspended(vstack, frames)).Some?
               && Stuck(RetryOf(env, Suspended(vstack, frames)).value, s)
    ensures WaitersOk(env, ParkCurrent(v, id, s, vstack, frames, req).sched)
  {
    hide SchedInv, AddPoll, AddPolls, RetryOf, Stuck, WaitersOk;
    RunningPlain(s, id);
    var t := ParkCurrent(v, id, s, vstack, frames, req).sched;
    assert forall j: nat :: j < |t.fibers| && j != id ==> t.fibers[j] == s.fibers[j];
    assert t.fibers[id].state == Suspended(vstack, frames);
    if req.BlockRetry? {
      AddWaiter(env, s, t, id);
    } else {
      WaitersKept(env, s, t);
    }
  }

  lemma AddWaiter(env: Env, s: Sched, t: Sched, id: nat)
    requires WaitersOk(env, s) && SameResources(s, t) && id < |s.fibers| == |t.fibers|
    requires t.blocked == s.blocked + [id]
    requires forall j: nat :: j < |t.fibers| && j != id ==> t.fibers[j] == s.fibers[j]
    requires RetryOf(env, t.fibers[id].state).Some? && Stuck(RetryOf(env, t.fibers[id].state).value, s)
    ensures WaitersOk(env, t)
  {
    hide Stuck, SameResources, RetryOf;
    forall j: nat | j in t.blocked && j < |t.fibers| && t.fibers[j].sources.None?
      ensures RetryOf(env, t.fibers[j].state).Some? && Stuck(RetryOf(env, t.fibers[j].state).value, t)
    {
      if j != id {
        assert j in s.blocked;
      }
      StuckKept(RetryOf(env, t.fibers[j].state).value, s, t);
    }
  }

  // ----- conservation -----

  /** Values accepted by channel `c`, in order. */
  function SentOn(log: seq<ChanCall>, c: nat): seq<Value> {
    if log == [] then []
    else if Last(log).SendCall? && Last(log).chan == c then SentOn(Init(log), c) + [Last(log).value]
    else SentOn(Init(log), c)
  }

  /** Values handed out by channel `c`, in order. */
  function ReceivedOn(log: seq<ChanCall>, c: nat): seq<Value> {
    if log == [] then []
    else if Last(log).RecvCall? && Last(log).chan == c then ReceivedOn(Init(log), c) + [Last(log).value]
    else ReceivedOn(Init(log), c)
  }

  /**
   For every channel: what completed `send` calls put in is what completed
   `receive` calls took out, followed by the buffer, which never exceeds a
   capacity of at least one.
   */
  ghost predicate Conserved(cs: seq<Chan>, log: seq<ChanCall>) {
    && (forall c: nat :: c < |cs| ==>
          && SentOn(log, c) == ReceivedOn(log, c) + cs[c].buffer
          && 1 <= cs[c].capacity && |cs[c].buffer| <= cs[c].capacity)
    && (forall c: nat :: c >= |cs| ==> SentOn(log, c) == [] && ReceivedOn(log, c) == [])
  }

  lemma LogStep(log: seq<ChanCall>, e: ChanCall, c: nat)
    ensures SentOn(log + [e], c) == if e.SendCall? && e.chan == c then SentOn(log, c) + [e.value] else SentOn(log, c)
    ensures ReceivedOn(log + [e], c)
         == if e.RecvCall? && e.chan == c then ReceivedOn(log, c) + [e.value] else ReceivedOn(log, c)
  {
    assert Init(log + [e]) == log;
  }

  lemma SendConserves(cs: seq<Chan>, log: seq<ChanCall>, id: nat, c: nat, v: Value)
    requires Conserved(cs, log) && c < |cs| && |cs[c].buffer| < cs[c].capacity
    ensures Conserved(cs[c := cs[c].(buffer := cs[c].buffer + [v])], log + [SendCall(id, c, v)])
  {
    forall k: nat
      ensures SentOn(log + [SendCall(id, c, v)], k) == if k == c then SentOn(log, k) + [v] else SentOn(log, k)
      ensures ReceivedOn(log + [SendCall(id, c, v)], k) == ReceivedOn(log, k)
    {
      LogStep(log, SendCall(id, c, v), k);
    }
    assert ReceivedOn(log, c) + cs[c].buffer + [v] == ReceivedOn(log, c) + (cs[c].buffer + [v]);
  }

  lemma ReceiveConserves(cs: seq<Chan>, log: seq<ChanCall>, id: nat, c: nat)
    requires Conserved(cs, log) && c < |cs| && cs[c].buffer != []
    ensures Conserved(cs[c := cs[c].(buffer := cs[c].buffer[1..])], log + [RecvCall(id, c, cs[c].buffer[0])])
  {
    var v := cs[c].buffer[0];
    forall k: nat
      ensures SentOn(log + [RecvCall(id, c, v)], k) == SentOn(log, k)
      ensures ReceivedOn(log + [RecvCall(id, c, v)], k) == if k == c then ReceivedOn(log, k) + [v] else ReceivedOn(log, k)
    {
      LogStep(log, RecvCall(id, c, v), k);
    }
    assert cs[c].buffer == [v] + cs[c].buffer[1..];
    assert ReceivedOn(log, c) + cs[c].buffer == ReceivedOn(log, c) + [v] + cs[c].buffer[1..];
  }

  /** Close keeps the books; so does a new empty channel. */
  lemma OtherOpsConserve(cs: seq<Chan>, log: seq<ChanCall>, c: nat, capacity: nat)
    requires Conserved(cs, log)
    ensures c < |cs| ==> Conserved(cs[c := cs[c].(closed := true)], log)
    ensures capacity >= 1 ==> Conserved(cs + [Chan([], capacity, false)], log)
  {
  }

  lemma NativeConserves(k: Native, id: nat, args: seq<Value>, h: HeapState, s: Sched, o: Oracle, log: seq<ChanCall>)
    requires SchedInv(s) && Conserved(s.channels, log)
    ensures var r := RunNative(k, id, args, h, s, o);
            r.NativeOk? ==> Conserved(r.sched.channels, LogWith(log, r.call))
  {
    hide Conserved, SchedInv, WakePolls, SpawnFiber, WakeAll, AllocState, AllocHandle;
    match k
    case Spawn =>
      if |args| == 1 {
        SpawnKeeps(s, args[0]);
      }
    case ChanNew =>
      if |args| == 1 && args[0].Int? {
        var n: nat := if args[0].n < 0 then 0 else args[0].n;
        OtherOpsConserve(s.channels, log, 0, if n == 0 then 1 else n);
      }
    case Send =>
      if |args| == 2 && args[0].Int? && 0 <= args[0].n < |s.channels| {
        ChannelOpsChannels(s, args[0].n, args[1]);
        if TrySend(s, args[0].n, args[1]).1.Sent? {
          SendConserves(s.channels, log, id, args[0].n, args[1]);
        }
      }
    case Receive =>
      if |args| == 1 && args[0].Int? && 0 <= args[0].n < |s.channels| {
        ChannelOpsChannels(s, args[0].n, Unit);
        if TryReceive(s, args[0].n).1.Got? {
          ReceiveConserves(s.channels, log, id, args[0].n);
        }
      }
    case CloseChannel =>
      if |args| == 1 && args[0].Int? && 0 <= args[0].n < |s.channels| {
        ChannelOpsChannels(s, args[0].n, Unit);
        OtherOpsConserve(s.channels, log, args[0].n, 1);
      }
    case Foreign =>
      if o.foreign.ForeignDone? {
        WakePollsKeep(s, o.foreign.closed);
      }
    case _ =>
  }

  // ----- transitions -----

  ghost predicate ChannelsOk(env: Env, v: Vm) {
    WaitersOk(env, v.sched) && Conserved(v.sched.channels, v.log)
  }

  /** The active frame has just fetched this `call.native`. */
  predicate AtNative(env: Env, v: Vm, native: nat, argc: nat) {
    && v.frames != [] && Last(v.frames).pc > 0 && Last(v.frames).func < |env.m.functions|
    && Last(v.frames).pc <= |env.m.functions[Last(v.frames).func].code|
    && var i := env.m.functions[Last(v.frames).func].code[Last(v.frames).pc - 1];
       i.CallNative? && i.native == native && i.argc == argc
  }

  /** A rewound fiber retries the same native on the same arguments. */
  lemma RewindRetries(env: Env, v: Vm, native: nat, argc: nat)
    requires AtNative(env, v, native, argc) && argc <= |v.vstack| && native < |env.natives|
    ensures RetryOf(env, Suspended(v.vstack, SetPc(v.frames, Last(v.frames).pc - 1)))
         == Some(Attempt(env.natives[native], v.vstack[|v.vstack| - argc..]))
  {
  }

  lemma NativeStepChannels(env: Env, v: Vm, id: nat, native: nat, argc: nat, o: Oracle)
    requires AtNative(env, v, native, argc) && v.phase == Exec(id) && SchedOk(v) && ChannelsOk(env, v)
    ensures var w := NativeStep(env, v, id, native, argc, o); !w.phase.Halt? ==> ChannelsOk(env, w)
  {
    hide SchedInv, RunNative, WaitersOk, Conserved, RetryOf, Stuck, ParkCurrent;
    if argc <= |v.vstack| && native < |env.natives| {
      var base, k := |v.vstack| - argc, env.natives[native];
      var args := v.vstack[base..];
      var r := RunNative(k, id, args, v.heap, v.sched, o);
      NativeKeeps(k, id, args, v.heap, v.sched, o);
      NativeWaiters(env, k, id, args, v.heap, v.sched, o);
      NativeConserves(k, id, args, v.heap, v.sched, o, v.log);
      StuckIsRetry(k, id, args, v.heap, v.sched, o);
      RewindRetries(env, v, native, argc);
      if r.NativeOk? && r.park.Some? {
        var v1 := v.(heap := r.heap, log := LogWith(v.log, r.call));
        if r.park.value.BlockRetry? || r.park.value.Ready? {
          ParkWaiters(env, v1, id, r.sched, v.vstack, SetPc(v.frames, Last(v.frames).pc - 1), r.park.value);
          ParkLog(v1, id, r.sched, v.vstack, SetPc(v.frames, Last(v.frames).pc - 1), r.park.value);
        } else {
          ParkWaiters(env, v1, id, r.sched, v.vstack[..base] + [r.ret], v.frames, r.park.value);
          ParkLog(v1, id, r.sched, v.vstack[..base] + [r.ret], v.frames, r.park.value);
        }
      }
    }
  }

  lemma ParkLog(v: Vm, id: nat, s: Sched, vstack: seq<Value>, frames: seq<Frame>, req: ParkRequest)
    requires id < |s.fibers|
    ensures var w := ParkCurrent(v, id, s, vstack, frames, req);
            && w.log == v.log && w.sched.channels == s.channels && w.phase.Pick?
            && id < |w.sched.fibers| && w.sched.fibers[id].state == Suspended(vstack, frames)
  {
    hide AddPoll, AddPolls;
  }

  /**
   One call, one transfer: an attempt that asks to be re-run touches neither
   channels nor log and is saved at the same instruction with the same stack,
   and an attempt that is logged leaves the fiber running past the call.
   */
  lemma RetriesTransferOnce(env: Env, v: Vm, id: nat, native: nat, argc: nat, o: Oracle)
    requires AtNative(env, v, native, argc) && v.phase == Exec(id) && SchedOk(v)
    ensures var w := NativeStep(env, v, id, native, argc, o);
            && (w.log != v.log ==> w.phase == v.phase && w.frames == v.frames && |w.log| == |v.log| + 1)
            && (argc <= |v.vstack| && native < |env.natives|
                && Stuck(Attempt(env.natives[native], v.vstack[|v.vstack| - argc..]), v.sched) ==>
                  && w.log == v.log && w.sched.channels == v.sched.channels
                  && w.phase.Pick? && id < |w.sched.fibers|
                  && w.sched.fibers[id].state == Suspended(v.vstack, SetPc(v.frames, Last(v.frames).pc - 1)))
  {
    hide SchedInv, RunNative, RetryOf, Stuck, ParkCurrent;
    if argc <= |v.vstack| && native < |env.natives| {
      var base, k := |v.vstack| - argc, env.natives[native];
      var args := v.vstack[base..];
      var r := RunNative(k, id, args, v.heap, v.sched, o);
      NativeKeeps(k, id, args, v.heap, v.sched, o);
      StuckIsRetry(k, id, args, v.heap, v.sched, o);
      LoggedNotParked(k, id, args, v.heap, v.sched, o);
      if r.NativeOk? && r.park.Some? {
        var v1 := v.(heap := r.heap, log := LogWith(v.log, r.call));
        if r.park.value.BlockRetry? || r.park.value.Ready? {
          ParkLog(v1, id, r.sched, v.vstack, SetPc(v.frames, Last(v.frames).pc - 1), r.park.value);
        } else {
          ParkLog(v1, id, r.sched, v.vstack[..base] + [r.ret], v.frames, r.park.value);
        }
      }
    }
  }

  lemma LoggedNotParked(k: Native, id: nat, args: seq<Value>, h: HeapState, s: Sched, o: Oracle)
    ensures var r := RunNative(k, id, args, h, s, o); r.NativeOk? && r.call.Some? ==> r.park.None?
  {
    hide WakeAll, WakePolls, SpawnFiber, AllocState, AllocHandle, NewChannel, Ints;
  }

  lemma AbsorbChannels(env: Env, v: Vm, id: nat, e: Effect)
    requires v.phase == Exec(id) && SchedOk(v) && ChannelsOk(env, v)
    ensures var w := Absorb(v, id, e); !w.phase.Halt? ==> ChannelsOk(env, w)
  {
    hide WaitersOk, Conserved;
    if e.Finish? {
      CompleteKeeps(v.sched, id, e.value);
      NoWaiters(env, CompleteFiber(v.sched, id, e.value));
    }
  }

  /** Code run inside a fallback keeps waiters stuck and the books balanced. */
  lemma {:induction false} NestedChannels(
      env: Env, id: nat, calls: seq<NestedCall>, h: HeapState, s: Sched, log: seq<ChanCall>)
    requires SchedInv(s) && WaitersOk(env, s) && Conserved(s.channels, log)
    ensures var r := RunNested(id, calls, h, s, log);
            r.NestedOk? ==> WaitersOk(env, r.sched) && Conserved(r.sched.channels, r.log)
  {
    hide SchedInv, RunNative, WaitersOk, Conserved;
    if calls == [] {
    } else {
      NestedChannels(env, id, Init(calls), h, s, log);
      NestedKeeps(id, Init(calls), h, s, log);
      var r, c := RunNested(id, Init(calls), h, s, log), Last(calls);
      if r.NestedOk? {
        NativeWaiters(env, c.native, id, c.args, r.heap, r.sched, c.o);
        NativeConserves(c.native, id, c.args, r.heap, r.sched, c.o, r.log);
      }
    }
  }

  lemma AfterNestedChannels(env: Env, v: Vm, id: nat, i: Instr, o: Oracle)
    requires SchedOk(v) && ChannelsOk(env, v)
    ensures var w := AfterNested(env, v, id, i, o); !w.phase.Halt? ==> ChannelsOk(env, w)
  {
    hide SchedInv, RunNested, FallsBack, WaitersOk, Conserved;
    NestedChannels(env, id, o.nested, v.heap, v.sched, v.log);
  }

  lemma ExecChannels(env: Env, v: Vm, id: nat, o: Oracle)
    requires v.phase == Exec(id) && SchedOk(v) && ChannelsOk(env, v)
    ensures var w := ExecStep(env, v, id, o); !w.phase.Halt? ==> ChannelsOk(env, w)
  {
    hide SchedOk, WaitersOk, Conserved, NativeStep, Absorb, Perform, AfterFetch, AfterNested;
    if CanFetch(env, v) {
      var i, v1 := NextInstr(env, v), AfterFetch(env, v);
      FetchOk(env, v);
      if !v1.phase.Halt? {
        if i.CallNative? {
          NativeStepChannels(env, v1, id, i.native, i.argc, o);
        } else {
          AfterNestedOk(env, v1, id, i, o);
          AfterNestedChannels(env, v1, id, i, o);
          var v2 := AfterNested(env, v1, id, i, o);
          if !v2.phase.Halt? {
            AbsorbChannels(env, v2, id, Perform(env, i, v1.vstack, v1.frames, v1.heap, o));
          }
        }
      }
    }
  }

  lemma ResumeChannels(env: Env, v: Vm)
    requires SchedOk(v) && v.phase.Pick? && ChannelsOk(env, v) && v.sched.ready != []
    ensures ChannelsOk(env, PickStep(env, v))
  {
    hide SchedInv, Dequeue, EnterFrame, WaitersOk, Conserved;
    var s := v.sched;
    DequeueKeeps(s);
    var t := Dequeue(s);
    RunningPlain(t, s.ready[0]);
    assert forall j: nat :: j < |s.fibers| && j != s.ready[0] ==> t.fibers[j] == s.fibers[j];
    WaitersKept(env, s, t);
  }

  lemma OutsideChannels(env: Env, v: Vm, h: int, now: int)
    requires SchedOk(v) && ChannelsOk(env, v)
    ensures ChannelsOk(env, v.(sched := WakePoll(v.sched, h)))
    ensures ChannelsOk(env, v.(phase := Pick, sched := WakeTimers(v.sched, now)))
  {
    hide WaitersOk, Conserved, SchedInv, WakePoll, WakeTimers;
    WakePollKeeps(v.sched, h);
    GrownWaiters(env, v.sched, WakePoll(v.sched, h));
    WakeTimersKeeps(v.sched, now);
    GrownWaiters(env, v.sched, WakeTimers(v.sched, now));
  }

  lemma DeliverChannels(env: Env, v: Vm, id: nat, h: HeapState, value: Value)
    requires SchedOk(v) && ChannelsOk(env, v) && id in v.jobs
    ensures ChannelsOk(env, DeliverStep(v, id, h, value))
  {
    hide WaitersOk, Conserved;
    DeliverReady(v.sched, id);
    WaitersKept(env, v.sched, DeliverIo(v.sched, id, value));
  }

  /** Every transition keeps blocked waiters stuck and the channel books balanced. */
  lemma StepKeepsChannels(env: Env, v: Vm, e: Event)
    requires SchedOk(v) && ChannelsOk(env, v) && !v.phase.Halt? && Enabled(env, v, e)
    ensures var w := Step(env, v, e); !w.phase.Halt? ==> ChannelsOk(env, w)
  {
    hide SchedOk, WaitersOk, Conserved;
    match e
    case DoInstr(o) => ExecChannels(env, v, v.phase.id, o);
    case DoPick =>
      if v.sched.ready != [] {
        ResumeChannels(env, v);
      }
    case SocketReady(h) => OutsideChannels(env, v, h, 0);
    case IoDone(id, h, value) => DeliverChannels(env, v, id, h, value);
    case IoFault(_) =>
    case Tick(now) => OutsideChannels(env, v, 0, now);
  }
}
