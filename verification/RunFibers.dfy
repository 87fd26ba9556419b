/**
 The life of a fiber over whole runs: what spawning, yielding, joining and
 parking do to the machine, which events wake which fibers, and where the result
 a join answers comes from (`runtime/src/interp/mod.rs` and
 `runtime/src/interp/natives.rs`).
 */
module RunFibers {
  import opened Values
  import opened Heaps
  import opened Bytecode
  import opened Schedulers
  import opened SchedulerInvariant
  import opened Machine
  import opened RunScheduler
  import opened RunChannels
  import opened Runs
  import opened RunHistory

  // ----- the start -----

  /**
   A run starts exactly when the function exists and takes that many arguments:
   the main fiber at its first instruction, the arguments in its first locals and
   `Unit` in the others, on the heap as it was.
   */
  lemma StartRuns(env: Env, h: HeapState, func: nat, args: seq<Value>)
    ensures var v := Start(env, h, func, args);
            && (v.phase.Halt? <==> func >= |env.m.functions| || |args| != env.m.functions[func].paramCount)
            && (v.phase.Halt? ==> v.phase == Halt(Trapped(Bug(if func < |env.m.functions| then Arity else NoFunction))))
            && (!v.phase.Halt? ==>
                  && v.phase == Exec(0) && v.frames == [Frame(func, 0, 0)]
                  && |v.vstack| == env.m.functions[func].localCount
                  && forall k :: 0 <= k < |v.vstack| ==> v.vstack[k] == if k < |args| then args[k] else Unit)
            && v.heap == h && v.log == [] && v.jobs == {} && v.sched.channels == []
            && |v.sched.fibers| == 1 && v.sched.fibers[0].state.Running? && v.sched.ready == []
  {
  }

  // ----- one native call -----

  /** The running fiber is about to call native `k` on `args`, over `below`. */
  predicate CallOf(env: Env, v: Vm, id: nat, k: Native, below: seq<Value>, args: seq<Value>) {
    && v.phase == Exec(id) && CanFetch(env, v) && NextInstr(env, v).CallNative?
    && NextInstr(env, v).native < |env.natives| && env.natives[NextInstr(env, v).native] == k
    && NextInstr(env, v).argc == |args| && v.vstack == below + args
  }

  /** The frames of `v` past the instruction it is at. */
  function Past(v: Vm): seq<Frame>
    requires v.frames != []
  {
    SetPc(v.frames, Last(v.frames).pc + 1)
  }

  /** `w` runs on past the call, whose arguments `ret` replaced. */
  predicate Answered(v: Vm, id: nat, below: seq<Value>, ret: Value, w: Vm)
    requires v.frames != []
  {
    w.phase == Exec(id) && w.vstack == below + [ret] && w.frames == Past(v)
  }

  /** `w` has handed fiber `id` to the scheduler with these stacks, and no other fiber's state changed. */
  predicate Parked(v: Vm, id: nat, vstack: seq<Value>, frames: seq<Frame>, w: Vm) {
    && w.phase == Pick && w.vstack == [] && w.frames == []
    && id < |v.sched.fibers| == |w.sched.fibers| && w.sched.fibers[id].state == Suspended(vstack, frames)
    && (forall k :: 0 <= k < |v.sched.fibers| && k != id ==> w.sched.fibers[k].state == v.sched.fibers[k].state)
  }

  /** How a native call ends, by what the native reported. */
  lemma CallEnds(env: Env, v: Vm, id: nat, k: Native, below: seq<Value>, args: seq<Value>, o: Oracle)
    requires SchedOk(v) && CallOf(env, v, id, k, below, args) && !AfterFetch(env, v).phase.Halt?
    ensures var v1 := AfterFetch(env, v);
            var r, w := RunNative(k, id, args, v1.heap, v.sched, o), ExecStep(env, v, id, o);
            && (r.NativeFail? ==> w.phase == Halt(Trapped(r.trap)))
            && (r.NativeOk? && r.park.None? ==> Answered(v, id, below, r.ret, w) && w.sched == r.sched)
            && (r.NativeOk? && r.park.Some? && id < |r.sched.fibers| ==>
                  var v2 := v1.(heap := r.heap, log := LogWith(v1.log, r.call));
                  if r.park.value.BlockRetry? || r.park.value.Ready?
                  then w == ParkCurrent(v2, id, r.sched, v.vstack, v.frames, r.park.value)
                  else w == ParkCurrent(v2, id, r.sched, below + [r.ret], Past(v), r.park.value))
  {
    hide RunNative, ParkCurrent, AfterFetch, SchedInv;
    FetchOk(env, v);
    var n := |below|;
    assert v.vstack[n..] == args && v.vstack[..n] == below;
    SteppedBack(v.frames);
  }

  lemma SteppedBack(frames: seq<Frame>)
    requires frames != []
    ensures var on := SetPc(frames, Last(frames).pc + 1);
            on != [] && Last(on).pc > 0 && SetPc(on, Last(on).pc - 1) == frames
  {
    assert frames == Init(frames) + [Last(frames)];
    assert Init(SetPc(frames, Last(frames).pc + 1)) == Init(frames);
  }

  lemma ParkedBy(v: Vm, u: Vm, id: nat, vstack: seq<Value>, frames: seq<Frame>, req: ParkRequest)
    requires id < |v.sched.fibers|
    ensures Parked(v, id, vstack, frames, ParkCurrent(u, id, v.sched, vstack, frames, req))
  {
    hide AddPoll, AddPolls;
  }

  /** A spawn answers the new fiber's number: an unstarted fiber of that closure, last in the queue. */
  lemma SpawnStarts(env: Env, v: Vm, id: nat, below: seq<Value>, c: Value, o: Oracle)
    requires SchedOk(v) && CallOf(env, v, id, Spawn, below, [c]) && |v.sched.fibers| < POW63
    ensures var w, n := ExecStep(env, v, id, o), |v.sched.fibers|;
            || w.phase == Halt(Trapped(OutOfMemory))
            || (&& Answered(v, id, below, Int(n), w)
                && w.sched == v.sched.(fibers := v.sched.fibers + [Fiber(NotStarted(c), false, true, None)],
                                       ready := v.sched.ready + [n]))
  {
    FetchOk(env, v);
    if !AfterFetch(env, v).phase.Halt? {
      CallEnds(env, v, id, Spawn, below, [c], o);
      hide ExecStep, AfterFetch, SchedInv;
      var s1 := v.sched.(fibers := v.sched.fibers + [Fiber(NotStarted(c), false, false, None)]);
      assert s1.fibers[|v.sched.fibers| := Fiber(NotStarted(c), false, true, None)]
          == v.sched.fibers + [Fiber(NotStarted(c), false, true, None)];
    }
  }

  /** A join of a finished fiber answers its result; any other join waits at the call. */
  lemma JoinAnswers(env: Env, v: Vm, id: nat, below: seq<Value>, n: i64, o: Oracle)
    requires SchedOk(v) && CallOf(env, v, id, Join, below, [Int(n)])
    ensures var w := ExecStep(env, v, id, o);
            || w.phase == Halt(Trapped(OutOfMemory))
            || (if 0 <= n < |v.sched.fibers| && v.sched.fibers[n].state.Done?
                then Answered(v, id, below, v.sched.fibers[n].state.value, w) && w.sched == v.sched
                else Parked(v, id, v.vstack, v.frames, w) && w.sched.blocked == v.sched.blocked + [id])
  {
    FetchOk(env, v);
    if !AfterFetch(env, v).phase.Halt? {
      CallEnds(env, v, id, Join, below, [Int(n)], o);
      hide ExecStep, AfterFetch, SchedInv;
      var u := AfterFetch(env, v).(log := AfterFetch(env, v).log);
      ParkedBy(v, u, id, v.vstack, v.frames, BlockRetry);
    }
  }

  /** A yield is answered by `Unit` once every fiber queued before has had its turn. */
  lemma YieldRequeues(env: Env, v: Vm, id: nat, below: seq<Value>, o: Oracle)
    requires SchedOk(v) && CallOf(env, v, id, Yield, below, [])
    ensures var w := ExecStep(env, v, id, o);
            || w.phase == Halt(Trapped(OutOfMemory))
            || (Parked(v, id, below + [Unit], Past(v), w) && w.sched.ready == v.sched.ready + [id])
  {
    FetchOk(env, v);
    if !AfterFetch(env, v).phase.Halt? {
      CallEnds(env, v, id, Yield, below, [], o);
      hide ExecStep, AfterFetch;
      RunningPlain(v.sched, id);
      var u := AfterFetch(env, v).(log := AfterFetch(env, v).log);
      ParkedBy(v, u, id, below + [Unit], Past(v), YieldReady);
      ParkRoutes(v.sched, id, below + [Unit], Past(v), YieldReady, id);
    }
  }

  lemma {:induction false} IntsListed(vs: seq<Value>)
    requires AllInts(vs)
    ensures |Ints(vs)| == |vs| && forall i :: 0 <= i < |vs| ==> vs[i].Int? && vs[i].n == Ints(vs)[i]
  {
    if vs == [] {
    } else {
      IntsListed(Init(vs));
    }
  }

  /** A select waits on the channels, on exactly the sockets listed and, unless its limit is negative, on the clock. */
  lemma SelectWaits(env: Env, v: Vm, id: nat, below: seq<Value>, list: Value, limit: i64, items: seq<Value>, o: Oracle)
    requires SchedOk(v) && CallOf(env, v, id, SelectPark, below, [list, Int(limit)])
    requires Fetch(AfterFetch(env, v).heap, list) == Found(ListObj(items)) && AllInts(items)
    ensures var w := ExecStep(env, v, id, o);
            || w.phase == Halt(Trapped(OutOfMemory))
            || (&& Parked(v, id, below + [Unit], Past(v), w) && id in w.sched.blocked
                && (forall h: i64 :: h in w.sched.poll && id in w.sched.poll[h] <==> Int(h) in items)
                && (limit < 0 ==> forall d :: (d, id) !in w.sched.timers)
                && (limit >= 0 ==> (o.clock, id) in w.sched.timers))
  {
    FetchOk(env, v);
    if !AfterFetch(env, v).phase.Halt? {
      CallEnds(env, v, id, SelectPark, below, [list, Int(limit)], o);
      hide ExecStep, AfterFetch, SchedInv, RunNative, Parked;
      var u := AfterFetch(env, v).(log := AfterFetch(env, v).log);
      var req := Multi(if limit < 0 then None else Some(o.clock), Ints(items));
      SelectAsks(id, list, limit, items, u.heap, v.sched, o);
      ParkedBy(v, u, id, below + [Unit], Past(v), req);
      ParkRoutes(v.sched, id, below + [Unit], Past(v), req, id);
      SelectListings(v.sched, ParkFiber(v.sched, id, below + [Unit], Past(v), req), id, items, limit < 0);
    }
  }

  lemma SelectAsks(id: nat, list: Value, limit: i64, items: seq<Value>, h: HeapState, s: Sched, o: Oracle)
    requires Fetch(h, list) == Found(ListObj(items)) && AllInts(items)
    ensures RunNative(SelectPark, id, [list, Int(limit)], h, s, o)
         == NativeOk(h, s, Unit, Some(Multi(if limit < 0 then None else Some(o.clock), Ints(items))), None)
  {
  }

  lemma SelectListings(s: Sched, t: Sched, id: nat, items: seq<Value>, never: bool)
    requires AllInts(items) && PlaceOf(t, id) == Place(false, true, if never then 0 else 1, set h | h in Ints(items))
    ensures id in t.blocked
    ensures forall h: i64 :: h in t.poll && id in t.poll[h] <==> Int(h) in items
    ensures never ==> forall d :: (d, id) !in t.timers
  {
    IntsListed(items);
    forall h: i64 ensures h in t.poll && id in t.poll[h] <==> Int(h) in items {
      assert h in Polls(t.poll, id) <==> h in Ints(items);
    }
    if never {
      forall d ensures (d, id) !in t.timers {
        NoTimers(t.timers, d, id);
      }
    }
  }

  lemma {:induction false} NoTimers(ts: seq<(int, nat)>, d: int, id: nat)
    requires TimerCount(ts, id) == 0
    ensures (d, id) !in ts
  {
    if ts == [] {
    } else {
      NoTimers(Init(ts), d, id);
      assert ts == Init(ts) + [Last(ts)];
    }
  }

  /**
   A native outside the model that parks: a sleeper is listed for its deadline, a
   syscall is out at the workers, both with the result on the stack; a fiber that
   waits for a socket will call again.
   */
  lemma ForeignParks(env: Env, v: Vm, id: nat, below: seq<Value>, args: seq<Value>, h: HeapState, ret: Value,
                     park: ForeignPark, o: Oracle)
    requires SchedOk(v) && CallOf(env, v, id, Foreign, below, args) && o.foreign == ForeignDone(h, ret, park, [])
    ensures var w := ExecStep(env, v, id, o);
            || w.phase == Halt(Trapped(OutOfMemory))
            || match park
               case NoPark => Answered(v, id, below, ret, w) && w.heap == h && w.sched == v.sched
               case SleepUntil(d) =>
                 Parked(v, id, below + [ret], Past(v), w) && w.sched.timers == v.sched.timers + [(d, id)]
               case Syscall =>
                 && Parked(v, id, below + [ret], Past(v), w) && w.jobs == v.jobs + {id} && id !in v.jobs
                 && w.sched.fibers[id].pending
               case SocketWait(handle) =>
                 Parked(v, id, v.vstack, v.frames, w) && handle in w.sched.poll && id in w.sched.poll[handle]
  {
    FetchOk(env, v);
    if !AfterFetch(env, v).phase.Halt? {
      CallEnds(env, v, id, Foreign, below, args, o);
      hide ExecStep, AfterFetch;
      RunningPlain(v.sched, id);
      var u := AfterFetch(env, v).(heap := h, log := AfterFetch(env, v).log);
      match park
      case NoPark =>
      case SleepUntil(d) => ParkedBy(v, u, id, below + [ret], Past(v), Timer(d));
      case Syscall => ParkedBy(v, u, id, below + [ret], Past(v), Await);
      case SocketWait(handle) => ParkedBy(v, u, id, v.vstack, v.frames, Ready(handle));
    }
  }

  // ----- who is woken -----

  /** A tick makes ready exactly the fibers with a deadline that has come. */
  lemma TickWakes(env: Env, v: Vm, now: int, id: nat)
    requires SchedOk(v)
    ensures var w := Step(env, v, Tick(now));
            && (id in w.sched.ready <==> id in v.sched.ready || exists d :: (d, id) in v.sched.timers && d <= now)
            && (forall t :: t in w.sched.timers <==> t in v.sched.timers && t.0 > now)
            && w.sched.blocked == v.sched.blocked && w.sched.poll == v.sched.poll
  {
    hide SchedInv, WakeTimers;
    TimersWake(v.sched, now, id);
  }

  lemma TimersWake(s: Sched, now: int, id: nat)
    requires SchedInv(s)
    ensures var t := WakeTimers(s, now);
            && (id in t.ready <==> id in s.ready || exists d :: (d, id) in s.timers && d <= now)
            && t.timers == NotDue(s.timers, now) && t.blocked == s.blocked && t.poll == s.poll
    ensures forall t :: t in NotDue(s.timers, now) <==> t in s.timers && t.0 > now
  {
    hide DueIds, NotDue, Polls, TimerCount, PendingCount, PlacedOk;
    DueExact(s.timers, now);
    forall k: nat | k in DueIds(s.timers, now) ensures k < |s.fibers| {
      DueIsFiber(s, now, k);
    }
    ReadyEffect(s.(timers := NotDue(s.timers, now)), DueIds(s.timers, now));
  }

  lemma DueIsFiber(s: Sched, now: int, k: nat)
    requires SchedInv(s) && k in DueIds(s.timers, now)
    ensures k < |s.fibers|
  {
    DueSplit(s.timers, now, k);
    assert PlaceOf(s, k).Parked();
  }

  /** Readiness of a socket makes ready exactly the fibers that wait on it. */
  lemma SocketWakes(env: Env, v: Vm, h: int, id: nat)
    requires SchedOk(v)
    ensures var w := Step(env, v, SocketReady(h));
            && (id in w.sched.ready <==> id in v.sched.ready || (h in v.sched.poll && id in v.sched.poll[h]))
            && w.sched.poll == v.sched.poll - {h}
            && w.sched.blocked == v.sched.blocked && w.sched.timers == v.sched.timers
  {
    hide SchedInv, WakePoll;
    OneSocketWakes(v.sched, h, id);
  }

  /** Every fiber blocked on a channel or a join gets another try: all and only they become ready. */
  lemma ProgressWakes(s: Sched, id: nat)
    requires SchedInv(s)
    ensures var t := WakeAll(s);
            && (id in t.ready <==> id in s.ready || id in s.blocked) && t.blocked == []
            && t.timers == s.timers && t.poll == s.poll
  {
    forall k: nat | k in s.blocked ensures k < |s.fibers| {
      assert PlaceOf(s, k).Parked();
    }
    ReadyEffect(s.(blocked := []), s.blocked);
  }

  /** While the driver waits, whatever any fiber waits for is being watched. */
  lemma DriverWatches(env: Env, v: Vm, h: int, id: nat, now: int)
    requires SchedOk(v) && v.phase.Pick? && PickStep(env, v).phase.Wait?
    ensures var w := PickStep(env, v);
            && w == v.(phase := w.phase) && v.sched.ready == []
            && (h in v.sched.poll ==> Enabled(env, w, SocketReady(h)))
            && (id in v.jobs ==> Enabled(env, w, IoFault(id)))
            && (v.sched.timers != [] ==> Enabled(env, w, Tick(now)))
            && (v.sched.poll.Keys != {} || v.jobs != {} || v.sched.timers != [])
  {
    hide Resume;
    if v.sched.ready != [] {
      ResumeNeverWaits(env, v.(sched := Dequeue(v.sched)), v.sched.ready[0], v.sched.fibers[v.sched.ready[0]].state);
    }
    assert |v.sched.poll| > 0 <==> v.sched.poll.Keys != {};
    if id in v.jobs {
      DeliverReady(v.sched, id);
    }
    if v.sched.ioBlocked > 0 {
      var j := SomePending(v.sched.fibers);
      assert j in v.jobs;
    }
  }

  lemma ResumeNeverWaits(env: Env, v: Vm, id: nat, was: FiberState)
    requires v.phase.Pick?
    ensures !Resume(env, v, id, was).phase.Wait?
  {
  }

  lemma {:induction false} SomePending(fs: seq<Fiber>) returns (k: nat)
    requires PendingCount(fs) > 0
    ensures k < |fs| && fs[k].pending
  {
    if Last(fs).pending {
      k := |fs| - 1;
    } else {
      k := SomePending(Init(fs));
    }
  }

  /** Closing sockets makes ready exactly the fibers that wait on one of them. */
  lemma {:induction false} ClosedSocketsWake(s: Sched, handles: seq<int>, id: nat)
    requires SchedInv(s)
    ensures id in WakePolls(s, handles).ready
       <==> id in s.ready || exists h :: h in handles && h in s.poll && id in s.poll[h]
    ensures WakePolls(s, handles).poll == s.poll - (set h | h in handles)
  {
    if handles == [] {
      assert s.poll - (set h: int | h in handles) == s.poll;
    } else {
      hide SchedInv, WakePoll;
      var t, last := WakePolls(s, Init(handles)), Last(handles);
      ClosedSocketsWake(s, Init(handles), id);
      WakePollsKeep(s, Init(handles));
      assert handles == Init(handles) + [last];
      OneSocketWakes(t, last, id);
      assert (set h | h in handles) == (set h | h in Init(handles)) + {last};
    }
  }

  lemma OneSocketWakes(s: Sched, h: int, id: nat)
    requires SchedInv(s)
    ensures id in WakePoll(s, h).ready <==> id in s.ready || (h in s.poll && id in s.poll[h])
    ensures WakePoll(s, h).poll == s.poll - {h}
    ensures WakePoll(s, h).blocked == s.blocked && WakePoll(s, h).timers == s.timers
  {
    if h in s.poll {
      forall k: nat | k in s.poll[h] ensures k < |s.fibers| {
        assert h in Polls(s.poll, k);
        assert PlaceOf(s, k).Parked();
      }
      ReadyEffect(s.(poll := s.poll - {h}), s.poll[h]);
    } else {
      assert s.poll - {h} == s.poll;
    }
  }

  /** A native outside the model that closes sockets: whoever waits on one of them gets another try. */
  lemma ForeignCloses(env: Env, v: Vm, id: nat, below: seq<Value>, args: seq<Value>, h: HeapState, ret: Value,
                      closed: seq<int>, o: Oracle, k: nat)
    requires SchedOk(v) && CallOf(env, v, id, Foreign, below, args) && o.foreign == ForeignDone(h, ret, NoPark, closed)
    ensures var w := ExecStep(env, v, id, o);
            || w.phase == Halt(Trapped(OutOfMemory))
            || (&& Answered(v, id, below, ret, w)
                && (k in w.sched.ready
                    <==> k in v.sched.ready || exists s :: s in closed && s in v.sched.poll && k in v.sched.poll[s]))
  {
    FetchOk(env, v);
    if !AfterFetch(env, v).phase.Halt? {
      CallEnds(env, v, id, Foreign, below, args, o);
      hide ExecStep, AfterFetch, SchedInv, WakePolls;
      ClosedSocketsWake(v.sched, closed, k);
    }
  }

  // ----- from spawn to result -----

  /** The fiber is about to return from its last frame, with `x`. */
  predicate Returning(env: Env, v: Vm, id: nat, x: Value) {
    && v.phase == Exec(id) && CanFetch(env, v) && NextInstr(env, v).Return? && |v.frames| == 1
    && var floor := v.frames[0].base + env.m.functions[v.frames[0].func].localCount;
       x == if |v.vstack| > floor then Last(v.vstack) else Unit
  }

  lemma ParkSuspends(v: Vm, id: nat, s: Sched, vstack: seq<Value>, frames: seq<Frame>, req: ParkRequest)
    requires id < |s.fibers|
    ensures var t := ParkCurrent(v, id, s, vstack, frames, req).sched;
            id < |t.fibers| && t.fibers[id].state.Suspended?
  {
    hide AddPoll, AddPolls;
  }

  lemma NativeNeverFinishes(env: Env, v: Vm, id: nat, native: nat, argc: nat, o: Oracle)
    requires SchedOk(v) && v.phase == Exec(id) && v.frames != [] && Last(v.frames).pc > 0
    ensures var w := NativeStep(env, v, id, native, argc, o);
            id < |w.sched.fibers| && (w.sched.fibers[id].state.Running? || w.sched.fibers[id].state.Suspended?)
  {
    hide RunNative, ParkCurrent, SchedInv;
    if argc <= |v.vstack| && native < |env.natives| {
      var base := |v.vstack| - argc;
      NativeKeeps(env.natives[native], id, v.vstack[base..], v.heap, v.sched, o);
      var r := RunNative(env.natives[native], id, v.vstack[base..], v.heap, v.sched, o);
      if r.NativeOk? && r.park.Some? {
        var v1 := v.(heap := r.heap, log := LogWith(v.log, r.call));
        ParkSuspends(v1, id, r.sched, v.vstack, SetPc(v.frames, Last(v.frames).pc - 1), r.park.value);
        ParkSuspends(v1, id, r.sched, v.vstack[..base] + [r.ret], v.frames, r.park.value);
      }
    }
  }

  /** A running fiber goes on running, parks, or finishes with what it returns. */
  lemma RunningStep(env: Env, v: Vm, id: nat, o: Oracle)
    requires SchedOk(v) && v.phase == Exec(id)
    ensures var w := ExecStep(env, v, id, o);
            && id < |w.sched.fibers| && !w.sched.fibers[id].state.NotStarted?
            && (w.sched.fibers[id].state.Done? ==> Returning(env, v, id, w.sched.fibers[id].state.value))
  {
    hide NativeStep, AfterFetch, SchedInv, AfterNested, Perform, WakeAll;
    if CanFetch(env, v) {
      var i, v1 := NextInstr(env, v), AfterFetch(env, v);
      FetchOk(env, v);
      if !v1.phase.Halt? {
        if i.CallNative? {
          NativeNeverFinishes(env, v1, id, i.native, i.argc, o);
        } else {
          AfterNestedOk(env, v1, id, i, o);
          NestedHaltKeeps(env, v1, id, i, o);
          var v2, e := AfterNested(env, v1, id, i, o), Perform(env, i, v1.vstack, v1.frames, v1.heap, o);
          OnlyReturnFinishes(env, i, v1.vstack, v1.frames, v1.heap, o);
          if !v2.phase.Halt? && e.Finish? {
            CompleteKeeps(v2.sched, id, e.value);
          }
        }
      }
    }
  }

  lemma NestedHaltKeeps(env: Env, v: Vm, id: nat, i: Instr, o: Oracle)
    requires !v.phase.Halt?
    ensures AfterNested(env, v, id, i, o).phase.Halt? ==> AfterNested(env, v, id, i, o).sched == v.sched
  {
    hide RunNested, FallsBack;
  }

  lemma OnlyReturnFinishes(env: Env, i: Instr, vstack: seq<Value>, frames: seq<Frame>, h: HeapState, o: Oracle)
    requires frames != [] && !i.CallNative?
    ensures var e := Perform(env, i, vstack, frames, h, o);
            e.Finish? ==>
              && i.Return? && |frames| == 1 && Last(frames).func < |env.m.functions|
              && var floor := Last(frames).base + env.m.functions[Last(frames).func].localCount;
                 e.value == if |vstack| > floor then Last(vstack) else Unit
  {
    hide PopPush, EnterFrame, Indirect, Virtual;
    if IsData(i) {
      DataNeverFinishes(env, i, vstack, frames, h, o);
    } else if i.CallIndirect? || i.CallVirtual? {
      CallsNeverFinish(env.m, vstack, frames, h, if i.CallVirtual? then i.selector else [], i.argc, o);
    }
  }

  lemma DataNeverFinishes(env: Env, i: Instr, vstack: seq<Value>, frames: seq<Frame>, h: HeapState, o: Oracle)
    ensures !PopPush(env, i, vstack, frames, h, o).Finish?
  {
    hide Apply, Pops;
  }

  lemma CallsNeverFinish(m: Module, vstack: seq<Value>, frames: seq<Frame>, h: HeapState,
                         selector: Text, argc: nat, o: Oracle)
    ensures !Indirect(m, vstack, frames, h, argc).Finish? && !Virtual(m, vstack, frames, h, selector, argc, o).Finish?
  {
    hide EnterFrame, VirtualTarget;
  }

  /** A run ends with a value exactly when its main fiber returns that value from its last frame. */
  lemma MainReturns(env: Env, v: Vm, e: Event, x: Value)
    requires SchedOk(v) && !v.phase.Halt? && Enabled(env, v, e)
    ensures Step(env, v, e).phase == Halt(Returned(x)) <==> Returning(env, v, MAIN_FIBER, x)
  {
    hide SchedInv, OracleOk, HeapMoves;
    if e.DoInstr? {
      ExecReturns(env, v, v.phase.id, e.o, x);
    } else if e.DoPick? {
      if v.sched.ready == [] {
        if v.sched.timers == [] && |v.sched.poll| == 0 && v.sched.ioBlocked == 0 {
          IdleMeansDeadlock(env, v);
        }
      } else {
        DequeueKeeps(v.sched);
        ResumeTrapsOnly(env, v.(sched := Dequeue(v.sched)), v.sched.ready[0], v.sched.fibers[v.sched.ready[0]].state);
      }
    }
  }

  lemma ResumeTrapsOnly(env: Env, v: Vm, id: nat, was: FiberState)
    requires v.phase.Pick?
    ensures var w := Resume(env, v, id, was); w.phase.Halt? ==> w.phase.outcome.Trapped?
  {
  }

  lemma ExecReturns(env: Env, v: Vm, id: nat, o: Oracle, x: Value)
    requires SchedOk(v) && v.phase == Exec(id)
    ensures ExecStep(env, v, id, o).phase == Halt(Returned(x)) <==> Returning(env, v, MAIN_FIBER, x)
  {
    hide SchedInv, NativeStep, Perform, AfterNested, WakeAll, AfterFetch;
    if CanFetch(env, v) {
      var i, v1 := NextInstr(env, v), AfterFetch(env, v);
      FetchOk(env, v);
      if !v1.phase.Halt? {
        if i.CallNative? {
          NativeNeverReturns(env, v1, id, i.native, i.argc, o);
        } else {
          AfterNestedOk(env, v1, id, i, o);
          OnlyReturnFinishes(env, i, v1.vstack, v1.frames, v1.heap, o);
          ReturnFinishes(env, v, v1, id, i, o);
        }
      } else {
        ReturnKeepsHeap(env, v);
      }
    }
  }

  lemma ReturnKeepsHeap(env: Env, v: Vm)
    requires CanFetch(env, v) && !v.phase.Halt?
    ensures AfterFetch(env, v).phase.Halt? ==> !NextInstr(env, v).Return?
  {
  }

  lemma ReturnFinishes(env: Env, v: Vm, u: Vm, id: nat, i: Instr, o: Oracle)
    requires CanFetch(env, v) && i == NextInstr(env, v) && u.frames == Past(v) && u.vstack == v.vstack
    ensures i.Return? && |v.frames| == 1 ==>
              AfterNested(env, u, id, i, o) == u && Perform(env, i, u.vstack, u.frames, u.heap, o).Finish?
  {
  }

  lemma NativeNeverReturns(env: Env, v: Vm, id: nat, native: nat, argc: nat, o: Oracle)
    requires !v.phase.Halt? && v.frames != [] && Last(v.frames).pc > 0
    ensures var w := NativeStep(env, v, id, native, argc, o); w.phase.Halt? ==> w.phase.outcome.Trapped?
  {
    hide RunNative, ParkIo, ParkFiber;
  }

  /** How a transition may move a fiber along. */
  predicate Follows(env: Env, v: Vm, e: Event, n: nat, was: FiberState, now: FiberState) {
    match was
    case NotStarted(_) => now == was || (Schedules(v, e) && v.sched.ready[0] == n && now.Running?)
    case Suspended(_, _) => now.Suspended? || now.Running?
    case Running => v.phase == Exec(n) && !now.NotStarted? && (now.Done? ==> Returning(env, v, n, now.value))
    case Done(_) => now == was
  }

  lemma StoryStep(env: Env, v: Vm, e: Event, n: nat)
    requires SchedOk(v) && !v.phase.Halt? && Enabled(env, v, e) && n < |v.sched.fibers|
    ensures var w := Step(env, v, e);
            n < |w.sched.fibers| && Follows(env, v, e, n, v.sched.fibers[n].state, w.sched.fibers[n].state)
  {
    hide SchedInv, Dequeue, ExecStep, HeapMoves, OracleOk, Returning;
    StepMoves(env, v, e);
    if v.sched.fibers[n].state.Running? {
      RunningIsInstr(env, v, e, n);
      RunningStep(env, v, n, e.o);
    } else if Schedules(v, e) {
      DequeueKeeps(v.sched);
    } else if e.IoDone? {
      DeliverReady(v.sched, e.id);
    }
  }

  lemma RunningIsInstr(env: Env, v: Vm, e: Event, n: nat)
    requires SchedOk(v) && Enabled(env, v, e) && n < |v.sched.fibers| && v.sched.fibers[n].state.Running?
    ensures v.phase == Exec(n) && e.DoInstr? && Step(env, v, e) == ExecStep(env, v, n, e.o)
  {
    hide SchedInv, ExecStep, OracleOk;
  }

  /** Event `i` scheduled fiber `n` for the first time, with its closure. */
  ghost predicate Begun(env: Env, v: Vm, events: seq<Event>, i: nat, n: nat, c: Value) {
    && i < |events|
    && var u := After(env, v, events[..i]);
       && Schedules(u, events[i]) && u.sched.ready[0] == n
       && n < |u.sched.fibers| && u.sched.fibers[n].state == NotStarted(c)
  }

  /** Event `j` was the fiber's return from its last frame, with `x`. */
  ghost predicate Ended(env: Env, v: Vm, events: seq<Event>, j: nat, n: nat, x: Value) {
    j < |events| && Returning(env, After(env, v, events[..j]), n, x)
  }

  /** What the events so far say of a fiber spawned on closure `c` that is now in state `st`. */
  ghost predicate Told(env: Env, v: Vm, events: seq<Event>, n: nat, c: Value, st: FiberState, i: nat, j: nat) {
    && (st.NotStarted? ==> st == NotStarted(c))
    && (!st.NotStarted? ==> Begun(env, v, events, i, n, c))
    && (st.Done? ==> i < j && Ended(env, v, events, j, n, st.value))
  }

  lemma TellOn(env: Env, v: Vm, events: seq<Event>, n: nat, c: Value, was: FiberState, now: FiberState, i: nat, j: nat)
    returns (i': nat, j': nat)
    requires events != [] && Told(env, v, Init(events), n, c, was, i, j)
    requires var u := After(env, v, Init(events));
             n < |u.sched.fibers| && was == u.sched.fibers[n].state && Follows(env, u, Last(events), n, was, now)
    ensures Told(env, v, events, n, c, now, i', j')
  {
    hide After, Returning, Schedules;
    assert events[..|events| - 1] == Init(events);
    assert i < |events| - 1 ==> Init(events)[..i] == events[..i];
    assert j < |events| - 1 ==> Init(events)[..j] == events[..j];
    i' := if was.NotStarted? then |events| - 1 else i;
    j' := if was.Running? then |events| - 1 else j;
  }

  /**
   Whatever else a run does, a spawned fiber keeps its closure until the driver
   first schedules it with that closure, and the result it has is what its own
   code returned after that.
   */
  lemma {:induction false} FiberStory(env: Env, v: Vm, events: seq<Event>, n: nat, c: Value) returns (i: nat, j: nat)
    requires SchedOk(v) && RunOf(env, v, events)
    requires n < |v.sched.fibers| && v.sched.fibers[n].state == NotStarted(c)
    ensures var w := After(env, v, events);
            n < |w.sched.fibers| && Told(env, v, events, n, c, w.sched.fibers[n].state, i, j)
  {
    if events == [] {
      i, j := 0, 0;
    } else {
      hide SchedOk, Step, Enabled, RunOf, Told, Follows;
      RunPrefix(env, v, events);
      RunKeepsSched(env, v, Init(events));
      i, j := FiberStory(env, v, Init(events), n, c);
      var u := After(env, v, Init(events));
      StoryStep(env, u, Last(events), n);
      i, j := TellOn(env, v, events, n, c, u.sched.fibers[n].state, After(env, v, events).sched.fibers[n].state, i, j);
    }
  }

  /** So joining the number a spawn answered yields what that closure's code returned, or waits. */
  lemma JoinOfSpawn(env: Env, v: Vm, events: seq<Event>, n: nat, c: Value, id: nat, below: seq<Value>, o: Oracle)
    returns (i: nat, j: nat, x: Value)
    requires SchedOk(v) && RunOf(env, v, events) && n < POW63
    requires n < |v.sched.fibers| && v.sched.fibers[n].state == NotStarted(c)
    requires var u := After(env, v, events); !u.phase.Halt? && CallOf(env, u, id, Join, below, [Int(n)])
    ensures var u := After(env, v, events);
            var w := ExecStep(env, u, id, o);
            || w.phase == Halt(Trapped(OutOfMemory))
            || (Parked(u, id, u.vstack, u.frames, w) && id in w.sched.blocked)
            || (&& Answered(u, id, below, x, w)
                && Begun(env, v, events, i, n, c) && i < j && Ended(env, v, events, j, n, x))
  {
    hide SchedOk, ExecStep, Begun, Ended, Parked, Answered, After, RunOf;
    i, j := FiberStory(env, v, events, n, c);
    var u := After(env, v, events);
    RunKeepsSched(env, v, events);
    JoinAnswers(env, u, id, below, n, o);
    x := if u.sched.fibers[n].state.Done? then u.sched.fibers[n].state.value else Unit;
  }
}
