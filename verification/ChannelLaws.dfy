/**
 What a program can rely on from channels over whole runs: a new channel takes
 its capacity of values before a send waits, and a closed one refuses every send,
 hands out what it holds in order and then answers `None` for ever
 (`chan_new`, `chan_close` and `Chan` in `runtime/src/interp/mod.rs`).
 */
module ChannelLaws {
  import opened Values
  import opened Heaps
  import opened Bytecode
  import opened Schedulers
  import opened SchedulerInvariant
  import opened Machine
  import opened RunScheduler
  import opened RunHandles
  import opened RunChannels
  import opened Runs
  import opened RunHistory
  import opened RunCalls

  // ----- capacity -----

  /** The scheduler after sends of `vs` in order, each of which goes through. */
  function SendAll(s: Sched, c: nat, vs: seq<Value>): Sched {
    if vs == [] then s
    else
      var t := SendAll(s, c, Init(vs));
      if c < |t.channels| then TrySend(t, c, Last(vs)).0 else t
  }

  lemma {:induction false} FillsInOrder(s: Sched, c: nat, vs: seq<Value>)
    requires SchedInv(s) && c < |s.channels| && s.channels[c].buffer == [] && !s.channels[c].closed
    requires |vs| <= s.channels[c].capacity
    ensures var t := SendAll(s, c, vs);
            SchedInv(t) && t.channels == s.channels[c := Chan(vs, s.channels[c].capacity, false)]
  {
    hide SchedInv, TrySend;
    if vs == [] {
      assert s.channels[c := s.channels[c]] == s.channels;
    } else {
      FillsInOrder(s, c, Init(vs));
      OneMore(s, SendAll(s, c, Init(vs)), c, Init(vs), Last(vs));
      assert Init(vs) + [Last(vs)] == vs;
    }
  }

  lemma OneMore(s: Sched, t: Sched, c: nat, vs: seq<Value>, v: Value)
    requires SchedInv(t) && c < |s.channels| && |vs| < s.channels[c].capacity
    requires t.channels == s.channels[c := Chan(vs, s.channels[c].capacity, false)]
    ensures var u := TrySend(t, c, v).0;
            SchedInv(u) && u.channels == s.channels[c := Chan(vs + [v], s.channels[c].capacity, false)]
  {
    hide SchedInv, TrySend;
    ChannelOpsKeep(t, c, v);
    ChannelOpsChannels(t, c, v);
    SendOutcomes(t, c, v);
  }

  lemma SendOutcomes(s: Sched, c: nat, v: Value)
    requires c < |s.channels|
    ensures TrySend(s, c, v).1.Sent? <==> !s.channels[c].closed && |s.channels[c].buffer| < s.channels[c].capacity
    ensures TrySend(s, c, v).1.Closed? <==> s.channels[c].closed
    ensures TrySend(s, c, v).1.Full? ==> TrySend(s, c, v).0 == s
  {
  }

  /**
   A channel made with capacity `n` is new, and the send after any values it
   took goes through exactly while there are fewer than `n` of them; a capacity
   below one counts as one.
   */
  lemma CapacityHolds(id: nat, n: i64, vs: seq<Value>, x: Value, h: HeapState, s: Sched, o: Oracle)
    requires SchedInv(s) && |s.channels| < POW63 && |vs| <= if n <= 1 then 1 else n
    ensures var c, made := |s.channels|, RunNative(ChanNew, id, [Int(n)], h, s, o);
            && made.NativeOk? && made.ret == Int(c) && made.park.None?
            && made.sched == s.(channels := made.sched.channels) && made.sched.channels[..c] == s.channels
            && var t := SendAll(made.sched, c, vs);
               var r := RunNative(Send, id, [Int(c), x], h, t, o);
               && c < |t.channels| && t.channels[c].buffer == vs
               && (r == Retry(h, t) <==> |vs| == if n <= 1 then 1 else n)
               && (r != Retry(h, t) ==> r.NativeOk? && r.park.None? && r.call == Some(SendCall(id, c, x)))
  {
    var c: nat, made := |s.channels|, RunNative(ChanNew, id, [Int(n)], h, s, o);
    ChannelsKeep(s, made.sched.channels);
    hide SchedInv, TrySend, SendAll;
    FillsInOrder(made.sched, c, vs);
    SendOutcomes(SendAll(made.sched, c, vs), c, x);
  }

  // ----- closing -----

  lemma NativeLogs(env: Env, v: Vm, id: nat, native: nat, argc: nat, o: Oracle)
    requires v.frames != [] && Last(v.frames).pc > 0
    ensures v.log <= NativeStep(env, v, id, native, argc, o).log
  {
    hide RunNative, ParkIo, ParkFiber;
  }

  lemma {:induction false} NestedLogs(id: nat, calls: seq<NestedCall>, h: HeapState, s: Sched, log: seq<ChanCall>)
    ensures var r := RunNested(id, calls, h, s, log); r.NestedOk? ==> log <= r.log
  {
    if calls == [] {
    } else {
      hide RunNative;
      NestedLogs(id, Init(calls), h, s, log);
    }
  }

  /** The history of channel calls only grows. */
  lemma StepLogs(env: Env, v: Vm, e: Event)
    requires SchedOk(v) && !v.phase.Halt? && Enabled(env, v, e)
    ensures v.log <= Step(env, v, e).log
  {
    hide SchedOk, NativeStep, Perform, RunNested, FallsBack, AfterFetch, OracleOk, HeapMoves, Dequeue, EnterFrame;
    hide DeliverIo;
    if e.DoInstr? && CanFetch(env, v) {
      var i, v1 := NextInstr(env, v), AfterFetch(env, v);
      FetchOk(env, v);
      if !v1.phase.Halt? {
        if i.CallNative? {
          NativeLogs(env, v1, v.phase.id, i.native, i.argc, e.o);
        } else {
          NestedLogs(v.phase.id, e.o.nested, v1.heap, v1.sched, v1.log);
        }
      }
    }
  }

  lemma {:induction false} RunLogs(env: Env, v: Vm, events: seq<Event>)
    requires SchedOk(v) && RunOf(env, v, events)
    ensures v.log <= After(env, v, events).log
  {
    if events == [] {
    } else {
      hide SchedOk, Step, Enabled, RunOf;
      RunPrefix(env, v, events);
      RunLogs(env, v, Init(events));
      RunKeepsSched(env, v, Init(events));
      StepLogs(env, After(env, v, Init(events)), Last(events));
    }
  }

  lemma {:induction false} ReceivedGrows(log: seq<ChanCall>, later: seq<ChanCall>, c: nat)
    requires log <= later
    ensures ReceivedOn(log, c) <= ReceivedOn(later, c)
    decreases |later|
  {
    if |log| == |later| {
      assert log == later;
    } else {
      assert log <= Init(later) && later == Init(later) + [Last(later)];
      ReceivedGrows(log, Init(later), c);
      LogStep(Init(later), Last(later), c);
    }
  }

  /**
   From the moment a channel is closed it only drains: what has been received
   from it since, followed by what it still holds, is what it held when closed.
   */
  lemma ClosedDrains(env: Env, v: Vm, events: seq<Event>, c: nat)
    requires Sound(env, v) && RunOf(env, v, events) && !After(env, v, events).phase.Halt?
    requires c < |v.sched.channels| && v.sched.channels[c].closed
    ensures var w, n := After(env, v, events), |ReceivedOn(v.log, c)|;
            && c < |w.sched.channels| && w.sched.channels[c].closed && n <= |ReceivedOn(w.log, c)|
            && ReceivedOn(w.log, c)[n..] + w.sched.channels[c].buffer == v.sched.channels[c].buffer
  {
    hide SchedOk, HandlesOk, After, RunOf, ResultsFixed, WorkersFixed, WaitersOk;
    var w := After(env, v, events);
    RunForward(env, v, events);
    RunLogs(env, v, events);
    RunKeepsSound(env, v, events);
    ReceivedGrows(v.log, w.log, c);
    Cancelled(ReceivedOn(v.log, c), ReceivedOn(w.log, c), v.sched.channels[c].buffer, w.sched.channels[c].buffer);
  }

  lemma Cancelled(p: seq<Value>, q: seq<Value>, a: seq<Value>, b: seq<Value>)
    requires p <= q && p + a == q + b
    ensures q[|p|..] + b == a
  {
    assert q == p + q[|p|..];
    assert (p + a)[|p|..] == a && (q + b)[|p|..] == q[|p|..] + b;
  }

  /** For ever after, a send to a closed channel fails and a receive never waits; once empty it answers `None`. */
  lemma ClosedAnswers(env: Env, v: Vm, events: seq<Event>, c: nat, id: nat, x: Value, h: HeapState, o: Oracle)
    requires SchedOk(v) && RunOf(env, v, events) && c < POW63 && FreeListOk(h)
    requires c < |v.sched.channels| && v.sched.channels[c].closed
    ensures var s := After(env, v, events).sched;
            && RunNative(Send, id, [Int(c), x], h, s, o) == NativeFail(ClosedChannel)
            && var r := RunNative(Receive, id, [Int(c)], h, s, o);
               && r.NativeOk? && r.park.None? && c < |s.channels|
               && (if s.channels[c].buffer == [] then ReadsNone(r.heap, r.ret) && r.call.None? && r.sched == s
                   else ReadsSome(r.heap, r.ret, s.channels[c].buffer[0]))
  {
    hide SchedOk, After, RunOf, ResultsFixed, WorkersFixed, WakeAll, AllocState, AllocHandle, FreeListOk;
    RunForward(env, v, events);
    var s := After(env, v, events).sched;
    if s.channels[c].buffer == [] {
      AllocCorrect(h, NoneObj(), o.bytes);
    } else {
      AllocCorrect(h, SomeObj(s.channels[c].buffer[0]), o.bytes);
    }
  }

  /** Closing closes that channel, keeps what it holds, and gives every waiter another try. */
  lemma CloseWakes(id: nat, c: nat, h: HeapState, s: Sched, o: Oracle)
    requires SchedInv(s) && c < |s.channels| && c < POW63
    ensures var r := RunNative(CloseChannel, id, [Int(c)], h, s, o);
            && r.NativeOk? && r.ret == Unit && r.park.None? && r.heap == h
            && r.sched.channels == s.channels[c := s.channels[c].(closed := true)] && r.sched.blocked == []
  {
    ChannelsKeep(s, s.channels[c := s.channels[c].(closed := true)]);
    WakeAllKeeps(s.(channels := s.channels[c := s.channels[c].(closed := true)]));
  }
}
