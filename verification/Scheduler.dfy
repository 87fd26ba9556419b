/**
 The cooperative fiber scheduler and its channels
 (`runtime/src/interp/mod.rs`, `Scheduler` and `Chan`).

 `Sched` is the scheduler as a value with one function per operation;
 `class Scheduler` updates the same fields in place and is proved against them.
 A pending I/O finish is a Rust closure, so only its presence is recorded.
 An index that Rust would panic on leaves the value unchanged here; the
 invariant of module `SchedulerInvariant` shows that no run contains one.
 */
module Schedulers {
  import opened Values

  const MAIN_FIBER: nat := 0

  /** One activation record: running function, program counter, slot base. */
  datatype Frame = Frame(func: nat, pc: nat, base: nat)

  datatype FiberState =
    | NotStarted(closure: Value)
    | Suspended(vstack: seq<Value>, frames: seq<Frame>)
    | Running
    | Done(value: Value)

  /** Where a `Multi` park listed a fiber, besides `blocked`. */
  datatype ParkSources = ParkSources(timer: bool, handles: seq<int>)

  datatype Fiber = Fiber(state: FiberState, pending: bool, queued: bool, sources: Option<ParkSources>)

  datatype ParkRequest =
    | BlockRetry
    | YieldReady
    | Timer(deadline: int)
    | Await
    | Ready(handle: int)
    | Multi(until: Option<int>, handles: seq<int>)

  datatype Chan = Chan(buffer: seq<Value>, capacity: nat, closed: bool)

  datatype SendOutcome = Sent | Full | Closed
  datatype RecvOutcome = Got(value: Value) | Empty | Drained

  datatype Sched = Sched(
    fibers: seq<Fiber>,
    ready: seq<nat>,
    blocked: seq<nat>,
    timers: seq<(int, nat)>,
    ioBlocked: nat,
    poll: map<int, seq<nat>>,
    channels: seq<Chan>)

  // ----- operations on values -----

  /** Make `id` runnable; a fiber already queued is left alone. */
  function MakeReady(s: Sched, id: nat): Sched {
    if id < |s.fibers| && !s.fibers[id].queued then
      s.(fibers := s.fibers[id := s.fibers[id].(queued := true)], ready := s.ready + [id])
    else s
  }

  function MakeAllReady(s: Sched, ids: seq<nat>): Sched {
    if ids == [] then s else MakeReady(MakeAllReady(s, Init(ids)), Last(ids))
  }

  function WakeAll(s: Sched): Sched {
    MakeAllReady(s.(blocked := []), s.blocked)
  }

  function WakePoll(s: Sched, handle: int): Sched {
    if handle in s.poll then MakeAllReady(s.(poll := s.poll - {handle}), s.poll[handle]) else s
  }

  function NewChannel(s: Sched, capacity: nat): Sched {
    s.(channels := s.channels + [Chan([], if capacity == 0 then 1 else capacity, false)])
  }

  function TrySend(s: Sched, c: nat, v: Value): (Sched, SendOutcome)
    requires c < |s.channels|
  {
    var ch := s.channels[c];
    if ch.closed then (s, Closed)
    else if |ch.buffer| < ch.capacity then
      (WakeAll(s.(channels := s.channels[c := ch.(buffer := ch.buffer + [v])])), Sent)
    else (s, Full)
  }

  function TryReceive(s: Sched, c: nat): (Sched, RecvOutcome)
    requires c < |s.channels|
  {
    var ch := s.channels[c];
    if ch.buffer != [] then
      (WakeAll(s.(channels := s.channels[c := ch.(buffer := ch.buffer[1..])])), Got(ch.buffer[0]))
    else if ch.closed then (s, Drained)
    else (s, Empty)
  }

  function CloseChan(s: Sched, c: nat): Sched
    requires c < |s.channels|
  {
    WakeAll(s.(channels := s.channels[c := s.channels[c].(closed := true)]))
  }

  function SpawnFiber(s: Sched, closure: Value): Sched {
    MakeReady(s.(fibers := s.fibers + [Fiber(NotStarted(closure), false, false, None)]), |s.fibers|)
  }

  /** The result of fiber `id`, if it exists and has finished. */
  function ResultOf(s: Sched, id: int): Option<Value> {
    if 0 <= id < |s.fibers| && s.fibers[id].state.Done? then Some(s.fibers[id].state.value) else None
  }

  function CompleteFiber(s: Sched, id: nat, v: Value): Sched {
    if id < |s.fibers| then WakeAll(s.(fibers := s.fibers[id := s.fibers[id].(state := Done(v))])) else s
  }

  /** Append `id` to the waiters of one socket handle. */
  function AddPoll(poll: map<int, seq<nat>>, handle: int, id: nat): map<int, seq<nat>> {
    poll[handle := (if handle in poll then poll[handle] else []) + [id]]
  }

  function AddPolls(poll: map<int, seq<nat>>, handles: seq<int>, id: nat): map<int, seq<nat>> {
    if handles == [] then poll else AddPoll(AddPolls(poll, Init(handles), id), Last(handles), id)
  }

  /** Save the running fiber's stacks and route it by its park request. */
  function ParkFiber(s: Sched, id: nat, vstack: seq<Value>, frames: seq<Frame>, req: ParkRequest): Sched
    requires id < |s.fibers| && !req.Await?
  {
    var s1 := s.(fibers := s.fibers[id := s.fibers[id].(state := Suspended(vstack, frames))]);
    match req
    case YieldReady => MakeReady(s1, id)
    case BlockRetry => s1.(blocked := s1.blocked + [id])
    case Timer(d) => s1.(timers := s1.timers + [(d, id)])
    case Ready(h) => s1.(poll := AddPoll(s1.poll, h, id))
    case Multi(until, handles) =>
      s1.(blocked := s1.blocked + [id],
          timers := s1.timers + (if until.Some? then [(until.value, id)] else []),
          poll := AddPolls(s1.poll, handles, id),
          fibers := s1.fibers[id := s1.fibers[id].(sources := Some(ParkSources(until.Some?, handles)))])
  }

  /** Park on a worker syscall: only the worker's completion makes the fiber runnable. */
  function ParkIo(s: Sched, id: nat, vstack: seq<Value>, frames: seq<Frame>): Sched
    requires id < |s.fibers|
  {
    s.(fibers := s.fibers[id := s.fibers[id].(state := Suspended(vstack, frames), pending := true)],
       ioBlocked := s.ioBlocked + 1)
  }

  function Without(ids: seq<nat>, id: nat): seq<nat> {
    if ids == [] then []
    else if Last(ids) == id then Without(Init(ids), id)
    else Without(Init(ids), id) + [Last(ids)]
  }

  function TimersWithout(ts: seq<(int, nat)>, id: nat): seq<(int, nat)> {
    if ts == [] then []
    else if Last(ts).1 == id then TimersWithout(Init(ts), id)
    else TimersWithout(Init(ts), id) + [Last(ts)]
  }

  function DropPoll(poll: map<int, seq<nat>>, handle: int, id: nat): map<int, seq<nat>> {
    if handle !in poll then poll
    else
      var kept := Without(poll[handle], id);
      if kept == [] then poll - {handle} else poll[handle := kept]
  }

  function DropPolls(poll: map<int, seq<nat>>, handles: seq<int>, id: nat): map<int, seq<nat>> {
    if handles == [] then poll else DropPoll(DropPolls(poll, Init(handles), id), Last(handles), id)
  }

  /** Drop `id` from every list its `Multi` park put it on. */
  function UnlistFiber(s: Sched, id: nat): Sched
    requires id < |s.fibers|
  {
    match s.fibers[id].sources
    case None => s
    case Some(src) =>
      s.(fibers := s.fibers[id := s.fibers[id].(sources := None)],
         blocked := Without(s.blocked, id),
         timers := if src.timer then TimersWithout(s.timers, id) else s.timers,
         poll := DropPolls(s.poll, src.handles, id))
  }

  /** Dequeue the next ready fiber and mark it running. */
  function Dequeue(s: Sched): Sched
    requires s.ready != [] && s.ready[0] < |s.fibers|
  {
    var id := s.ready[0];
    var s1 := s.(ready := s.ready[1..], fibers := s.fibers[id := s.fibers[id].(queued := false)]);
    var s2 := UnlistFiber(s1, id);
    s2.(fibers := s2.fibers[id := s2.fibers[id].(state := Running)])
  }

  /** Hand a finished syscall's value to its fiber: overwrite the placeholder, make it runnable. */
  function DeliverIo(s: Sched, id: nat, v: Value): Sched
    requires id < |s.fibers| && s.fibers[id].state.Suspended? && s.fibers[id].state.vstack != []
    requires s.ioBlocked > 0
  {
    var f := s.fibers[id];
    var st := Suspended(Init(f.state.vstack) + [v], f.state.frames);
    MakeReady(s.(fibers := s.fibers[id := f.(state := st, pending := false)], ioBlocked := s.ioBlocked - 1), id)
  }

  function DueIds(ts: seq<(int, nat)>, now: int): seq<nat> {
    if ts == [] then []
    else if Last(ts).0 <= now then DueIds(Init(ts), now) + [Last(ts).1]
    else DueIds(Init(ts), now)
  }

  function NotDue(ts: seq<(int, nat)>, now: int): seq<(int, nat)> {
    if ts == [] then []
    else if Last(ts).0 <= now then NotDue(Init(ts), now)
    else NotDue(Init(ts), now) + [Last(ts)]
  }

  function WakeTimers(s: Sched, now: int): Sched {
    MakeAllReady(s.(timers := NotDue(s.timers, now)), DueIds(s.timers, now))
  }

  const EMPTY_SCHED := Sched([], [], [], [], 0, map[], [])

  // ----- the scheduler updated in place -----

  class Scheduler {
    var fibers: seq<Fiber>
    var ready: seq<nat>
    var blocked: seq<nat>
    var timers: seq<(int, nat)>
    var ioBlocked: nat
    var poll: map<int, seq<nat>>
    var channels: seq<Chan>

    function State(): Sched
      reads this
    {
      Sched(fibers, ready, blocked, timers, ioBlocked, poll, channels)
    }

    constructor ()
      ensures State() == EMPTY_SCHED
    {
      fibers, ready, blocked, timers := [], [], [], [];
      ioBlocked, poll, channels := 0, map[], [];
    }

    method Wake(id: nat)
      requires id < |fibers|
      modifies this`fibers, this`ready
      ensures State() == MakeReady(old(State()), id)
    {
      if fibers[id].queued {
        return;
      }
      fibers := fibers[id := fibers[id].(queued := true)];
      ready := ready + [id];
    }

    method WakeEach(ids: seq<nat>)
      requires forall id :: id in ids ==> id < |fibers|
      modifies this`fibers, this`ready
      ensures State() == MakeAllReady(old(State()), ids)
    {
      for i := 0 to |ids|
        invariant |fibers| == |old(fibers)|
        invariant State() == MakeAllReady(old(State()), ids[..i])
      {
        assert Init(ids[..i + 1]) == ids[..i] && ids[i] in ids;
        Wake(ids[i]);
      }
      assert ids[..|ids|] == ids;
    }

    method WakeBlocked()
      requires forall id :: id in blocked ==> id < |fibers|
      modifies this`fibers, this`ready, this`blocked
      ensures State() == WakeAll(old(State()))
    {
      var ids := blocked;
      blocked := [];
      WakeEach(ids);
    }

    method WakeHandle(handle: int)
      requires handle in poll ==> forall id :: id in poll[handle] ==> id < |fibers|
      modifies this`fibers, this`ready, this`poll
      ensures State() == WakePoll(old(State()), handle)
    {
      if handle in poll {
        var waiters := poll[handle];
        poll := poll - {handle};
        WakeEach(waiters);
      }
    }

    method ChannelNew(capacity: nat) returns (id: nat)
      modifies this`channels
      ensures id == |old(channels)| && State() == NewChannel(old(State()), capacity)
    {
      id := |channels|;
      channels := channels + [Chan([], if capacity == 0 then 1 else capacity, false)];
    }

    method ChanSend(c: nat, v: Value) returns (outcome: SendOutcome)
      requires c < |channels| && forall id :: id in blocked ==> id < |fibers|
      modifies this
      ensures (State(), outcome) == TrySend(old(State()), c, v)
    {
      var ch := channels[c];
      if ch.closed {
        outcome := Closed;
      } else if |ch.buffer| < ch.capacity {
        channels := channels[c := ch.(buffer := ch.buffer + [v])];
        outcome := Sent;
      } else {
        outcome := Full;
      }
      if outcome == Sent {
        WakeBlocked();
      }
    }

    method ChanReceive(c: nat) returns (outcome: RecvOutcome)
      requires c < |channels| && forall id :: id in blocked ==> id < |fibers|
      modifies this
      ensures (State(), outcome) == TryReceive(old(State()), c)
    {
      var ch := channels[c];
      if |ch.buffer| > 0 {
        channels := channels[c := ch.(buffer := ch.buffer[1..])];
        outcome := Got(ch.buffer[0]);
      } else if ch.closed {
        outcome := Drained;
      } else {
        outcome := Empty;
      }
      if outcome.Got? {
        WakeBlocked();
      }
    }

    method ChanClose(c: nat)
      requires c < |channels| && forall id :: id in blocked ==> id < |fibers|
      modifies this
      ensures State() == CloseChan(old(State()), c)
    {
      channels := channels[c := channels[c].(closed := true)];
      WakeBlocked();
    }

    method Spawn(closure: Value) returns (id: nat)
      modifies this`fibers, this`ready
      ensures id == |old(fibers)| && State() == SpawnFiber(old(State()), closure)
    {
      id := |fibers|;
      fibers := fibers + [Fiber(NotStarted(closure), false, false, None)];
      Wake(id);
    }

    method Complete(id: nat, v: Value)
      requires id < |fibers| && forall b :: b in blocked ==> b < |fibers|
      modifies this
      ensures State() == CompleteFiber(old(State()), id, v)
    {
      fibers := fibers[id := fibers[id].(state := Done(v))];
      WakeBlocked();
    }

    method Park(id: nat, vstack: seq<Value>, frames: seq<Frame>, req: ParkRequest)
      requires id < |fibers| && !req.Await?
      modifies this
      ensures State() == ParkFiber(old(State()), id, vstack, frames, req)
    {
      fibers := fibers[id := fibers[id].(state := Suspended(vstack, frames))];
      match req {
        case YieldReady => Wake(id);
        case BlockRetry => blocked := blocked + [id];
        case Timer(d) => timers := timers + [(d, id)];
        case Ready(h) => poll := AddPoll(poll, h, id);
        case Multi(until, handles) =>
          blocked := blocked + [id];
          if until.Some? {
            timers := timers + [(until.value, id)];
          }
          ghost var before := poll;
          for i := 0 to |handles|
            invariant poll == AddPolls(before, handles[..i], id)
            modifies this`poll
          {
            assert Init(handles[..i + 1]) == handles[..i];
            poll := AddPoll(poll, handles[i], id);
          }
          assert handles[..|handles|] == handles;
          fibers := fibers[id := fibers[id].(sources := Some(ParkSources(until.Some?, handles)))];
      }
    }

    method ParkAwait(id: nat, vstack: seq<Value>, frames: seq<Frame>)
      requires id < |fibers|
      modifies this`fibers, this`ioBlocked
      ensures State() == ParkIo(old(State()), id, vstack, frames)
    {
      fibers := fibers[id := fibers[id].(state := Suspended(vstack, frames), pending := true)];
      ioBlocked := ioBlocked + 1;
    }

    /** Remove every occurrence of `id`, keeping order (`Vec::retain`). */
    static method Retain(ids: seq<nat>, id: nat) returns (kept: seq<nat>)
      ensures kept == Without(ids, id)
    {
      kept := [];
      for i := 0 to |ids|
        invariant kept == Without(ids[..i], id)
      {
        assert Init(ids[..i + 1]) == ids[..i];
        if ids[i] != id {
          kept := kept + [ids[i]];
        }
      }
      assert ids[..|ids|] == ids;
    }

    static method RetainTimers(ts: seq<(int, nat)>, id: nat) returns (kept: seq<(int, nat)>)
      ensures kept == TimersWithout(ts, id)
    {
      kept := [];
      for i := 0 to |ts|
        invariant kept == TimersWithout(ts[..i], id)
      {
        assert Init(ts[..i + 1]) == ts[..i];
        if ts[i].1 != id {
          kept := kept + [ts[i]];
        }
      }
      assert ts[..|ts|] == ts;
    }

    method Unlist(id: nat)
      requires id < |fibers|
      modifies this`fibers, this`blocked, this`timers, this`poll
      ensures State() == UnlistFiber(old(State()), id)
    {
      var sources := fibers[id].sources;
      if sources.None? {
        return;
      }
      var handles := sources.value.handles;
      fibers := fibers[id := fibers[id].(sources := None)];
      blocked := Retain(blocked, id);
      if sources.value.timer {
        timers := RetainTimers(timers, id);
      }
      DropHandles(handles, id);
    }

    method DropHandles(handles: seq<int>, id: nat)
      modifies this`poll
      ensures poll == DropPolls(old(poll), handles, id)
    {
      for i := 0 to |handles|
        invariant poll == DropPolls(old(poll), handles[..i], id)
      {
        assert Init(handles[..i + 1]) == handles[..i];
        if handles[i] in poll {
          var kept := Retain(poll[handles[i]], id);
          if |kept| == 0 {
            poll := poll - {handles[i]};
          } else {
            poll := poll[handles[i] := kept];
          }
        }
      }
      assert handles[..|handles|] == handles;
    }

    /** The scheduler half of `next_ready`. */
    method Next() returns (id: nat, was: FiberState)
      requires ready != [] && ready[0] < |fibers|
      modifies this
      ensures id == old(ready)[0] && was == old(fibers)[id].state
      ensures State() == Dequeue(old(State()))
    {
      id := ready[0];
      ready := ready[1..];
      fibers := fibers[id := fibers[id].(queued := false)];
      Unlist(id);
      was := fibers[id].state;
      fibers := fibers[id := fibers[id].(state := Running)];
    }

    method Deliver(id: nat, v: Value)
      requires id < |fibers| && fibers[id].state.Suspended? && fibers[id].state.vstack != []
      requires ioBlocked > 0
      modifies this`fibers, this`ready, this`ioBlocked
      ensures State() == DeliverIo(old(State()), id, v)
    {
      var f := fibers[id];
      var st := f.state;
      fibers := fibers[id := f.(state := Suspended(st.vstack[|st.vstack| - 1 := v], st.frames), pending := false)];
      assert st.vstack[|st.vstack| - 1 := v] == Init(st.vstack) + [v];
      ioBlocked := ioBlocked - 1;
      Wake(id);
    }

    method EarliestDeadline() returns (d: Option<int>)
      ensures d.None? <==> timers == []
      ensures d.Some? ==> exists i :: 0 <= i < |timers| && timers[i].0 == d.value
      ensures d.Some? ==> forall i :: 0 <= i < |timers| ==> d.value <= timers[i].0
    {
      d := None;
      for i := 0 to |timers|
        invariant d.None? <==> i == 0
        invariant d.Some? ==> exists j :: 0 <= j < i && timers[j].0 == d.value
        invariant d.Some? ==> forall j :: 0 <= j < i ==> d.value <= timers[j].0
      {
        if d.None? || timers[i].0 < d.value {
          d := Some(timers[i].0);
        }
      }
    }

    method WakeDueTimers(now: int) returns (woke: bool)
      requires forall i :: 0 <= i < |timers| ==> timers[i].1 < |fibers|
      modifies this`fibers, this`ready, this`timers
      ensures State() == WakeTimers(old(State()), now)
      ensures woke <==> exists i :: 0 <= i < |old(timers)| && old(timers)[i].0 <= now
    {
      var due: seq<nat>, kept := [], [];
      for i := 0 to |timers|
        invariant due == DueIds(timers[..i], now) && kept == NotDue(timers[..i], now)
        invariant forall id :: id in due ==> id < |fibers|
        invariant due != [] <==> exists j :: 0 <= j < i && timers[j].0 <= now
      {
        assert Init(timers[..i + 1]) == timers[..i];
        if timers[i].0 <= now {
          due := due + [timers[i].1];
        } else {
          kept := kept + [timers[i]];
        }
      }
      assert timers[..|timers|] == timers;
      timers := kept;
      WakeEach(due);
      woke := |due| > 0;
    }
  }
}
