/**
 The scheduler's invariant and its preservation by every operation.

 A fiber is in exactly the lists its state calls for: unstarted fibers are
 queued, running and finished fibers are nowhere, a fiber parked on a worker
 syscall is nowhere but counted, a single-source park is in one list, and a
 `Multi` park is only in lists its recorded sources will sweep.
 */
module SchedulerInvariant {
  import opened Values
  import opened Schedulers

  /** How many timers are armed for `id`. */
  function TimerCount(ts: seq<(int, nat)>, id: nat): nat {
    if ts == [] then 0 else TimerCount(Init(ts), id) + (if Last(ts).1 == id then 1 else 0)
  }

  /** The socket handles `id` waits on. */
  function Polls(poll: map<int, seq<nat>>, id: nat): set<int> {
    set h | h in poll && id in poll[h]
  }

  /** A fiber's listings: in `ready`, in `blocked`, number of timers, sockets. */
  datatype Place = Place(ready: bool, blocked: bool, timers: nat, polls: set<int>) {
    predicate Parked() { blocked || timers > 0 || polls != {} }
  }

  function PlaceOf(s: Sched, id: nat): Place {
    Place(id in s.ready, id in s.blocked, TimerCount(s.timers, id), Polls(s.poll, id))
  }

  /** A single-source park: one list, one entry, unless already queued. */
  predicate OneSource(p: Place) {
    && (p.ready || p.Parked())
    && (p.ready ==> !p.Parked())
    && (p.blocked ==> p.timers == 0 && p.polls == {})
    && p.timers <= 1
    && (p.timers > 0 ==> p.polls == {})
    && (forall h, k :: h in p.polls && k in p.polls ==> h == k)
  }

  /** A `Multi` park: every list it is in is one its sources name. */
  predicate ManySources(p: Place, src: ParkSources) {
    && (p.ready || p.blocked)
    && (p.timers > 0 ==> src.timer)
    && (forall h :: h in p.polls ==> h in src.handles)
  }

  predicate PlacedOk(f: Fiber, p: Place) {
    match f.state
    case NotStarted(_) => p.ready && !p.Parked() && !f.pending && f.sources.None?
    case Suspended(vstack, _) =>
      if f.pending then !p.ready && !p.Parked() && f.sources.None? && vstack != []
      else if f.sources.None? then OneSource(p)
      else ManySources(p, f.sources.value)
    case _ => !p.ready && !p.Parked() && !f.pending && f.sources.None?
  }

  function PendingCount(fibers: seq<Fiber>): nat {
    if fibers == [] then 0 else PendingCount(Init(fibers)) + (if Last(fibers).pending then 1 else 0)
  }

  /** The ready queue is duplicate-free and `queued` holds exactly for its members. */
  ghost predicate QueueExact(s: Sched) {
    && NoDup(s.ready)
    && (forall id: nat :: id in s.ready ==> id < |s.fibers|)
    && (forall id: nat :: id < |s.fibers| ==> (s.fibers[id].queued <==> id in s.ready))
  }

  /** No socket entry is empty. */
  predicate NoEmptyEntry(poll: map<int, seq<nat>>) {
    forall h :: h in poll ==> poll[h] != []
  }

  ghost predicate SchedInv(s: Sched) {
    && QueueExact(s)
    && NoEmptyEntry(s.poll)
    && s.ioBlocked == PendingCount(s.fibers)
    && (forall id: nat :: PlaceOf(s, id).Parked() ==> id < |s.fibers|)
    && (forall id: nat :: id < |s.fibers| ==> PlacedOk(s.fibers[id], PlaceOf(s, id)))
  }

  // ----- list facts -----

  lemma {:induction false} PendingUpdate(fibers: seq<Fiber>, id: nat, f: Fiber)
    requires id < |fibers|
    ensures PendingCount(fibers[id := f]) + (if fibers[id].pending then 1 else 0)
         == PendingCount(fibers) + (if f.pending then 1 else 0)
  {
    var t := fibers[id := f];
    if id == |fibers| - 1 {
      assert Init(t) == Init(fibers);
    } else {
      assert Init(t) == Init(fibers)[id := f];
      PendingUpdate(Init(fibers), id, f);
    }
  }

  lemma {:induction false} WithoutMembers(ids: seq<nat>, id: nat)
    ensures forall k: nat :: k in Without(ids, id) <==> k in ids && k != id
  {
    if ids == [] {
    } else {
      WithoutMembers(Init(ids), id);
      assert ids == Init(ids) + [Last(ids)];
    }
  }

  lemma TimerCountAppend(ts: seq<(int, nat)>, t: (int, nat), k: nat)
    ensures TimerCount(ts + [t], k) == TimerCount(ts, k) + (if k == t.1 then 1 else 0)
  {
    assert Init(ts + [t]) == ts;
  }

  lemma {:induction false} TimersWithoutCount(ts: seq<(int, nat)>, id: nat, k: nat)
    ensures TimerCount(TimersWithout(ts, id), k) == if k == id then 0 else TimerCount(ts, k)
  {
    if ts == [] {
    } else {
      TimersWithoutCount(Init(ts), id, k);
      TimerCountAppend(TimersWithout(Init(ts), id), Last(ts), k);
    }
  }

  lemma {:induction false} DueSplit(ts: seq<(int, nat)>, now: int, id: nat)
    ensures TimerCount(NotDue(ts, now), id) <= TimerCount(ts, id)
    ensures id in DueIds(ts, now) ==> TimerCount(NotDue(ts, now), id) < TimerCount(ts, id)
    ensures id !in DueIds(ts, now) ==> TimerCount(NotDue(ts, now), id) == TimerCount(ts, id)
  {
    if ts == [] {
    } else {
      DueSplit(Init(ts), now, id);
      TimerCountAppend(NotDue(Init(ts), now), Last(ts), id);
    }
  }

  /** Exactly the timers whose deadline has come are due; the others stay armed. */
  lemma {:induction false} DueExact(ts: seq<(int, nat)>, now: int)
    ensures forall t :: t in NotDue(ts, now) <==> t in ts && t.0 > now
    ensures forall id: nat :: id in DueIds(ts, now) <==> exists d :: (d, id) in ts && d <= now
  {
    if ts == [] {
    } else {
      DueExact(Init(ts), now);
      var last := Last(ts);
      assert ts == Init(ts) + [last];
      forall id: nat ensures id in DueIds(ts, now) <==> exists d :: (d, id) in ts && d <= now {
        if id in DueIds(Init(ts), now) {
          var d :| (d, id) in Init(ts) && d <= now;
          assert (d, id) in ts;
        }
        if exists d :: (d, id) in ts && d <= now {
          var d :| (d, id) in ts && d <= now;
          assert (d, id) in Init(ts) || (d, id) == last;
        }
        if last.0 <= now && last.1 == id {
          assert (last.0, id) in ts;
        }
      }
    }
  }

  lemma {:induction false} DropPollsMembers(poll: map<int, seq<nat>>, handles: seq<int>, id: nat, k: nat)
    requires NoEmptyEntry(poll)
    ensures NoEmptyEntry(DropPolls(poll, handles, id))
    ensures Polls(DropPolls(poll, handles, id), k)
         == Polls(poll, k) - (if k == id then set h | h in handles else {})
  {
    if handles == [] {
    } else {
      DropPollsMembers(poll, Init(handles), id, k);
      var q, h := DropPolls(poll, Init(handles), id), Last(handles);
      assert handles == Init(handles) + [h];
      if h in q {
        WithoutMembers(q[h], id);
      }
      var p := DropPoll(q, h, id);
      assert Polls(p, k) == Polls(q, k) - (if k == id then {h} else {});
    }
  }

  lemma AddPollMembers(poll: map<int, seq<nat>>, h: int, id: nat, k: nat)
    requires NoEmptyEntry(poll)
    ensures NoEmptyEntry(AddPoll(poll, h, id))
    ensures Polls(AddPoll(poll, h, id), k) == Polls(poll, k) + (if k == id then {h} else {})
  {
  }

  lemma {:induction false} AddPollsMembers(poll: map<int, seq<nat>>, handles: seq<int>, id: nat, k: nat)
    requires NoEmptyEntry(poll)
    ensures NoEmptyEntry(AddPolls(poll, handles, id))
    ensures Polls(AddPolls(poll, handles, id), k)
         == Polls(poll, k) + (if k == id then set h | h in handles else {})
  {
    if handles == [] {
    } else {
      AddPollsMembers(poll, Init(handles), id, k);
      AddPollMembers(AddPolls(poll, Init(handles), id), Last(handles), id, k);
      assert handles == Init(handles) + [Last(handles)];
    }
  }

  // ----- waking -----

  /** `t` is `s` with some `queued` flags raised. */
  predicate SameButQueued(s: Sched, t: Sched) {
    && |t.fibers| == |s.fibers|
    && (forall id :: 0 <= id < |s.fibers| ==> t.fibers[id] == s.fibers[id].(queued := t.fibers[id].queued))
  }

  lemma MakeReadyEffect(s: Sched, id: nat)
    requires QueueExact(s) && id < |s.fibers|
    ensures var t := MakeReady(s, id);
            && QueueExact(t) && SameButQueued(s, t)
            && t == s.(fibers := t.fibers, ready := t.ready)
            && (forall k: nat :: k in t.ready <==> k in s.ready || k == id)
            && PendingCount(t.fibers) == PendingCount(s.fibers)
  {
    PendingUpdate(s.fibers, id, s.fibers[id].(queued := true));
  }

  /** What waking a list of fibers does: flags and queue only, each fiber once. */
  lemma {:induction false} ReadyEffect(s: Sched, ids: seq<nat>)
    requires QueueExact(s) && forall id: nat :: id in ids ==> id < |s.fibers|
    ensures var t := MakeAllReady(s, ids);
            && QueueExact(t) && SameButQueued(s, t)
            && t == s.(fibers := t.fibers, ready := t.ready)
            && (forall k: nat :: k in t.ready <==> k in s.ready || k in ids)
            && PendingCount(t.fibers) == PendingCount(s.fibers)
  {
    if ids == [] {
    } else {
      assert ids == Init(ids) + [Last(ids)];
      assert forall id: nat :: id in Init(ids) ==> id in ids;
      assert Last(ids) in ids;
      ReadyEffect(s, Init(ids));
      MakeReadyEffect(MakeAllReady(s, Init(ids)), Last(ids));
    }
  }

  /**
   Taking parked fibers off their lists and queueing them keeps the invariant,
   provided single-source fibers leave all lists.
   */
  lemma WakeKeeps(s: Sched, s1: Sched, ids: seq<nat>)
    requires SchedInv(s) && NoEmptyEntry(s1.poll)
    requires s1 == s.(blocked := s1.blocked, timers := s1.timers, poll := s1.poll)
    requires forall id: nat :: id in ids ==> PlaceOf(s, id).Parked()
    requires forall id: nat :: id in ids && s.fibers[id].sources.None? ==> !PlaceOf(s1, id).Parked()
    requires forall id: nat :: id in ids ==>
                                 && PlaceOf(s1, id).timers <= PlaceOf(s, id).timers
                                 && PlaceOf(s1, id).polls <= PlaceOf(s, id).polls
    requires forall id: nat :: id !in ids ==> PlaceOf(s1, id) == PlaceOf(s, id)
    ensures SchedInv(MakeAllReady(s1, ids))
    ensures SameButQueued(s, MakeAllReady(s1, ids))
    ensures MakeAllReady(s1, ids).channels == s.channels && MakeAllReady(s1, ids).blocked == s1.blocked
  {
    assert QueueExact(s1);
    ReadyEffect(s1, ids);
    var t := MakeAllReady(s1, ids);
    forall id: nat
      ensures PlaceOf(t, id).Parked() ==> id < |t.fibers|
      ensures id < |t.fibers| ==> PlacedOk(t.fibers[id], PlaceOf(t, id))
    {
      assert PlaceOf(t, id) == PlaceOf(s1, id).(ready := id in s.ready || id in ids);
      if id in ids {
        assert PlaceOf(s, id).Parked();
      } else {
        assert PlaceOf(s1, id) == PlaceOf(s, id);
      }
    }
  }

  lemma WakeAllKeeps(s: Sched)
    requires SchedInv(s)
    ensures SchedInv(WakeAll(s)) && WakeAll(s).blocked == []
    ensures SameButQueued(s, WakeAll(s)) && WakeAll(s).channels == s.channels
  {
    var s1 := s.(blocked := []);
    forall id: nat | id in s.blocked
      ensures PlaceOf(s, id).Parked()
      ensures s.fibers[id].sources.None? ==> !PlaceOf(s1, id).Parked()
    {
      assert PlaceOf(s, id).Parked();
      assert PlacedOk(s.fibers[id], PlaceOf(s, id));
    }
    WakeKeeps(s, s1, s.blocked);
  }

  lemma WakePollKeeps(s: Sched, h: int)
    requires SchedInv(s)
    ensures SchedInv(WakePoll(s, h)) && WakePoll(s, h).blocked == s.blocked
    ensures SameButQueued(s, WakePoll(s, h)) && WakePoll(s, h).channels == s.channels
  {
    if h in s.poll {
      var s1 := s.(poll := s.poll - {h});
      forall id: nat
        ensures PlaceOf(s1, id).polls == PlaceOf(s, id).polls - {h}
        ensures id in s.poll[h] ==> PlaceOf(s, id).Parked()
        ensures id in s.poll[h] && s.fibers[id].sources.None? ==> !PlaceOf(s1, id).Parked()
        ensures id !in s.poll[h] ==> PlaceOf(s1, id) == PlaceOf(s, id)
      {
        assert Polls(s1.poll, id) == Polls(s.poll, id) - {h};
        if id in s.poll[h] {
          assert h in Polls(s.poll, id);
          assert PlaceOf(s, id).Parked();
          assert PlacedOk(s.fibers[id], PlaceOf(s, id));
          if s.fibers[id].sources.None? {
            assert forall k :: k in Polls(s.poll, id) ==> k == h;
            assert Polls(s1.poll, id) == {};
          }
        }
      }
      WakeKeeps(s, s1, s.poll[h]);
    }
  }

  lemma WakeTimersKeeps(s: Sched, now: int)
    requires SchedInv(s)
    ensures SchedInv(WakeTimers(s, now)) && WakeTimers(s, now).blocked == s.blocked
    ensures SameButQueued(s, WakeTimers(s, now)) && WakeTimers(s, now).channels == s.channels
  {
    var s1 := s.(timers := NotDue(s.timers, now));
    var due := DueIds(s.timers, now);
    forall id: nat
      ensures PlaceOf(s1, id).timers <= PlaceOf(s, id).timers
      ensures id in due ==> PlaceOf(s, id).Parked()
      ensures id in due && s.fibers[id].sources.None? ==> !PlaceOf(s1, id).Parked()
      ensures id !in due ==> PlaceOf(s1, id) == PlaceOf(s, id)
    {
      DueSplit(s.timers, now, id);
      if id in due {
        assert PlaceOf(s, id).Parked();
        assert PlacedOk(s.fibers[id], PlaceOf(s, id));
      }
    }
    WakeKeeps(s, s1, due);
  }

  // ----- the other operations -----

  /** Replacing one fiber and its listings keeps the invariant if that fiber is placed right. */
  lemma RelistKeeps(s: Sched, t: Sched, id: nat)
    requires SchedInv(s) && id < |s.fibers| == |t.fibers|
    requires t.fibers == s.fibers[id := t.fibers[id]]
    requires QueueExact(t) && NoEmptyEntry(t.poll)
    requires t.ioBlocked + (if s.fibers[id].pending then 1 else 0)
          == s.ioBlocked + (if t.fibers[id].pending then 1 else 0)
    requires forall k: nat :: k != id ==> PlaceOf(t, k) == PlaceOf(s, k)
    requires PlacedOk(t.fibers[id], PlaceOf(t, id))
    ensures SchedInv(t)
  {
    PendingUpdate(s.fibers, id, t.fibers[id]);
    forall k: nat
      ensures PlaceOf(t, k).Parked() ==> k < |t.fibers|
      ensures k < |t.fibers| ==> PlacedOk(t.fibers[k], PlaceOf(t, k))
    {
      if k != id {
        assert PlaceOf(t, k) == PlaceOf(s, k);
      }
    }
  }

  /** A running fiber is listed nowhere and has nothing pending. */
  lemma RunningPlain(s: Sched, id: nat)
    requires SchedInv(s) && id < |s.fibers| && s.fibers[id].state.Running?
    ensures !s.fibers[id].pending && s.fibers[id].sources.None?
    ensures id !in s.ready && id !in s.blocked
  {
    assert PlacedOk(s.fibers[id], PlaceOf(s, id));
  }

  lemma ChannelsKeep(s: Sched, cs: seq<Chan>)
    requires SchedInv(s)
    ensures SchedInv(s.(channels := cs))
  {
    var t := s.(channels := cs);
    assert forall id: nat :: PlaceOf(t, id) == PlaceOf(s, id);
  }

  lemma CompleteKeeps(s: Sched, id: nat, v: Value)
    requires SchedInv(s) && id < |s.fibers| && s.fibers[id].state.Running?
    ensures var t := CompleteFiber(s, id, v);
            && SchedInv(t) && t.blocked == [] && t.channels == s.channels
            && SameButQueued(s.(fibers := s.fibers[id := s.fibers[id].(state := Done(v))]), t)
  {
    var s1 := s.(fibers := s.fibers[id := s.fibers[id].(state := Done(v))]);
    assert forall k: nat :: PlaceOf(s1, k) == PlaceOf(s, k);
    RelistKeeps(s, s1, id);
    WakeAllKeeps(s1);
  }

  lemma SpawnKeeps(s: Sched, c: Value)
    requires SchedInv(s)
    ensures var t := SpawnFiber(s, c);
            && SchedInv(t) && t.channels == s.channels && t.blocked == s.blocked
            && |t.fibers| == |s.fibers| + 1 && t.fibers[..|s.fibers|] == s.fibers
            && t.fibers[|s.fibers|].state == NotStarted(c) && !t.fibers[|s.fibers|].pending
  {
    var n := |s.fibers|;
    var f := Fiber(NotStarted(c), false, false, None);
    var s1 := s.(fibers := s.fibers + [f]);
    var t := SpawnFiber(s, c);
    assert Init(s1.fibers) == s.fibers;
    assert QueueExact(s1);
    MakeReadyEffect(s1, n);
    assert !PlaceOf(s, n).Parked();
    forall k: nat
      ensures PlaceOf(t, k).Parked() ==> k < |t.fibers|
      ensures k < |t.fibers| ==> PlacedOk(t.fibers[k], PlaceOf(t, k))
    {
      assert PlaceOf(t, k) == PlaceOf(s, k).(ready := k in s.ready || k == n);
      if k < n {
        assert PlacedOk(s.fibers[k], PlaceOf(s, k));
      }
    }
    forall k | 0 <= k < n
      ensures t.fibers[k] == s.fibers[k]
    {
      assert t.fibers[k].queued == s.fibers[k].queued;
    }
  }

  /** Every park request routes the running fiber to where its wake-up will look. */
  lemma ParkKeeps(s: Sched, id: nat, vstack: seq<Value>, frames: seq<Frame>, req: ParkRequest)
    requires SchedInv(s) && id < |s.fibers| && s.fibers[id].state.Running? && !req.Await?
    ensures SchedInv(ParkFiber(s, id, vstack, frames, req))
  {
    hide AddPoll, Polls, TimerCount, NoEmptyEntry;
    assert PlacedOk(s.fibers[id], PlaceOf(s, id));
    var t := ParkFiber(s, id, vstack, frames, req);
    var s1 := s.(fibers := s.fibers[id := s.fibers[id].(state := Suspended(vstack, frames))]);
    assert QueueExact(s1);
    match req
    case YieldReady =>
      MakeReadyEffect(s1, id);
      forall k: nat
        ensures PlaceOf(t, k) == PlaceOf(s, k).(ready := k in s.ready || k == id)
      {
      }
      assert t.fibers == s.fibers[id := t.fibers[id]];
      RelistKeeps(s, t, id);
    case BlockRetry =>
      assert forall k: nat :: PlaceOf(t, k) == PlaceOf(s, k).(blocked := k in s.blocked || k == id);
      RelistKeeps(s, t, id);
    case Timer(d) =>
      forall k: nat
        ensures PlaceOf(t, k) == PlaceOf(s, k).(timers := TimerCount(s.timers, k) + (if k == id then 1 else 0))
      {
        TimerCountAppend(s.timers, (d, id), k);
      }
      RelistKeeps(s, t, id);
    case Ready(h) =>
      forall k: nat
        ensures PlaceOf(t, k) == PlaceOf(s, k).(polls := Polls(s.poll, k) + (if k == id then {h} else {}))
        ensures NoEmptyEntry(t.poll)
      {
        AddPollMembers(s.poll, h, id, k);
      }
      AddPollMembers(s.poll, h, id, id);
      RelistKeeps(s, t, id);
    case Multi(until, handles) =>
      ParkMultiKeeps(s, id, vstack, frames, until, handles);
  }

  /** Where each request puts the fiber: exactly the lists it names, and no other fiber moves. */
  lemma ParkRoutes(s: Sched, id: nat, vstack: seq<Value>, frames: seq<Frame>, req: ParkRequest, k: nat)
    requires SchedInv(s) && id < |s.fibers| && s.fibers[id].state.Running? && !req.Await?
    ensures var t, p := ParkFiber(s, id, vstack, frames, req), PlaceOf(ParkFiber(s, id, vstack, frames, req), id);
            && t.fibers[id].state == Suspended(vstack, frames)
            && (k != id ==> PlaceOf(t, k) == PlaceOf(s, k) && (k < |s.fibers| ==> t.fibers[k] == s.fibers[k]))
            && match req
               case YieldReady => p == Place(true, false, 0, {}) && t.ready == s.ready + [id]
               case BlockRetry => p == Place(false, true, 0, {})
               case Timer(d) => p == Place(false, false, 1, {}) && (d, id) in t.timers
               case Ready(h) => p == Place(false, false, 0, {h})
               case Multi(until, handles) =>
                 && p == Place(false, true, if until.Some? then 1 else 0, set h | h in handles)
                 && (until.Some? ==> (until.value, id) in t.timers)
  {
    hide AddPoll, AddPolls, Polls, TimerCount;
    assert PlacedOk(s.fibers[id], PlaceOf(s, id));
    var t := ParkFiber(s, id, vstack, frames, req);
    match req
    case YieldReady =>
    case BlockRetry =>
    case Timer(d) =>
      TimerCountAppend(s.timers, (d, id), id);
      TimerCountAppend(s.timers, (d, id), k);
    case Ready(h) =>
      AddPollMembers(s.poll, h, id, id);
      AddPollMembers(s.poll, h, id, k);
    case Multi(until, handles) =>
      AddPollsMembers(s.poll, handles, id, id);
      AddPollsMembers(s.poll, handles, id, k);
      if until.Some? {
        TimerCountAppend(s.timers, (until.value, id), id);
        TimerCountAppend(s.timers, (until.value, id), k);
        assert t.timers[|s.timers|] == (until.value, id);
      } else {
        assert t.timers == s.timers;
      }
  }

  lemma ParkMultiKeeps(s: Sched, id: nat, vstack: seq<Value>, frames: seq<Frame>,
                       until: Option<int>, handles: seq<int>)
    requires SchedInv(s) && id < |s.fibers| && s.fibers[id].state.Running?
    ensures SchedInv(ParkFiber(s, id, vstack, frames, Multi(until, handles)))
  {
    hide AddPolls, Polls, TimerCount;
    assert PlacedOk(s.fibers[id], PlaceOf(s, id));
    var t := ParkFiber(s, id, vstack, frames, Multi(until, handles));
    AddPollsMembers(s.poll, handles, id, id);
    forall k: nat | k != id
      ensures PlaceOf(t, k) == PlaceOf(s, k)
    {
      AddPollsMembers(s.poll, handles, id, k);
      if until.Some? {
        TimerCountAppend(s.timers, (until.value, id), k);
      } else {
        assert t.timers == s.timers;
      }
    }
    assert until.None? ==> t.timers == s.timers;
    assert QueueExact(t);
    RelistKeeps(s, t, id);
  }

  lemma ParkIoKeeps(s: Sched, id: nat, vstack: seq<Value>, frames: seq<Frame>)
    requires SchedInv(s) && id < |s.fibers| && s.fibers[id].state.Running? && vstack != []
    ensures SchedInv(ParkIo(s, id, vstack, frames))
  {
    var t := ParkIo(s, id, vstack, frames);
    assert forall k: nat :: PlaceOf(t, k) == PlaceOf(s, k);
    assert PlacedOk(s.fibers[id], PlaceOf(s, id));
    assert QueueExact(t);
    RelistKeeps(s, t, id);
  }

  /** A completion finds its fiber suspended, counted and holding a placeholder. */
  lemma DeliverReady(s: Sched, id: nat)
    requires SchedInv(s) && id < |s.fibers| && s.fibers[id].pending
    ensures s.fibers[id].state.Suspended? && s.fibers[id].state.vstack != []
    ensures s.ioBlocked > 0 && !PlaceOf(s, id).ready && !PlaceOf(s, id).Parked()
  {
    assert PlacedOk(s.fibers[id], PlaceOf(s, id));
    PendingUpdate(s.fibers, id, s.fibers[id].(pending := false));
  }

  lemma DeliverKeeps(s: Sched, id: nat, v: Value)
    requires SchedInv(s) && id < |s.fibers| && s.fibers[id].pending
    requires s.fibers[id].state.Suspended? && s.fibers[id].state.vstack != [] && s.ioBlocked > 0
    ensures SchedInv(DeliverIo(s, id, v))
  {
    DeliverReady(s, id);
    var f := s.fibers[id];
    var st := Suspended(Init(f.state.vstack) + [v], f.state.frames);
    var s1 := s.(fibers := s.fibers[id := f.(state := st, pending := false)], ioBlocked := s.ioBlocked - 1);
    assert QueueExact(s1);
    MakeReadyEffect(s1, id);
    var t := DeliverIo(s, id, v);
    assert forall k: nat :: PlaceOf(t, k) == PlaceOf(s, k).(ready := k in s.ready || k == id);
    assert t.fibers == s.fibers[id := t.fibers[id]];
    RelistKeeps(s, t, id);
  }

  /** Sweeping a fiber's recorded sources takes it off every wait list and moves no other fiber. */
  lemma UnlistEffect(s: Sched, id: nat)
    requires id < |s.fibers| && NoEmptyEntry(s.poll)
    requires s.fibers[id].sources.None? ==> !PlaceOf(s, id).Parked()
    requires s.fibers[id].sources.Some? ==>
               && (PlaceOf(s, id).timers > 0 ==> s.fibers[id].sources.value.timer)
               && (forall h :: h in PlaceOf(s, id).polls ==> h in s.fibers[id].sources.value.handles)
    ensures var u := UnlistFiber(s, id);
            && u == s.(fibers := s.fibers[id := s.fibers[id].(sources := None)],
                       blocked := u.blocked, timers := u.timers, poll := u.poll)
            && NoEmptyEntry(u.poll) && !PlaceOf(u, id).Parked()
            && (forall k: nat :: k != id ==> PlaceOf(u, k) == PlaceOf(s, k))
            && (forall k: nat :: k in u.blocked ==> k in s.blocked)
  {
    var u := UnlistFiber(s, id);
    WithoutMembers(s.blocked, id);
    match s.fibers[id].sources
    case None =>
      assert s.fibers[id := s.fibers[id].(sources := None)] == s.fibers;
    case Some(src) =>
      DropPollsMembers(s.poll, src.handles, id, id);
      TimersWithoutCount(s.timers, id, id);
      var swept := set h | h in src.handles;
      assert forall h :: h in PlaceOf(s, id).polls ==> h in swept;
      assert Polls(u.poll, id) == Polls(s.poll, id) - swept == {};
      forall k: nat | k != id
        ensures PlaceOf(u, k) == PlaceOf(s, k)
      {
        DropPollsMembers(s.poll, src.handles, id, k);
        TimersWithoutCount(s.timers, id, k);
      }
  }

  /**
   The fiber at the head of the queue can be scheduled: it is unstarted or
   suspended, and once running it is in no list.
   */
  lemma DequeueKeeps(s: Sched)
    requires SchedInv(s) && s.ready != []
    ensures var id := s.ready[0];
            && id < |s.fibers| && (s.fibers[id].state.NotStarted? || s.fibers[id].state.Suspended?)
            && !s.fibers[id].pending
            && SchedInv(Dequeue(s)) && Dequeue(s).channels == s.channels
            && |Dequeue(s).fibers| == |s.fibers| && Dequeue(s).fibers[id].state == Running
            && Dequeue(s).fibers == s.fibers[id := Dequeue(s).fibers[id]]
            && (forall k: nat :: k in Dequeue(s).blocked ==> k in s.blocked)
            && !PlaceOf(Dequeue(s), id).Parked()
  {
    var id := s.ready[0];
    assert id in s.ready;
    assert PlacedOk(s.fibers[id], PlaceOf(s, id));
    var s1 := s.(ready := s.ready[1..], fibers := s.fibers[id := s.fibers[id].(queued := false)]);
    assert s.ready == [id] + s1.ready;
    forall k: nat
      ensures k in s1.ready <==> k in s.ready && k != id
      ensures PlaceOf(s1, k) == PlaceOf(s, k).(ready := k in s.ready && k != id)
    {
    }
    UnlistEffect(s1, id);
    var t := Dequeue(s);
    assert t.fibers == s.fibers[id := t.fibers[id]];
    forall k: nat
      ensures k != id ==> PlaceOf(t, k) == PlaceOf(s, k)
      ensures PlaceOf(t, k) == PlaceOf(UnlistFiber(s1, id), k)
    {
    }
    assert QueueExact(t);
    RelistKeeps(s, t, id);
  }
}
