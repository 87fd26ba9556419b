/**
 The collector's amortised cost (`alloc`, `collect` and `next_threshold` in
 `runtime/src/heap.rs`): the adaptive threshold makes every collection pay for
 itself out of the bytes allocated since the one before.
 */
module GcCost {
  import opened Values
  import opened Heaps

  /** The byte accounting of a heap. */
  datatype Account = Account(heapBytes: nat, nextGc: nat, pending: bool)

  function AccountOf(h: HeapState): Account { Account(h.heapBytes, h.nextGc, h.pending) }

  datatype Event = Allocate(bytes: nat) | Collect(live: nat)

  function Charge(a: Account, e: Event, ceiling: nat): Account {
    match e
    case Allocate(n) =>
      var total := a.heapBytes + n;
      Account(total, a.nextGc, a.pending || total >= a.nextGc || total >= ceiling)
    case Collect(live) => Account(live, NextThreshold(a.heapBytes, live, MIN_GC_BYTES), false)
  }

  /** Heap operations charge the account as the events say. */
  lemma HeapCharges(h: HeapState, obj: Obj, bytes: nat, roots: seq<Value>)
    ensures AccountOf(AllocState(h, obj, bytes)) == Charge(AccountOf(h), Allocate(bytes), h.maxHeap)
    ensures AccountOf(Collected(h, roots))
         == Charge(AccountOf(h), Collect(TotalBytes(Collected(h, roots).slots)), h.maxHeap)
  {
  }

  const START := Account(0, MIN_GC_BYTES, false)

  function AccountAfter(events: seq<Event>, ceiling: nat): Account {
    if events == [] then START else Charge(AccountAfter(Init(events), ceiling), Last(events), ceiling)
  }

  /** Collections happen only when one is due. */
  predicate Possible(events: seq<Event>, ceiling: nat) {
    forall k :: 0 <= k < |events| && events[k].Collect? ==> AccountAfter(events[..k], ceiling).pending
  }

  function Allocated(events: seq<Event>): nat {
    if events == [] then 0
    else Allocated(Init(events)) + (if Last(events).Allocate? then Last(events).bytes else 0)
  }

  /** Bytes found live by each collection, in order. */
  function Lives(events: seq<Event>): seq<nat> {
    if events == [] then []
    else if Last(events).Collect? then Lives(Init(events)) + [Last(events).live]
    else Lives(Init(events))
  }

  function Sum(ns: seq<nat>): nat {
    if ns == [] then 0 else Sum(Init(ns)) + Last(ns)
  }

  /** Bytes marked by all collections but the last. */
  function MarkedButLast(events: seq<Event>): nat {
    var ls := Lives(events);
    if ls == [] then 0 else Sum(Init(ls))
  }

  function LastLive(events: seq<Event>): nat {
    var ls := Lives(events);
    if ls == [] then 0 else Last(ls)
  }

  /**
   The invariant behind the bound: since the last collection, which left
   `LastLive` bytes, the account grew by what was allocated, everything
   allocated before it covers the earlier marking, and a collection is due only
   after at least as many bytes were allocated as survived it.
   */
  lemma {:induction false} CostInvariant(events: seq<Event>, ceiling: nat)
    requires Possible(events, ceiling)
    requires forall k :: 0 <= k < |events| && events[k].Collect? ==> 2 * events[k].live <= ceiling
    ensures var a := AccountAfter(events, ceiling);
            && a.nextGc >= 2 * LastLive(events) && ceiling >= 2 * LastLive(events)
            && a.heapBytes >= LastLive(events)
            && MarkedButLast(events) + (a.heapBytes - LastLive(events)) <= Allocated(events)
            && (a.pending ==> a.heapBytes >= 2 * LastLive(events))
  {
    if events == [] {
    } else {
      var init, e := Init(events), Last(events);
      assert forall k :: 0 <= k < |init| ==> init[k] == events[k] && init[..k] == events[..k];
      assert events[..|events| - 1] == init;
      CostInvariant(init, ceiling);
      if e.Collect? {
        assert Init(Lives(events)) == Lives(init);
        assert AccountAfter(init, ceiling).pending;
      }
    }
  }

  /**
   Amortised collection: while live data stays within half the ceiling, all
   collections but the last together mark no more bytes than the run allocated.
   */
  lemma {:induction false} MarkingIsAmortised(events: seq<Event>, ceiling: nat)
    requires Possible(events, ceiling)
    requires forall k :: 0 <= k < |events| && events[k].Collect? ==> 2 * events[k].live <= ceiling
    ensures MarkedButLast(events) <= Allocated(events)
  {
    CostInvariant(events, ceiling);
  }

  // ----- histories of a heap -----

  /** What happens to a heap: an allocation, writes and the rest of a mutator's work, or a collection. */
  datatype HeapOp = AllocOp(obj: Obj, bytes: nat) | MutateOp(heap: HeapState) | CollectOp(roots: seq<Value>)

  ghost function HeapAfter(h: HeapState, ops: seq<HeapOp>): HeapState {
    if ops == [] then h
    else
      var g := HeapAfter(h, Init(ops));
      match Last(ops)
      case AllocOp(obj, bytes) => AllocState(g, obj, bytes)
      case MutateOp(h') => h'
      case CollectOp(roots) => Collected(g, roots)
  }

  /** Mutation charges nothing and leaves the ceiling; a collection happens only when one is due. */
  ghost predicate HistoryOk(h: HeapState, ops: seq<HeapOp>) {
    forall k :: 0 <= k < |ops| ==>
      var g := HeapAfter(h, ops[..k]);
      match ops[k]
      case AllocOp(_, _) => true
      case MutateOp(h') => AccountOf(h') == AccountOf(g) && h'.maxHeap == g.maxHeap
      case CollectOp(_) => g.pending
  }

  /** The bytes a history allocates. */
  function AllocatedBy(ops: seq<HeapOp>): nat {
    if ops == [] then 0
    else AllocatedBy(Init(ops)) + (if Last(ops).AllocOp? then Last(ops).bytes else 0)
  }

  /** The bytes each collection of a history marks, in order: the total of what it leaves standing. */
  ghost function MarkedBy(h: HeapState, ops: seq<HeapOp>): seq<nat> {
    if ops == [] then []
    else if Last(ops).CollectOp? then
      MarkedBy(h, Init(ops)) + [TotalBytes(Collected(HeapAfter(h, Init(ops)), Last(ops).roots).slots)]
    else MarkedBy(h, Init(ops))
  }

  /** The account events of a history. */
  ghost function EventsOf(h: HeapState, ops: seq<HeapOp>): seq<Event> {
    if ops == [] then []
    else
      match Last(ops)
      case AllocOp(_, bytes) => EventsOf(h, Init(ops)) + [Allocate(bytes)]
      case MutateOp(_) => EventsOf(h, Init(ops))
      case CollectOp(roots) =>
        EventsOf(h, Init(ops)) + [Collect(TotalBytes(Collected(HeapAfter(h, Init(ops)), roots).slots))]
  }

  lemma HistoryPrefix(h: HeapState, ops: seq<HeapOp>)
    requires ops != [] && HistoryOk(h, ops)
    ensures HistoryOk(h, Init(ops))
    ensures var g := HeapAfter(h, Init(ops));
            match Last(ops)
            case AllocOp(_, _) => true
            case MutateOp(h') => AccountOf(h') == AccountOf(g) && h'.maxHeap == g.maxHeap
            case CollectOp(_) => g.pending
  {
    hide HeapAfter;
    assert ops[..|ops| - 1] == Init(ops);
    forall k | 0 <= k < |Init(ops)| ensures Init(ops)[k] == ops[k] && Init(ops)[..k] == ops[..k] {
    }
  }

  lemma PushEvent(events: seq<Event>, e: Event, ceiling: nat)
    requires Possible(events, ceiling) && (e.Collect? ==> AccountAfter(events, ceiling).pending)
    ensures Possible(events + [e], ceiling)
    ensures AccountAfter(events + [e], ceiling) == Charge(AccountAfter(events, ceiling), e, ceiling)
    ensures Allocated(events + [e]) == Allocated(events) + (if e.Allocate? then e.bytes else 0)
    ensures Lives(events + [e]) == if e.Collect? then Lives(events) + [e.live] else Lives(events)
  {
    var more := events + [e];
    assert Init(more) == events;
    forall k | 0 <= k < |more| && more[k].Collect? ensures AccountAfter(more[..k], ceiling).pending {
      assert more[..k] == events[..k];
      assert k == |events| ==> more[..k] == events;
    }
  }

  /** A heap's account is at every point that of its events, and the events are possible ones. */
  lemma {:induction false} HistoryAccount(h: HeapState, ops: seq<HeapOp>)
    requires AccountOf(h) == START && HistoryOk(h, ops)
    ensures var g, events := HeapAfter(h, ops), EventsOf(h, ops);
            && g.maxHeap == h.maxHeap && AccountOf(g) == AccountAfter(events, h.maxHeap)
            && Possible(events, h.maxHeap) && Allocated(events) == AllocatedBy(ops) && Lives(events) == MarkedBy(h, ops)
  {
    if ops == [] {
    } else {
      hide AccountAfter, Possible, Allocated, Lives, HistoryOk, Collected, AllocState, Charge;
      HistoryPrefix(h, ops);
      HistoryAccount(h, Init(ops));
      var g, events := HeapAfter(h, Init(ops)), EventsOf(h, Init(ops));
      match Last(ops)
      case AllocOp(obj, bytes) =>
        HeapCharges(g, obj, bytes, []);
        PushEvent(events, Allocate(bytes), h.maxHeap);
        CeilingKept(g, obj, bytes, []);
      case MutateOp(_) =>
      case CollectOp(roots) =>
        HeapCharges(g, StrObj([]), 0, roots);
        PushEvent(events, Collect(TotalBytes(Collected(g, roots).slots)), h.maxHeap);
        CeilingKept(g, StrObj([]), 0, roots);
    }
  }

  lemma CeilingKept(h: HeapState, obj: Obj, bytes: nat, roots: seq<Value>)
    ensures AllocState(h, obj, bytes).maxHeap == h.maxHeap && Collected(h, roots).maxHeap == h.maxHeap
  {
  }

  /**
   Amortised collection of a heap: from an empty account, while what each
   collection leaves standing is at most half the ceiling, all collections but
   the last together mark no more bytes than were allocated.
   */
  lemma {:induction false} HeapMarkingIsAmortised(h: HeapState, ops: seq<HeapOp>)
    requires AccountOf(h) == START && HistoryOk(h, ops)
    requires forall i :: 0 <= i < |MarkedBy(h, ops)| ==> 2 * MarkedBy(h, ops)[i] <= h.maxHeap
    ensures MarkedBy(h, ops) != [] ==> Sum(Init(MarkedBy(h, ops))) <= AllocatedBy(ops)
  {
    hide MarkedBy, HeapAfter, HistoryOk, Possible, Allocated;
    var events := EventsOf(h, ops);
    HistoryAccount(h, ops);
    forall k | 0 <= k < |events| && events[k].Collect? ensures 2 * events[k].live <= h.maxHeap {
      LiveListed(events, k);
    }
    MarkingIsAmortised(events, h.maxHeap);
  }

  /** Every collection's survivors are in the list of them. */
  lemma {:induction false} LiveListed(events: seq<Event>, k: nat)
    requires k < |events| && events[k].Collect?
    ensures events[k].live in Lives(events)
  {
    if k == |events| - 1 {
    } else {
      LiveListed(Init(events), k);
    }
  }

  // ----- the bound needs its condition -----

  /**
   Nine objects' worth of live data under a ceiling of ten, with one object of
   garbage made between collections; `unit` is the size of an object.
   */
  function Thrash(n: nat, unit: nat): seq<Event> {
    if n == 0 then [] + [Allocate(10 * unit)] + [Collect(9 * unit)]
    else Thrash(n - 1, unit) + [Allocate(unit)] + [Collect(9 * unit)]
  }

  lemma {:induction false} ThrashCost(n: nat, unit: nat)
    ensures var es := Thrash(n, unit);
            && Possible(es, 10 * unit) && AccountAfter(es, 10 * unit).heapBytes == 9 * unit
            && Allocated(es) == 10 * unit + n * unit
            && Lives(es) != [] && Last(Lives(es)) == 9 * unit && Sum(Lives(es)) == 9 * unit * n + 9 * unit
    decreases n
  {
    hide Possible, AccountAfter, Allocated, Lives;
    var es: seq<Event>, first := if n == 0 then [] else Thrash(n - 1, unit), Allocate(if n == 0 then 10 * unit else unit);
    if n == 0 {
      NoEvents(10 * unit);
    } else {
      ThrashCost(n - 1, unit);
      Unscaled(n, unit);
    }
    PushEvent(es, first, 10 * unit);
    PushEvent(es + [first], Collect(9 * unit), 10 * unit);
    assert Init(Lives(es) + [9 * unit]) == Lives(es);
    assert Thrash(n, unit) == es + [first] + [Collect(9 * unit)];
  }

  lemma NoEvents(ceiling: nat)
    ensures Possible([], ceiling) && AccountAfter([], ceiling) == START && Allocated([]) == 0 && Lives([]) == []
  {
  }

  lemma Unscaled(n: nat, unit: nat)
    requires n > 0
    ensures n * unit == (n - 1) * unit + unit && 9 * unit * n == 9 * unit * (n - 1) + 9 * unit
  {
  }

  /** With live data above half the ceiling there is no bound: marking outgrows allocation by any factor below nine. */
  lemma HalfCeilingMatters(n: nat, unit: nat)
    ensures Possible(Thrash(n, unit), 10 * unit)
    ensures MarkedButLast(Thrash(n, unit)) == 9 * unit * n && Allocated(Thrash(n, unit)) == 10 * unit + n * unit
  {
    ThrashCost(n, unit);
  }
}
