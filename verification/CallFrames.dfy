/**
 The running fiber's stacks updated in place, as the interpreter loop does
 (`enter_frame` and the local, call and return arms of `run_loop` in
 `runtime/src/interp/mod.rs`), proved against the effects in `Machine`.
 */
module CallFrames {
  import opened Values
  import opened Heaps
  import opened Bytecode
  import opened Schedulers
  import opened Machine

  class FiberStack {
    var vstack: seq<Value>
    /** Suspended callers, innermost last. */
    var frames: seq<Frame>
    /** The active frame. */
    var frame: Frame

    function Frames(): seq<Frame>
      reads this
    {
      frames + [frame]
    }

    constructor (vs: seq<Value>, callers: seq<Frame>, active: Frame)
      ensures vstack == vs && frames == callers && frame == active
    {
      vstack, frames, frame := vs, callers, active;
    }

    /** The stacks are as the effect leaves them, or its trap was raised. */
    ghost predicate Became(e: Effect, trap: Option<Trap>)
      reads this
    {
      match e
      case Go(vs, fs, _) => trap.None? && vstack == vs && Frames() == fs
      case Stop(t) => trap == Some(t)
      case Finish(_, _) => false
    }

    method EnterFrame(m: Module, func: nat, argc: nat) returns (callee: Option<Frame>, trap: Option<Trap>)
      modifies this`vstack
      ensures match Machine.EnterFrame(old(vstack), m, func, argc)
              case Entered(vs, f) => callee == Some(f) && trap.None? && vstack == vs
              case Refused(t) => callee.None? && trap == Some(t) && vstack == old(vstack)
    {
      if func >= |m.functions| {
        return None, Some(Bug(NoFunction));
      }
      var f := m.functions[func];
      if argc != f.paramCount {
        return None, Some(Bug(Arity));
      }
      if |vstack| < argc {
        return None, Some(Bug(Underflow));
      }
      var base := |vstack| - argc;
      vstack := Resize(vstack, base + f.localCount);
      return Some(Frame(func, 0, base)), None;
    }

    /** Suspend the active frame and continue in the callee, under the depth cap. */
    method Call(m: Module, h: HeapState, func: nat, argc: nat) returns (trap: Option<Trap>)
      modifies this
      ensures Became(EnterCall(m, old(vstack), old(Frames()), h, func, argc), trap)
    {
      var callee, t := EnterFrame(m, func, argc);
      if t.Some? {
        return t;
      }
      if |frames| >= MAX_CALL_DEPTH {
        return Some(StackOverflow);
      }
      frames := frames + [frame];
      frame := callee.value;
      trap := None;
    }

    /** The closure beneath the arguments is replaced in place by its captures. */
    method CallClosure(m: Module, h: HeapState, argc: nat) returns (trap: Option<Trap>)
      modifies this
      ensures Became(Indirect(m, old(vstack), old(Frames()), h, argc), trap)
    {
      if |vstack| < argc + 1 {
        return Some(Bug(Underflow));
      }
      var at := |vstack| - argc - 1;
      var c := Fetch(h, vstack[at]);
      if !(c.Found? && c.obj.ClosureObj?) {
        return Some(WrongKind(c).trap);
      }
      vstack := vstack[..at] + c.obj.captures + vstack[at + 1..];
      trap := Call(m, h, c.obj.func, |c.obj.captures| + argc);
    }

    method LoadLocal(h: HeapState, slot: nat) returns (trap: Option<Trap>)
      modifies this`vstack
      ensures Became(LoadSlot(old(vstack), old(Frames()), h, old(frame).base + slot), trap)
    {
      var at := frame.base + slot;
      if at >= |vstack| {
        return Some(Bug(SlotRange));
      }
      vstack := vstack + [vstack[at]];
      trap := None;
    }

    method StoreLocal(h: HeapState, slot: nat) returns (trap: Option<Trap>)
      modifies this`vstack
      ensures Became(StoreSlot(old(vstack), old(Frames()), h, old(frame).base + slot), trap)
    {
      if vstack == [] {
        return Some(Bug(Underflow));
      }
      var v := Last(vstack);
      vstack := Init(vstack);
      var at := frame.base + slot;
      if at >= |vstack| {
        return Some(Bug(SlotRange));
      }
      vstack := vstack[at := v];
      trap := None;
    }

    /** Drop the frame's slots and hand its result to the caller, or out when it was the last. */
    method Return(m: Module, h: HeapState) returns (done: Option<Value>)
      requires frame.func < |m.functions|
      modifies this
      ensures match ReturnFrom(m, old(vstack), old(Frames()), h)
              case Go(_, _, _) => done.None? && Became(ReturnFrom(m, old(vstack), old(Frames()), h), None)
              case Finish(value, rest) => done == Some(value) && vstack == rest
              case Stop(_) => false
    {
      assert Init(Frames()) == frames;
      var floor := frame.base + m.functions[frame.func].localCount;
      var value := if |vstack| > floor then Last(vstack) else Unit;
      vstack := Truncate(vstack, frame.base);
      if frames == [] {
        return Some(value);
      }
      assert frames == Init(frames) + [Last(frames)];
      frame, frames := Last(frames), Init(frames);
      vstack := vstack + [value];
      done := None;
    }
  }
}
