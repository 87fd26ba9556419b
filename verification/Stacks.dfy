/**
 The shared value stack refines separate per-frame stacks.

 In the runtime all frames of a fiber share one vector: a frame's locals start
 at its base, its operands lie above them, and a call turns the caller's top
 operands into the callee's leading locals in place.  The reference machine
 here gives every frame its own locals and its own operand stack.  For bytecode
 with a consistent operand-depth assignment the two machines take the same
 steps, so no instruction underflows its own operands, leaves its locals, or
 touches a slot below its base.
 */
module Stacks {
  import opened Values
  import opened Heaps
  import opened Bytecode
  import opened Schedulers
  import opened Machine

  datatype SFrame = SFrame(func: nat, pc: nat, locals: seq<Value>, operands: seq<Value>)

  /** All slots laid end to end. */
  function FlatValues(fs: seq<SFrame>): seq<Value> {
    if fs == [] then [] else FlatValues(Init(fs)) + Last(fs).locals + Last(fs).operands
  }

  /** The activation records, each based where its slots start. */
  function FlatFrames(fs: seq<SFrame>): seq<Frame> {
    if fs == [] then []
    else FlatFrames(Init(fs)) + [Frame(Last(fs).func, Last(fs).pc, |FlatValues(Init(fs))|)]
  }

  // ----- the reference machine -----

  datatype SEffect =
    | SGo(frames: seq<SFrame>, heap: HeapState)
    | SFinish(value: Value)
    | SStop(trap: Trap)

  /** Start a callee on its own fresh stacks. */
  function SEnter(m: Module, callers: seq<SFrame>, h: HeapState, func: nat, args: seq<Value>): SEffect {
    if func >= |m.functions| then SStop(Bug(NoFunction))
    else if |args| != m.functions[func].paramCount then SStop(Bug(Arity))
    else if |callers| > MAX_CALL_DEPTH then SStop(StackOverflow)
    else SGo(callers + [SFrame(func, 0, Resize(args, m.functions[func].localCount), [])], h)
  }

  function SBranch(rest: seq<SFrame>, top: SFrame, h: HeapState, target: nat, on: bool): SEffect {
    if top.operands == [] then SStop(Bug(Underflow))
    else if !Last(top.operands).Bool? then SStop(TypeError)
    else
      var popped := top.(operands := Init(top.operands));
      SGo(rest + [if Last(top.operands).b == on then popped.(pc := target) else popped], h)
  }

  function SReturn(rest: seq<SFrame>, top: SFrame, h: HeapState): SEffect {
    var value := if top.operands != [] then Last(top.operands) else Unit;
    if rest == [] then SFinish(value)
    else SGo(Init(rest) + [Last(rest).(operands := Last(rest).operands + [value])], h)
  }

  function SCall(m: Module, rest: seq<SFrame>, top: SFrame, h: HeapState, func: nat, argc: nat): SEffect {
    var n := |top.operands| - argc;
    if n < 0 then SStop(Bug(Underflow))
    else SEnter(m, rest + [top.(operands := top.operands[..n])], h, func, top.operands[n..])
  }

  function SIndirect(m: Module, rest: seq<SFrame>, top: SFrame, h: HeapState, argc: nat): SEffect {
    var at := |top.operands| - argc - 1;
    if at < 0 then SStop(Bug(Underflow))
    else
      var c := Fetch(h, top.operands[at]);
      if c.Found? && c.obj.ClosureObj? then
        SEnter(m, rest + [top.(operands := top.operands[..at])], h, c.obj.func,
               c.obj.captures + top.operands[at + 1..])
      else SStop(WrongKind(c).trap)
  }

  function SVirtual(m: Module, rest: seq<SFrame>, top: SFrame, h: HeapState, selector: Text, argc: nat, o: Oracle): SEffect
  {
    var n := |top.operands| - argc;
    if n < 0 then SStop(Bug(Underflow))
    else if argc == 0 then SStop(Panic(NoReceiver))
    else
      var recv := Fetch(h, top.operands[n]);
      var target := VirtualTarget(m, recv, selector);
      var popped := top.(operands := top.operands[..n]);
      if recv.Dangling? then SStop(Panic(DanglingHandle))
      else if target.Some? then SEnter(m, rest + [popped], h, target.value, top.operands[n..])
      else if o.foreign.ForeignDone? then
        SGo(rest + [popped.(operands := popped.operands + [o.foreign.ret])], o.foreign.heap)
      else SStop(OtherTrap)
  }

  function SData(env: Env, i: Instr, rest: seq<SFrame>, top: SFrame, h: HeapState, o: Oracle): SEffect {
    var n := |top.operands| - Pops(env.m, i);
    if n < 0 then SStop(Bug(Underflow))
    else SPushResult(rest, top.(operands := top.operands[..n]), Apply(env, i, top.operands[n..], h, o.bytes))
  }

  function SPushResult(rest: seq<SFrame>, top: SFrame, a: Applied): SEffect {
    match a
    case Push(vals, h) => SGo(rest + [top.(operands := top.operands + vals)], h)
    case Fault(t) => SStop(t)
  }

  function SLoad(rest: seq<SFrame>, top: SFrame, h: HeapState, slot: nat): SEffect {
    if slot < |top.locals| then SGo(rest + [top.(operands := top.operands + [top.locals[slot]])], h)
    else SStop(Bug(SlotRange))
  }

  function SStore(rest: seq<SFrame>, top: SFrame, h: HeapState, slot: nat): SEffect {
    if top.operands == [] then SStop(Bug(Underflow))
    else if slot < |top.locals| then
      SGo(rest + [top.(locals := top.locals[slot := Last(top.operands)], operands := Init(top.operands))], h)
    else SStop(Bug(SlotRange))
  }

  /** One instruction on separate stacks; the top frame's `pc` is already advanced. */
  function SPerform(env: Env, i: Instr, fs: seq<SFrame>, h: HeapState, o: Oracle): SEffect
    requires fs != [] && !i.CallNative?
  {
    var rest, top := Init(fs), Last(fs);
    if IsData(i) then SData(env, i, rest, top, h, o)
    else if i.Load? then SLoad(rest, top, h, i.slot)
    else if i.Store? then SStore(rest, top, h, i.slot)
    else if i.Call? then SCall(env.m, rest, top, h, i.func, i.argc)
    else if i.CallIndirect? then SIndirect(env.m, rest, top, h, i.argc)
    else if i.CallVirtual? then SVirtual(env.m, rest, top, h, i.selector, i.argc, o)
    else if i.Jump? then SGo(rest + [top.(pc := i.target)], h)
    else if i.JumpIfTrue? then SBranch(rest, top, h, i.target, true)
    else if i.JumpIfFalse? then SBranch(rest, top, h, i.target, false)
    else SReturn(rest, top, h)
  }

  /** The shared-stack picture of a reference effect. */
  function Flat(e: SEffect): Effect {
    match e
    case SGo(fs, h) => Go(FlatValues(fs), FlatFrames(fs), h)
    case SFinish(v) => Finish(v, [])
    case SStop(t) => Stop(t)
  }

  // ----- depth-consistent bytecode -----

  /** Operand depth before each instruction of each function. */
  type Depths = seq<seq<nat>>

  /** Control may fall to the next instruction at depth `k`. */
  predicate FallsTo(code: seq<Instr>, ds: seq<nat>, pc: nat, k: int) {
    pc + 1 < |code| && pc + 1 < |ds| && ds[pc + 1] == k
  }

  predicate JumpsTo(code: seq<Instr>, ds: seq<nat>, target: nat, k: int) {
    target < |code| && target < |ds| && ds[target] == k
  }

  /** Instruction `pc` has the operands it pops, names existing slots and agrees with its successors. */
  predicate InstrFits(m: Module, f: Function, ds: seq<nat>, pc: nat)
    requires pc < |f.code| && pc < |ds|
  {
    var k, i := ds[pc], f.code[pc];
    if IsData(i) then k >= Pops(m, i) && FallsTo(f.code, ds, pc, k - Pops(m, i) + Pushes(i))
    else if i.Load? then i.slot < f.localCount && FallsTo(f.code, ds, pc, k + 1)
    else if i.Store? then i.slot < f.localCount && k >= 1 && FallsTo(f.code, ds, pc, k - 1)
    else if i.Call? then
      && k >= i.argc && i.func < |m.functions| && i.argc == m.functions[i.func].paramCount
      && FallsTo(f.code, ds, pc, k - i.argc + 1)
    else if i.CallNative? then k >= i.argc && FallsTo(f.code, ds, pc, k - i.argc + 1)
    else if i.CallIndirect? then k >= i.argc + 1 && FallsTo(f.code, ds, pc, k - i.argc)
    else if i.CallVirtual? then i.argc >= 1 && k >= i.argc && FallsTo(f.code, ds, pc, k - i.argc + 1)
    else if i.Jump? then JumpsTo(f.code, ds, i.target, k)
    else if i.JumpIfTrue? || i.JumpIfFalse? then
      k >= 1 && JumpsTo(f.code, ds, i.target, k - 1) && FallsTo(f.code, ds, pc, k - 1)
    else true
  }

  predicate FunctionOk(m: Module, f: Function, ds: seq<nat>) {
    && f.code != [] && |ds| == |f.code| && ds[0] == 0
    && f.localCount >= f.paramCount
    && (forall pc :: 0 <= pc < |f.code| ==> InstrFits(m, f, ds, pc))
  }

  /** A consistent operand-depth assignment for the whole module. */
  predicate DepthsOk(m: Module, d: Depths) {
    |d| == |m.functions| && forall k :: 0 <= k < |d| ==> FunctionOk(m, m.functions[k], d[k])
  }

  /** A frame in its function, with all its locals and `extra` operands short of the recorded depth. */
  predicate FrameOk(m: Module, d: Depths, f: SFrame, missing: nat)
    requires |d| == |m.functions|
  {
    && f.func < |m.functions| && f.pc < |m.functions[f.func].code| && f.pc < |d[f.func]|
    && |f.locals| == m.functions[f.func].localCount
    && |f.operands| + missing == d[f.func][f.pc]
  }

  /** Callers wait for one result; the active frame has exactly its depth. */
  predicate StackOk(m: Module, d: Depths, fs: seq<SFrame>)
    requires |d| == |m.functions|
  {
    && fs != []
    && FrameOk(m, d, Last(fs), 0)
    && (forall k :: 0 <= k < |fs| - 1 ==> FrameOk(m, d, fs[k], 1))
  }

  /** Bytecode bugs that depth consistency rules out. */
  predicate StackBug(t: Trap) {
    t == Bug(Underflow) || t == Bug(SlotRange) || t == Bug(PcOffEnd) || t == Bug(EmptyStack)
    || t == Panic(NoReceiver) || t == Panic(Corrupt)
  }

  // ----- the simulation -----

  lemma {:induction false} FlatLength(fs: seq<SFrame>)
    ensures |FlatFrames(fs)| == |fs|
  {
    if fs == [] {
    } else {
      FlatLength(Init(fs));
    }
  }

  lemma FlatSnoc(rest: seq<SFrame>, f: SFrame)
    ensures FlatValues(rest + [f]) == FlatValues(rest) + f.locals + f.operands
    ensures FlatFrames(rest + [f]) == FlatFrames(rest) + [Frame(f.func, f.pc, |FlatValues(rest)|)]
  {
    assert Init(rest + [f]) == rest;
  }

  /** Cutting `k` values off the top of a concatenation cuts them off its last part. */
  lemma CutTop(a: seq<Value>, b: seq<Value>, k: nat)
    requires k <= |b|
    ensures (a + b)[|a + b| - k..] == b[|b| - k..]
    ensures (a + b)[..|a + b| - k] == a + b[..|b| - k]
  {
  }

  /** Between the fetch of `i` and its effect: `pc` is advanced, operands are those `i` starts from. */
  predicate Fetching(m: Module, d: Depths, fs: seq<SFrame>, i: Instr)
    requires |d| == |m.functions|
  {
    && fs != []
    && (forall k :: 0 <= k < |fs| - 1 ==> FrameOk(m, d, fs[k], 1))
    && Last(fs).pc >= 1
    && FrameOk(m, d, Last(fs).(pc := Last(fs).pc - 1), 0)
    && m.functions[Last(fs).func].code[Last(fs).pc - 1] == i
  }

  lemma ResizeAppend(a: seq<Value>, b: seq<Value>, n: nat)
    ensures Resize(a + b, |a| + n) == a + Resize(b, n)
  {
  }

  /** Padding the shared stack lays out the callee's locals above the caller. */
  lemma CalleeFlat(callers: seq<SFrame>, func: nat, args: seq<Value>, lc: nat)
    ensures var vs, callee := FlatValues(callers), SFrame(func, 0, Resize(args, lc), []);
            && FlatValues(callers + [callee]) == Resize(vs + args, |vs| + lc)
            && FlatFrames(callers + [callee]) == FlatFrames(callers) + [Frame(func, 0, |vs|)]
  {
    hide FlatValues, FlatFrames, Resize;
    FlatSnoc(callers, SFrame(func, 0, Resize(args, lc), []));
    ResizeAppend(FlatValues(callers), args, lc);
  }

  lemma {:induction false} EnterRefines(m: Module, callers: seq<SFrame>, h: HeapState, func: nat, args: seq<Value>)
    ensures EnterCall(m, FlatValues(callers) + args, FlatFrames(callers), h, func, |args|)
         == Flat(SEnter(m, callers, h, func, args))
  {
    hide FlatValues, FlatFrames;
    FlatLength(callers);
    if func < |m.functions| && |args| == m.functions[func].paramCount {
      var lc: nat := m.functions[func].localCount;
      var vs, callee := FlatValues(callers), SFrame(func, 0, Resize(args, lc), []);
      CalleeFlat(callers, func, args, lc);
      assert |vs + args| - |args| == |vs|;
      assert EnterFrame(vs + args, m, func, |args|) == Entered(Resize(vs + args, |vs| + lc), Frame(func, 0, |vs|));
      assert EnterFrame(vs + args, m, func, |args|) == Entered(FlatValues(callers + [callee]), Frame(func, 0, |vs|));
    }
  }

  lemma CallRefines(m: Module, rest: seq<SFrame>, top: SFrame, h: HeapState, func: nat, argc: nat)
    requires argc <= |top.operands|
    ensures EnterCall(m, FlatValues(rest + [top]), FlatFrames(rest + [top]), h, func, argc)
         == Flat(SCall(m, rest, top, h, func, argc))
  {
    hide FlatValues, FlatFrames;
    var n := |top.operands| - argc;
    var caller := top.(operands := top.operands[..n]);
    FlatSnoc(rest, top);
    FlatSnoc(rest, caller);
    assert top.operands == top.operands[..n] + top.operands[n..];
    assert FlatValues(rest + [top]) == FlatValues(rest + [caller]) + top.operands[n..];
    EnterRefines(m, rest + [caller], h, func, top.operands[n..]);
  }

  /** Where the active frame's operands begin. */
  function Floor(rest: seq<SFrame>, top: SFrame): seq<Value> { FlatValues(rest) + top.locals }

  lemma Assoc(a: seq<Value>, b: seq<Value>, c: seq<Value>)
    ensures (a + b) + c == a + (b + c)
  {
  }

  /** Popping `k` operands of the active frame pops `k` slots of the shared stack. */
  lemma PopTop(rest: seq<SFrame>, top: SFrame, k: nat)
    requires k <= |top.operands|
    ensures var vs := FlatValues(rest + [top]);
            var popped := top.(operands := top.operands[..|top.operands| - k]);
            && k <= |vs|
            && vs[|vs| - k..] == top.operands[|top.operands| - k..]
            && vs[..|vs| - k] == FlatValues(rest + [popped])
            && FlatFrames(rest + [popped]) == FlatFrames(rest + [top])
  {
    FlatSnoc(rest, top);
    FlatSnoc(rest, top.(operands := top.operands[..|top.operands| - k]));
    CutTop(Floor(rest, top), top.operands, k);
  }

  /** Pushing operands pushes slots. */
  lemma PushTop(rest: seq<SFrame>, top: SFrame, vals: seq<Value>)
    ensures FlatValues(rest + [top]) + vals == FlatValues(rest + [top.(operands := top.operands + vals)])
    ensures FlatFrames(rest + [top]) == FlatFrames(rest + [top.(operands := top.operands + vals)])
  {
    FlatSnoc(rest, top);
    FlatSnoc(rest, top.(operands := top.operands + vals));
    Assoc(Floor(rest, top), top.operands, vals);
  }

  /** Replacing the slot beneath `argc` arguments by `caps` leaves the caller short and the callee's arguments on top. */
  lemma SpliceTop(rest: seq<SFrame>, top: SFrame, argc: nat, caps: seq<Value>)
    requires argc + 1 <= |top.operands|
    ensures var vs := FlatValues(rest + [top]);
            var n := |top.operands| - argc - 1;
            && argc + 1 <= |vs|
            && vs[|vs| - argc - 1] == top.operands[n]
            && vs[..|vs| - argc - 1] + caps + vs[|vs| - argc..]
            == FlatValues(rest + [top.(operands := top.operands[..n])]) + (caps + top.operands[n + 1..])
            && FlatFrames(rest + [top.(operands := top.operands[..n])]) == FlatFrames(rest + [top])
  {
    hide FlatValues, FlatFrames;
    var vs := FlatValues(rest + [top]);
    var n := |top.operands| - argc - 1;
    PopTop(rest, top, argc);
    PopTop(rest, top, argc + 1);
    assert vs[|vs| - argc - 1] == vs[|vs| - argc - 1..][0] == top.operands[n];
    Assoc(FlatValues(rest + [top.(operands := top.operands[..n])]), caps, top.operands[n + 1..]);
  }

  lemma IndirectRefines(m: Module, rest: seq<SFrame>, top: SFrame, h: HeapState, argc: nat)
    requires argc + 1 <= |top.operands|
    ensures Indirect(m, FlatValues(rest + [top]), FlatFrames(rest + [top]), h, argc)
         == Flat(SIndirect(m, rest, top, h, argc))
  {
    hide FlatValues, FlatFrames, EnterCall, SEnter, Fetch;
    var n := |top.operands| - argc - 1;
    var caller := top.(operands := top.operands[..n]);
    SpliceTop(rest, top, argc, []);
    var c := Fetch(h, top.operands[n]);
    if c.Found? && c.obj.ClosureObj? {
      SpliceTop(rest, top, argc, c.obj.captures);
      EnterRefines(m, rest + [caller], h, c.obj.func, c.obj.captures + top.operands[n + 1..]);
    }
  }

  lemma VirtualRefines(m: Module, rest: seq<SFrame>, top: SFrame, h: HeapState, selector: Text, argc: nat, o: Oracle)
    requires 1 <= argc <= |top.operands|
    ensures Virtual(m, FlatValues(rest + [top]), FlatFrames(rest + [top]), h, selector, argc, o)
         == Flat(SVirtual(m, rest, top, h, selector, argc, o))
  {
    hide FlatValues, FlatFrames;
    var n := |top.operands| - argc;
    var vs := FlatValues(rest + [top]);
    PopTop(rest, top, argc);
    assert vs[|vs| - argc] == vs[|vs| - argc..][0] == top.operands[n];
    var target := VirtualTarget(m, Fetch(h, top.operands[n]), selector);
    if target.Some? {
      CallRefines(m, rest, top, h, target.value, argc);
    } else if o.foreign.ForeignDone? {
      PushTop(rest, top.(operands := top.operands[..n]), [o.foreign.ret]);
    }
  }

  lemma PushRefines(rest: seq<SFrame>, top: SFrame, a: Applied)
    ensures PushResult(FlatValues(rest + [top]), FlatFrames(rest + [top]), a) == Flat(SPushResult(rest, top, a))
  {
    hide FlatValues, FlatFrames;
    if a.Push? {
      PushTop(rest, top, a.vals);
    }
  }

  lemma DataRefines(env: Env, i: Instr, rest: seq<SFrame>, top: SFrame, h: HeapState, o: Oracle)
    requires Pops(env.m, i) <= |top.operands|
    ensures PopPush(env, i, FlatValues(rest + [top]), FlatFrames(rest + [top]), h, o)
         == Flat(SData(env, i, rest, top, h, o))
  {
    hide FlatValues, FlatFrames, Apply;
    var k := Pops(env.m, i);
    var n := |top.operands| - k;
    PopTop(rest, top, k);
    PushRefines(rest, top.(operands := top.operands[..n]), Apply(env, i, top.operands[n..], h, o.bytes));
  }

  /** Local `slot` of the active frame is slot `base + slot` of the shared stack. */
  lemma LocalAt(rest: seq<SFrame>, top: SFrame, slot: nat, x: Value)
    requires slot < |top.locals|
    ensures var vs, at := FlatValues(rest + [top]), |FlatValues(rest)| + slot;
            && at + |top.operands| < |vs| && vs[at] == top.locals[slot]
            && vs[at := x] == FlatValues(rest + [top.(locals := top.locals[slot := x])])
            && FlatFrames(rest + [top]) == FlatFrames(rest + [top.(locals := top.locals[slot := x])])
  {
    FlatSnoc(rest, top);
    FlatSnoc(rest, top.(locals := top.locals[slot := x]));
  }

  lemma LoadRefines(rest: seq<SFrame>, top: SFrame, h: HeapState, slot: nat)
    requires slot < |top.locals|
    ensures LoadSlot(FlatValues(rest + [top]), FlatFrames(rest + [top]), h, |FlatValues(rest)| + slot)
         == Flat(SLoad(rest, top, h, slot))
  {
    hide FlatValues, FlatFrames;
    LocalAt(rest, top, slot, Unit);
    PushTop(rest, top, [top.locals[slot]]);
  }

  lemma StoreTop(rest: seq<SFrame>, top: SFrame, slot: nat)
    requires slot < |top.locals| && top.operands != []
    ensures var vs, at := FlatValues(rest + [top]), |FlatValues(rest)| + slot;
            var x := Last(top.operands);
            var after := top.(locals := top.locals[slot := x], operands := Init(top.operands));
            && at < |vs| - 1 && Last(vs) == x
            && Init(vs)[at := x] == FlatValues(rest + [after])
            && FlatFrames(rest + [top]) == FlatFrames(rest + [after])
  {
    hide FlatValues, FlatFrames;
    var vs := FlatValues(rest + [top]);
    PopTop(rest, top, 1);
    assert Last(vs) == vs[|vs| - 1..][0] == Last(top.operands);
    LocalAt(rest, top.(operands := Init(top.operands)), slot, Last(top.operands));
  }

  lemma StoreRefines(rest: seq<SFrame>, top: SFrame, h: HeapState, slot: nat)
    requires slot < |top.locals| && top.operands != []
    ensures StoreSlot(FlatValues(rest + [top]), FlatFrames(rest + [top]), h, |FlatValues(rest)| + slot)
         == Flat(SStore(rest, top, h, slot))
  {
    hide FlatValues, FlatFrames;
    StoreTop(rest, top, slot);
  }

  lemma BranchRefines(rest: seq<SFrame>, top: SFrame, h: HeapState, target: nat, on: bool)
    requires top.operands != []
    ensures FlatFrames(rest + [top]) != []
    ensures Branch(FlatValues(rest + [top]), FlatFrames(rest + [top]), h, target, on)
         == Flat(SBranch(rest, top, h, target, on))
  {
    FlatSnoc(rest, top);
    var popped := top.(operands := Init(top.operands));
    FlatSnoc(rest, popped);
    FlatSnoc(rest, popped.(pc := target));
    assert Init(FlatValues(rest + [top])) == FlatValues(rest + [popped]);
  }

  lemma ReturnRefines(m: Module, rest: seq<SFrame>, top: SFrame, h: HeapState)
    requires top.func < |m.functions| && |top.locals| == m.functions[top.func].localCount
    ensures FlatFrames(rest + [top]) != []
    ensures ReturnFrom(m, FlatValues(rest + [top]), FlatFrames(rest + [top]), h) == Flat(SReturn(rest, top, h))
  {
    FlatSnoc(rest, top);
    FlatLength(rest);
    var low := FlatValues(rest);
    assert (low + top.locals + top.operands)[..|low|] == low;
    if rest != [] {
      var value := if top.operands != [] then Last(top.operands) else Unit;
      var caller := Last(rest);
      FlatSnoc(Init(rest), caller.(operands := caller.operands + [value]));
      assert low + [value] == FlatValues(Init(rest)) + caller.locals + (caller.operands + [value]);
    }
  }

  // ----- the depths are kept -----

  lemma EnterKeeps(m: Module, d: Depths, rest: seq<SFrame>, caller: SFrame, h: HeapState, func: nat, args: seq<Value>)
    requires DepthsOk(m, d) && FrameOk(m, d, caller, 1)
    requires forall k :: 0 <= k < |rest| ==> FrameOk(m, d, rest[k], 1)
    ensures KeepsDepths(m, d, SEnter(m, rest + [caller], h, func, args))
  {
    var e := SEnter(m, rest + [caller], h, func, args);
    if e.SGo? {
      assert FunctionOk(m, m.functions[func], d[func]);
      assert Init(e.frames) == rest + [caller];
    }
  }

  /** A reference step ends in consistent stacks, a finished fiber, or a fault that is no stack bug. */
  predicate KeepsDepths(m: Module, d: Depths, e: SEffect)
    requires |d| == |m.functions|
  {
    match e
    case SGo(fs, _) => StackOk(m, d, fs)
    case SFinish(_) => true
    case SStop(t) => !StackBug(t)
  }

  /** Faults a data instruction can raise. */
  predicate DataTrap(t: Trap) {
    t in {DivByZero, IndexOutOfBounds, TypeError, OtherTrap, Panic(DanglingHandle),
          Bug(GlobalRange), Bug(FieldRange), Bug(NoType)}
  }

  /** The result holds `n` values, or a fault of a data instruction. */
  predicate Leaves(a: Applied, n: nat) {
    match a
    case Push(vals, _) => |vals| == n
    case Fault(t) => DataTrap(t)
  }

  lemma BuildLeaves(m: Module, i: Instr, args: seq<Value>, h: HeapState, bytes: nat)
    ensures Leaves(BuildOp(m, i, args, h, bytes), 1)
  {
    hide AllocState, AllocHandle;
  }

  lemma ReadLeaves(i: Instr, args: seq<Value>, h: HeapState)
    requires args != [] && (i.ListGet? ==> |args| == 2)
    ensures Leaves(ReadOp(i, args, h), 1)
  {
    hide Wrap64;
  }

  lemma StoreLeaves(i: Instr, args: seq<Value>, h: HeapState)
    requires |args| >= 2 && (i.ListSet? ==> |args| == 3)
    ensures Leaves(StoreOp(i, args, h), 0)
  {
    hide Overwrite;
  }

  lemma ApplyPushes(env: Env, i: Instr, args: seq<Value>, h: HeapState, bytes: nat)
    requires IsData(i) && |args| == Pops(env.m, i)
    ensures Leaves(Apply(env, i, args, h, bytes), Pushes(i))
  {
    hide BuildOp, ReadOp, StoreOp, Scalar;
    if ShapeOf(i).OnHeap? {
      BuildLeaves(env.m, i, args, h, bytes);
      if i.FieldSet? || i.ListSet? {
        StoreLeaves(i, args, h);
      } else if args != [] && (i.ListGet? ==> |args| == 2) {
        ReadLeaves(i, args, h);
      }
    } else {
      ScalarFaults(env.alu, i, args);
    }
  }

  lemma ScalarFaults(alu: Alu, i: Instr, args: seq<Value>)
    requires !ShapeOf(i).OnHeap? && |args| == ShapeArity(ShapeOf(i))
    ensures Pushes(i) == 1
    ensures Scalar(alu, i, args).Faults? ==> DataTrap(Scalar(alu, i, args).trap)
  {
    hide IntOp, IntCmp, IntNeg;
  }

  /** Replacing the active frame by one at its recorded depth keeps the stacks consistent. */
  lemma TopKeeps(m: Module, d: Depths, rest: seq<SFrame>, top: SFrame)
    requires |d| == |m.functions| && FrameOk(m, d, top, 0)
    requires forall k :: 0 <= k < |rest| ==> FrameOk(m, d, rest[k], 1)
    ensures StackOk(m, d, rest + [top])
  {
    assert Init(rest + [top]) == rest;
  }

  lemma DataKeeps(env: Env, d: Depths, i: Instr, rest: seq<SFrame>, top: SFrame, h: HeapState, o: Oracle)
    requires DepthsOk(env.m, d) && Fetching(env.m, d, rest + [top], i) && IsData(i)
    ensures Pops(env.m, i) <= |top.operands|
    ensures KeepsDepths(env.m, d, SData(env, i, rest, top, h, o))
  {
    hide Apply;
    FetchingTop(env.m, d, rest, top, i);
    var n := |top.operands| - Pops(env.m, i);
    ApplyPushes(env, i, top.operands[n..], h, o.bytes);
    var a := Apply(env, i, top.operands[n..], h, o.bytes);
    if a.Push? {
      TopKeeps(env.m, d, rest, top.(operands := top.operands[..n] + a.vals));
    }
  }

  lemma FetchingTop(m: Module, d: Depths, rest: seq<SFrame>, top: SFrame, i: Instr)
    requires DepthsOk(m, d) && Fetching(m, d, rest + [top], i)
    ensures Init(rest + [top]) == rest && Last(rest + [top]) == top
    ensures forall k :: 0 <= k < |rest| ==> FrameOk(m, d, rest[k], 1)
    ensures top.pc >= 1 && FrameOk(m, d, top.(pc := top.pc - 1), 0)
    ensures m.functions[top.func].code[top.pc - 1] == i
    ensures |d[top.func]| == |m.functions[top.func].code|
    ensures InstrFits(m, m.functions[top.func], d[top.func], top.pc - 1)
  {
    var fs := rest + [top];
    assert Init(fs) == rest && Last(fs) == top;
    assert FunctionOk(m, m.functions[top.func], d[top.func]);
    forall k | 0 <= k < |rest|
      ensures FrameOk(m, d, rest[k], 1)
    {
      assert rest[k] == fs[k];
    }
  }

  lemma CallKeeps(env: Env, d: Depths, i: Instr, rest: seq<SFrame>, top: SFrame, h: HeapState, o: Oracle)
    requires DepthsOk(env.m, d) && Fetching(env.m, d, rest + [top], i) && i.Call?
    ensures KeepsDepths(env.m, d, SCall(env.m, rest, top, h, i.func, i.argc))
  {
    FetchingTop(env.m, d, rest, top, i);
    var n := |top.operands| - i.argc;
    EnterKeeps(env.m, d, rest, top.(operands := top.operands[..n]), h, i.func, top.operands[n..]);
  }

  lemma IndirectKeeps(env: Env, d: Depths, i: Instr, rest: seq<SFrame>, top: SFrame, h: HeapState, o: Oracle)
    requires DepthsOk(env.m, d) && Fetching(env.m, d, rest + [top], i) && i.CallIndirect?
    ensures KeepsDepths(env.m, d, SIndirect(env.m, rest, top, h, i.argc))
  {
    FetchingTop(env.m, d, rest, top, i);
    var n := |top.operands| - i.argc - 1;
    var c := Fetch(h, top.operands[n]);
    if c.Found? && c.obj.ClosureObj? {
      EnterKeeps(env.m, d, rest, top.(operands := top.operands[..n]), h, c.obj.func,
                 c.obj.captures + top.operands[n + 1..]);
    }
  }

  lemma VirtualKeeps(env: Env, d: Depths, i: Instr, rest: seq<SFrame>, top: SFrame, h: HeapState, o: Oracle)
    requires DepthsOk(env.m, d) && Fetching(env.m, d, rest + [top], i) && i.CallVirtual?
    ensures KeepsDepths(env.m, d, SVirtual(env.m, rest, top, h, i.selector, i.argc, o))
  {
    FetchingTop(env.m, d, rest, top, i);
    var n := |top.operands| - i.argc;
    var target := VirtualTarget(env.m, Fetch(h, top.operands[n]), i.selector);
    if target.Some? {
      EnterKeeps(env.m, d, rest, top.(operands := top.operands[..n]), h, target.value, top.operands[n..]);
    } else if o.foreign.ForeignDone? {
      TopKeeps(env.m, d, rest, top.(operands := top.operands[..n] + [o.foreign.ret]));
    }
  }

  lemma JumpKeeps(env: Env, d: Depths, i: Instr, rest: seq<SFrame>, top: SFrame, h: HeapState, o: Oracle)
    requires DepthsOk(env.m, d) && Fetching(env.m, d, rest + [top], i)
    requires i.Load? || i.Store? || i.Jump? || i.JumpIfTrue? || i.JumpIfFalse?
    ensures KeepsDepths(env.m, d, SPerform(env, i, rest + [top], h, o))
  {
    FetchingTop(env.m, d, rest, top, i);
    if i.Load? {
      TopKeeps(env.m, d, rest, top.(operands := top.operands + [top.locals[i.slot]]));
    } else if i.Store? {
      TopKeeps(env.m, d, rest, top.(locals := top.locals[i.slot := Last(top.operands)], operands := Init(top.operands)));
    } else if i.Jump? {
      TopKeeps(env.m, d, rest, top.(pc := i.target));
    } else {
      BranchKeeps(env.m, d, rest, top, h, i.target, i.JumpIfTrue?);
    }
  }

  lemma BranchKeeps(m: Module, d: Depths, rest: seq<SFrame>, top: SFrame, h: HeapState, target: nat, on: bool)
    requires |d| == |m.functions| && top.operands != []
    requires FrameOk(m, d, top.(operands := Init(top.operands)), 0)
    requires FrameOk(m, d, top.(operands := Init(top.operands), pc := target), 0)
    requires forall k :: 0 <= k < |rest| ==> FrameOk(m, d, rest[k], 1)
    ensures KeepsDepths(m, d, SBranch(rest, top, h, target, on))
  {
    TopKeeps(m, d, rest, top.(operands := Init(top.operands)));
    TopKeeps(m, d, rest, top.(operands := Init(top.operands), pc := target));
  }

  lemma ReturnKeeps(env: Env, d: Depths, rest: seq<SFrame>, top: SFrame, h: HeapState)
    requires DepthsOk(env.m, d) && Fetching(env.m, d, rest + [top], Return)
    ensures KeepsDepths(env.m, d, SReturn(rest, top, h))
  {
    FetchingTop(env.m, d, rest, top, Return);
    if rest != [] {
      var value := if top.operands != [] then Last(top.operands) else Unit;
      TopKeeps(env.m, d, Init(rest), Last(rest).(operands := Last(rest).operands + [value]));
    }
  }

  /**
   The simulation theorem: on depth-consistent stacks every instruction does on
   the shared value stack exactly what it does on separate per-frame stacks,
   and leaves consistent stacks or a fault that is no stack bug.
   */
  lemma SharedRefinesSeparate(env: Env, d: Depths, fs: seq<SFrame>, i: Instr, h: HeapState, o: Oracle)
    requires DepthsOk(env.m, d) && Fetching(env.m, d, fs, i) && !i.CallNative?
    ensures FlatFrames(fs) != []
    ensures Perform(env, i, FlatValues(fs), FlatFrames(fs), h, o) == Flat(SPerform(env, i, fs, h, o))
    ensures KeepsDepths(env.m, d, SPerform(env, i, fs, h, o))
  {
    hide Fetch, Apply, FunctionOk;
    hide FlatValues, FlatFrames, PopPush, SData, EnterCall, SEnter, Indirect, SIndirect, Virtual, SVirtual;
    hide StackOk, KeepsDepths;
    var rest, top := Init(fs), Last(fs);
    assert fs == rest + [top];
    FlatSnoc(rest, top);
    FetchingTop(env.m, d, rest, top, i);
    if IsData(i) {
      DataKeeps(env, d, i, rest, top, h, o);
      DataRefines(env, i, rest, top, h, o);
    } else if i.Call? {
      CallRefines(env.m, rest, top, h, i.func, i.argc);
      CallKeeps(env, d, i, rest, top, h, o);
    } else if i.CallIndirect? {
      IndirectRefines(env.m, rest, top, h, i.argc);
      IndirectKeeps(env, d, i, rest, top, h, o);
    } else if i.CallVirtual? {
      VirtualRefines(env.m, rest, top, h, i.selector, i.argc, o);
      VirtualKeeps(env, d, i, rest, top, h, o);
    } else if i.Return? {
      ReturnRefines(env.m, rest, top, h);
      ReturnKeeps(env, d, rest, top, h);
    } else {
      JumpKeeps(env, d, i, rest, top, h, o);
      if i.Load? {
        LoadRefines(rest, top, h, i.slot);
      } else if i.Store? {
        StoreRefines(rest, top, h, i.slot);
      } else if i.Jump? {
        FlatSnoc(rest, top.(pc := i.target));
      } else {
        BranchRefines(rest, top, h, i.target, i.JumpIfTrue?);
      }
    }
  }
}
