/**
 The simulation of module `Stacks` over executions of any length: a fiber that
 runs on the shared value stack and one that runs on separate per-frame stacks
 stay each other's picture through every instruction, native returns included.
 */
module StackRuns {
  import opened Values
  import opened Heaps
  import opened Bytecode
  import opened Schedulers
  import opened Machine
  import opened Stacks

  /** A native that returned: its arguments are popped and its result pushed. */
  function NativeReturn(vs: seq<Value>, frs: seq<Frame>, argc: nat, o: Oracle): Effect {
    if |vs| < argc then Stop(Bug(Underflow))
    else if o.foreign.ForeignFault? then Stop(OtherTrap)
    else Go(vs[..|vs| - argc] + [o.foreign.ret], frs, o.foreign.heap)
  }

  /** Fetch and perform one instruction of a fiber on the shared stack. */
  function FiberStep(env: Env, vs: seq<Value>, frs: seq<Frame>, h: HeapState, o: Oracle): Effect {
    if frs == [] || Last(frs).func >= |env.m.functions| then Stop(Panic(Corrupt))
    else if Last(frs).pc >= |env.m.functions[Last(frs).func].code| then Stop(Bug(PcOffEnd))
    else
      var i, frs1 := env.m.functions[Last(frs).func].code[Last(frs).pc], SetPc(frs, Last(frs).pc + 1);
      if i.CallNative? then NativeReturn(vs, frs1, i.argc, o) else Perform(env, i, vs, frs1, h, o)
  }

  /** Instructions until the fiber finishes, faults or the oracles run out. */
  function FiberRun(env: Env, vs: seq<Value>, frs: seq<Frame>, h: HeapState, os: seq<Oracle>): Effect {
    if os == [] then Go(vs, frs, h)
    else
      match FiberRun(env, vs, frs, h, Init(os))
      case Go(vs', frs', h') => FiberStep(env, vs', frs', h', Last(os))
      case Finish(value, rest) => Finish(value, rest)
      case Stop(t) => Stop(t)
  }

  // ----- the same on separate stacks -----

  function SNativeReturn(rest: seq<SFrame>, top: SFrame, argc: nat, o: Oracle): SEffect {
    var n := |top.operands| - argc;
    if n < 0 then SStop(Bug(Underflow))
    else if o.foreign.ForeignFault? then SStop(OtherTrap)
    else SGo(rest + [top.(operands := top.operands[..n] + [o.foreign.ret])], o.foreign.heap)
  }

  function SFiberStep(env: Env, fs: seq<SFrame>, h: HeapState, o: Oracle): SEffect {
    if fs == [] || Last(fs).func >= |env.m.functions| then SStop(Panic(Corrupt))
    else if Last(fs).pc >= |env.m.functions[Last(fs).func].code| then SStop(Bug(PcOffEnd))
    else
      var i, top := env.m.functions[Last(fs).func].code[Last(fs).pc], Last(fs).(pc := Last(fs).pc + 1);
      if i.CallNative? then SNativeReturn(Init(fs), top, i.argc, o) else SPerform(env, i, Init(fs) + [top], h, o)
  }

  function SFiberRun(env: Env, fs: seq<SFrame>, h: HeapState, os: seq<Oracle>): SEffect {
    if os == [] then SGo(fs, h)
    else
      match SFiberRun(env, fs, h, Init(os))
      case SGo(fs', h') => SFiberStep(env, fs', h', Last(os))
      case SFinish(value) => SFinish(value)
      case SStop(t) => SStop(t)
  }

  // ----- lockstep -----

  lemma NativeReturnRefines(env: Env, d: Depths, rest: seq<SFrame>, top: SFrame, i: Instr, o: Oracle)
    requires DepthsOk(env.m, d) && Fetching(env.m, d, rest + [top], i) && i.CallNative?
    ensures NativeReturn(FlatValues(rest + [top]), FlatFrames(rest + [top]), i.argc, o)
         == Flat(SNativeReturn(rest, top, i.argc, o))
    ensures KeepsDepths(env.m, d, SNativeReturn(rest, top, i.argc, o))
  {
    hide FlatValues, FlatFrames;
    FetchingTop(env.m, d, rest, top, i);
    PopTop(rest, top, i.argc);
    if o.foreign.ForeignDone? {
      var popped := top.(operands := top.operands[..|top.operands| - i.argc]);
      PushTop(rest, popped, [o.foreign.ret]);
      TopKeeps(env.m, d, rest, popped.(operands := popped.operands + [o.foreign.ret]));
    }
  }

  lemma FiberStepRefines(env: Env, d: Depths, fs: seq<SFrame>, h: HeapState, o: Oracle)
    requires DepthsOk(env.m, d) && StackOk(env.m, d, fs)
    ensures FiberStep(env, FlatValues(fs), FlatFrames(fs), h, o) == Flat(SFiberStep(env, fs, h, o))
    ensures KeepsDepths(env.m, d, SFiberStep(env, fs, h, o))
  {
    hide FlatValues, FlatFrames, Perform, SPerform, KeepsDepths, NativeReturn, SNativeReturn;
    var rest, was := Init(fs), Last(fs);
    var top := was.(pc := was.pc + 1);
    assert fs == rest + [was];
    FlatSnoc(rest, was);
    FlatSnoc(rest, top);
    var i := env.m.functions[was.func].code[was.pc];
    assert SetPc(FlatFrames(fs), was.pc + 1) == FlatFrames(rest + [top]);
    assert top.(pc := top.pc - 1) == was && Init(rest + [top]) == rest;
    assert Fetching(env.m, d, rest + [top], i);
    if i.CallNative? {
      NativeReturnRefines(env, d, rest, top, i, o);
    } else {
      SharedRefinesSeparate(env, d, rest + [top], i, h, o);
    }
  }

  /**
   From consistent stacks, any execution on the shared stack is the flattening
   of the execution on separate stacks, and it raises no stack bug.
   */
  lemma {:induction false} FiberRunRefines(env: Env, d: Depths, fs: seq<SFrame>, h: HeapState, os: seq<Oracle>)
    requires DepthsOk(env.m, d) && StackOk(env.m, d, fs)
    ensures FiberRun(env, FlatValues(fs), FlatFrames(fs), h, os) == Flat(SFiberRun(env, fs, h, os))
    ensures KeepsDepths(env.m, d, SFiberRun(env, fs, h, os))
  {
    if os == [] {
    } else {
      hide FlatValues, FlatFrames, FiberStep, SFiberStep, StackOk, FunctionOk;
      FiberRunRefines(env, d, fs, h, Init(os));
      var e := SFiberRun(env, fs, h, Init(os));
      if e.SGo? {
        FiberStepRefines(env, d, e.frames, e.heap, Last(os));
      }
    }
  }

  // ----- nothing below the base is touched -----

  lemma {:induction false} FlatPrefix(fs: seq<SFrame>, n: nat)
    requires n <= |fs|
    ensures FlatValues(fs[..n]) <= FlatValues(fs)
    ensures |FlatFrames(fs)| == |fs| && FlatFrames(fs[..n]) == FlatFrames(fs)[..n]
    ensures n < |fs| ==> FlatFrames(fs)[n].base == |FlatValues(fs[..n])|
  {
    FlatLength(fs);
    if n == |fs| {
      assert fs[..n] == fs;
    } else {
      FlatPrefix(Init(fs), n);
      assert fs[..n] == Init(fs)[..n];
      assert n == |fs| - 1 ==> fs[..n] == Init(fs);
    }
  }

  /** A step that stays more than `n` frames deep leaves the first `n` frames as they are. */
  lemma StepBelow(env: Env, fs: seq<SFrame>, h: HeapState, o: Oracle, n: nat)
    requires n < |fs|
    ensures var e := SFiberStep(env, fs, h, o); e.SGo? && |e.frames| > n ==> e.frames[..n] == fs[..n]
  {
    hide Apply, Fetch, VirtualTarget, Resize;
    var e := SFiberStep(env, fs, h, o);
    if e.SGo? && |e.frames| > n {
      var top := Last(fs).(pc := Last(fs).pc + 1);
      assert Init(Init(fs) + [top]) == Init(fs);
      assert forall k :: 0 <= k < n ==> e.frames[k] == fs[k];
    }
  }

  /** At every point of the execution the fiber goes on more than `n` frames deep. */
  predicate StaysAbove(env: Env, fs: seq<SFrame>, h: HeapState, os: seq<Oracle>, n: nat) {
    forall k :: 0 <= k <= |os| ==>
      var e := FiberRun(env, FlatValues(fs), FlatFrames(fs), h, os[..k]); e.Go? && |e.frames| > n
  }

  lemma StaysAbovePrefix(env: Env, fs: seq<SFrame>, h: HeapState, os: seq<Oracle>, n: nat)
    requires os != [] && StaysAbove(env, fs, h, os, n)
    ensures StaysAbove(env, fs, h, Init(os), n)
    ensures var e := FiberRun(env, FlatValues(fs), FlatFrames(fs), h, os); e.Go? && |e.frames| > n
  {
    hide FiberRun;
    forall k | 0 <= k <= |Init(os)| ensures Init(os)[..k] == os[..k] {
    }
    assert os[..|os|] == os;
  }

  lemma {:induction false} RunBelow(env: Env, d: Depths, fs: seq<SFrame>, h: HeapState, os: seq<Oracle>, n: nat)
    requires DepthsOk(env.m, d) && StackOk(env.m, d, fs) && n < |fs| && StaysAbove(env, fs, h, os, n)
    ensures var e := SFiberRun(env, fs, h, os); e.SGo? && |e.frames| > n && e.frames[..n] == fs[..n]
  {
    hide FlatValues, FlatFrames, FiberStep, SFiberStep, StackOk, FunctionOk, StaysAbove;
    if os == [] {
    } else {
      StaysAbovePrefix(env, fs, h, os, n);
      RunBelow(env, d, fs, h, Init(os), n);
      FiberRunRefines(env, d, fs, h, os);
      var u, e := SFiberRun(env, fs, h, Init(os)), SFiberRun(env, fs, h, os);
      StepBelow(env, u.frames, u.heap, Last(os), n);
      FlatLength(e.frames);
    }
  }

  /**
   While frame `n` stays active or suspended, its callers' records and every
   slot below its base keep their contents, whatever it and its callees do.
   */
  lemma {:induction false} BelowBaseUntouched(
      env: Env, d: Depths, fs: seq<SFrame>, h: HeapState, os: seq<Oracle>, n: nat)
    requires DepthsOk(env.m, d) && StackOk(env.m, d, fs) && n < |fs| && StaysAbove(env, fs, h, os, n)
    ensures var vs, frs := FlatValues(fs), FlatFrames(fs);
            var e := FiberRun(env, vs, frs, h, os);
            && |frs| == |fs| && e.Go? && |e.frames| > n
            && var base := frs[n].base;
               && e.frames[..n] == frs[..n] && e.frames[n].base == base
               && base <= |vs| && base <= |e.vstack| && e.vstack[..base] == vs[..base]
  {
    hide FlatValues, FlatFrames, FiberRun, SFiberRun, StackOk, FunctionOk, StaysAbove;
    RunBelow(env, d, fs, h, os, n);
    FiberRunRefines(env, d, fs, h, os);
    FlatPrefix(fs, n);
    FlatPrefix(SFiberRun(env, fs, h, os).frames, n);
  }
}
