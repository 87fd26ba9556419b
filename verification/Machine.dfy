/**
 The virtual machine as a state machine (`runtime/src/interp/mod.rs`:
 `run_loop`, `drive`, `next_ready`, `deliver_completions`;
 `runtime/src/interp/natives.rs`: the fiber and channel natives).

 One transition is one instruction of the running fiber or one driver action.
 Nondeterminism is explicit: an `Oracle` supplies the byte estimate of a new
 object, clock readings, and what a native outside this model did.
 */
module Machine {
  import opened Values
  import opened Numbers
  import opened Heaps
  import opened Bytecode
  import opened Schedulers

  const MAX_CALL_DEPTH: nat := 1_000_000

  datatype BugKind =
    | Underflow | SlotRange | PcOffEnd | NoFunction | Arity | NoNative | GlobalRange
    | FieldRange | NoType | BadArgs | Deadlock | NotSchedulable | EmptyStack | NestedPark

  /** Rust panics: a channel id or receiver a program got wrong, a dangling handle, a broken VM. */
  datatype PanicKind = BadChannel | NoReceiver | DanglingHandle | Corrupt

  /** Program faults, malformed-bytecode reports and panics that end a run. */
  datatype Trap =
    | DivByZero | IndexOutOfBounds | ClosedChannel | OutOfMemory | StackOverflow | TypeError
    | Bug(kind: BugKind) | Panic(why: PanicKind) | OtherTrap

  /** The natives modelled in full; the rest are `Foreign`. */
  datatype Native =
    | Spawn | Join | IsDone | ChanReady | SelectPark | Yield
    | ChanNew | Send | Receive | CloseChannel | Foreign

  /** Arithmetic the model takes as given: IEEE 754 operations. */
  datatype Alu = Alu(
    float2: (Instr, u64, u64) -> u64,
    floatNeg: u64 -> u64,
    floatCmp: (Instr, u64, u64) -> bool,
    toFloat: i64 -> u64,
    toInt: u64 -> i64)

  datatype Env = Env(m: Module, natives: seq<Native>, alu: Alu)

  datatype ForeignPark = NoPark | SleepUntil(deadline: int) | Syscall | SocketWait(handle: int)

  /** What a native outside the model did: heap effect, result, park, sockets it closed. */
  datatype ForeignEffect =
    | ForeignDone(heap: HeapState, ret: Value, park: ForeignPark, closed: seq<int>)
    | ForeignFault

  /**
   `nested` are the natives that interpreted code run inside the structural
   fallback of `call.virtual` calls, in order; its own work on the heap counts
   as foreign calls among them.
   */
  datatype Oracle = Oracle(bytes: nat, clock: int, foreign: ForeignEffect, nested: seq<NestedCall>)

  datatype NestedCall = NestedCall(native: Native, args: seq<Value>, o: Oracle)

  datatype WaitKind = PollWait | IoWait | TimerWait

  datatype Outcome = Returned(value: Value) | Trapped(trap: Trap)

  /** `Exec`: a fiber runs. `Pick`: the driver looks for work. `Wait`: it waits outside. */
  datatype Phase = Exec(id: nat) | Pick | Wait(kind: WaitKind) | Halt(outcome: Outcome)

  /** A completed channel call of one `call.native` instruction. */
  datatype ChanCall =
    | SendCall(fiber: nat, chan: nat, value: Value)
    | RecvCall(fiber: nat, chan: nat, value: Value)

  /** `frames` ends with the active frame; `jobs` are syscalls out at the workers; `log` is history. */
  datatype Vm = Vm(
    heap: HeapState,
    sched: Sched,
    phase: Phase,
    vstack: seq<Value>,
    frames: seq<Frame>,
    jobs: set<nat>,
    log: seq<ChanCall>)

  // ----- integer arithmetic -----

  function Wrap64(x: int): i64 { (x + POW63) % POW64 - POW63 }

  function TruncDiv(a: int, b: int): int
    requires b != 0
  {
    if a >= 0 then a / b else -((-a) / b)
  }

  predicate BitOp(i: Instr, x: bool, y: bool) {
    match i
    case AndI64 => x && y
    case OrI64 => x || y
    case _ => x != y
  }

  /** A bitwise operation on two's-complement integers of `n` bits and a sign. */
  function Bitwise(i: Instr, a: int, b: int, n: nat): (r: int)
    ensures Fits(r, n)
    decreases n
  {
    if n == 0 then if BitOp(i, a < 0, b < 0) then -1 else 0
    else 2 * Bitwise(i, a / 2, b / 2, n - 1) + (if BitOp(i, a % 2 == 1, b % 2 == 1) then 1 else 0)
  }

  function IntOp(i: Instr, a: i64, b: i64): i64 {
    Pow2Positive(b % 64);
    match i
    case AddI64 => Wrap64(a + b)
    case SubI64 => Wrap64(a - b)
    case MulI64 => Wrap64(a * b)
    case DivI64 => if b == 0 then 0 else Wrap64(TruncDiv(a, b))
    case ModI64 => if b == 0 then 0 else Wrap64(a - b * TruncDiv(a, b))
    case ShlI64 => Wrap64(a * Pow2(b % 64))
    case ShrI64 => Wrap64(a / Pow2(b % 64))
    case UShrI64 => Wrap64(a % POW64 / Pow2(b % 64))
    case _ => Pow2Values(); Bitwise(i, a, b, 63)
  }

  function IntNeg(i: Instr, a: int): i64 {
    if i.NegI64? then Wrap64(0 - a) else Wrap64(-1 - a)
  }

  function IntCmp(i: Instr, a: i64, b: i64): bool {
    match i
    case EqI64 => a == b
    case NeI64 => a != b
    case LtI64 => a < b
    case LeI64 => a <= b
    case GtI64 => a > b
    case _ => a >= b
  }

  // ----- instructions that only pop, compute and push -----

  /** What a data instruction does with scalars; `OnHeap` for the others. */
  datatype Shape =
    | Constant(v: Value) | IntToInt | IntsToInt | Divide | IntsToBool | FloatToFloat | FloatsToFloat
    | FloatsToBool | BoolToBool | IntToFloat | FloatToInt | OnHeap

  function ShapeOf(i: Instr): Shape {
    match i
    case ConstInt(n) => Constant(Int(n))
    case ConstDouble(x) => Constant(Double(x))
    case ConstBool(b) => Constant(Bool(b))
    case ConstUnit => Constant(Unit)
    case NegI64 => IntToInt case BNotI64 => IntToInt
    case AddI64 => IntsToInt case SubI64 => IntsToInt case MulI64 => IntsToInt
    case AndI64 => IntsToInt case OrI64 => IntsToInt case XorI64 => IntsToInt
    case ShlI64 => IntsToInt case ShrI64 => IntsToInt case UShrI64 => IntsToInt
    case DivI64 => Divide case ModI64 => Divide
    case EqI64 => IntsToBool case NeI64 => IntsToBool case LtI64 => IntsToBool
    case LeI64 => IntsToBool case GtI64 => IntsToBool case GeI64 => IntsToBool
    case NegF64 => FloatToFloat
    case AddF64 => FloatsToFloat case SubF64 => FloatsToFloat case MulF64 => FloatsToFloat case DivF64 => FloatsToFloat
    case EqF64 => FloatsToBool case NeF64 => FloatsToBool case LtF64 => FloatsToBool
    case LeF64 => FloatsToBool case GtF64 => FloatsToBool case GeF64 => FloatsToBool
    case Not => BoolToBool
    case I64ToF64 => IntToFloat
    case F64ToI64 => FloatToInt
    case _ => OnHeap
  }

  function ShapeArity(s: Shape): nat {
    match s
    case Constant(_) => 0
    case IntToInt => 1 case FloatToFloat => 1 case BoolToBool => 1 case IntToFloat => 1 case FloatToInt => 1
    case _ => 2
  }

  /** Operands a data instruction takes off the stack. */
  function Pops(m: Module, i: Instr): nat {
    match i
    case ConstStr(_) => 0 case GlobalGet(_) => 0
    case Pop => 1 case Dup => 1 case GlobalSet(_) => 1
    case EnumTag => 1 case EnumGet(_) => 1 case FieldGet(_) => 1 case ListLen => 1
    case FieldSet(_) => 2 case ListGet => 2
    case ListSet => 3
    case EnumNew(_, _, n) => n
    case StructNew(ty) => if ty < |m.types| then m.types[ty].fieldCount else 0
    case ListNew(n) => n
    case ClosureNew(_, n) => n
    case _ => ShapeArity(ShapeOf(i))
  }

  /** Operands a data instruction leaves on the stack. */
  function Pushes(i: Instr): nat {
    match i
    case Pop => 0 case GlobalSet(_) => 0 case FieldSet(_) => 0 case ListSet => 0
    case Dup => 2
    case _ => 1
  }

  /** Everything but locals, calls, jumps and return. */
  predicate IsData(i: Instr) {
    !(i.Load? || i.Store? || i.Call? || i.CallNative? || i.CallIndirect? || i.CallVirtual?
      || i.Jump? || i.JumpIfTrue? || i.JumpIfFalse? || i.Return?)
  }

  datatype ScalarResult = Yields(v: Value) | Faults(trap: Trap)

  function Scalar(alu: Alu, i: Instr, args: seq<Value>): (r: ScalarResult)
    requires |args| == ShapeArity(ShapeOf(i))
    ensures r.Yields? ==> !r.v.Ref?
  {
    match ShapeOf(i)
    case Constant(v) => if v.Ref? then Faults(TypeError) else Yields(v)
    case IntToInt =>
      if args[0].Int? then Yields(Int(IntNeg(i, args[0].n))) else Faults(TypeError)
    case IntsToInt =>
      if args[0].Int? && args[1].Int? then Yields(Int(IntOp(i, args[0].n, args[1].n))) else Faults(TypeError)
    case Divide =>
      if args[0].Int? && args[1].Int? then
        if args[1].n == 0 then Faults(DivByZero) else Yields(Int(IntOp(i, args[0].n, args[1].n)))
      else Faults(TypeError)
    case IntsToBool =>
      if args[0].Int? && args[1].Int? then Yields(Bool(IntCmp(i, args[0].n, args[1].n))) else Faults(TypeError)
    case FloatToFloat => if args[0].Double? then Yields(Double(alu.floatNeg(args[0].bits))) else Faults(TypeError)
    case FloatsToFloat =>
      if args[0].Double? && args[1].Double? then Yields(Double(alu.float2(i, args[0].bits, args[1].bits)))
      else Faults(TypeError)
    case FloatsToBool =>
      if args[0].Double? && args[1].Double? then Yields(Bool(alu.floatCmp(i, args[0].bits, args[1].bits)))
      else Faults(TypeError)
    case BoolToBool => if args[0].Bool? then Yields(Bool(!args[0].b)) else Faults(TypeError)
    case IntToFloat => if args[0].Int? then Yields(Double(alu.toFloat(args[0].n))) else Faults(TypeError)
    case FloatToInt => if args[0].Double? then Yields(Int(alu.toInt(args[0].bits))) else Faults(TypeError)
    case OnHeap => Faults(TypeError)
  }

  datatype Applied = Push(vals: seq<Value>, heap: HeapState) | Fault(trap: Trap)

  datatype Fetched = Found(obj: Obj) | NotARef | Dangling

  /** The object behind a value. */
  function Fetch(h: HeapState, v: Value): Fetched {
    if !v.Ref? then NotARef
    else if v.h < |h.slots| && h.slots[v.h].Used? then Found(h.slots[v.h].obj)
    else Dangling
  }

  /** A value that is not the object kind wanted: a type error, unless it dangles. */
  function WrongKind(f: Fetched): Applied {
    Fault(if f.Dangling? then Panic(DanglingHandle) else TypeError)
  }

  /** A mutation in place; its growth is not charged to `heapBytes`. */
  function Overwrite(h: HeapState, v: Value, obj: Obj): HeapState
    requires Fetch(h, v).Found?
  {
    h.(slots := h.slots[v.h := Used(obj, h.slots[v.h].bytes)])
  }

  function AllocPush(h: HeapState, obj: Obj, bytes: nat): Applied {
    Push([Ref(AllocHandle(h))], AllocState(h, obj, bytes))
  }

  /** The interned string constant, allocated on first use. */
  function InternPush(h: HeapState, s: Text, bytes: nat): Applied {
    if s in h.intern then Push([h.intern[s]], h)
    else
      var v := Ref(AllocHandle(h));
      Push([v], AllocState(h, StrObj(s), bytes).(intern := h.intern[s := v]))
  }

  /** A data instruction on the operands it popped. */
  function Apply(env: Env, i: Instr, args: seq<Value>, h: HeapState, bytes: nat): Applied
    requires |args| == Pops(env.m, i)
  {
    if ShapeOf(i).OnHeap? then HeapOp(env.m, i, args, h, bytes)
    else
      match Scalar(env.alu, i, args)
      case Yields(v) => Push([v], h)
      case Faults(t) => Fault(t)
  }

  /** Constants and constructors: push one new or interned object. */
  function BuildOp(m: Module, i: Instr, args: seq<Value>, h: HeapState, bytes: nat): Applied {
    if i.ConstStr? then InternPush(h, i.s, bytes)
    else if i.EnumNew? then AllocPush(h, EnumObj(i.ty, i.variant, args), bytes)
    else if i.StructNew? then
      if i.ty < |m.types| then AllocPush(h, StructObj(i.ty, args), bytes) else Fault(Bug(NoType))
    else if i.ListNew? then AllocPush(h, ListObj(args), bytes)
    else if i.ClosureNew? then AllocPush(h, ClosureObj(i.func, args), bytes)
    else Fault(OtherTrap) // not a data instruction
  }

  function FieldsGet(h: HeapState, fields: seq<Value>, k: nat): Applied {
    if k < |fields| then Push([fields[k]], h) else Fault(Bug(FieldRange))
  }

  /** Instructions that look through a reference. */
  function ReadOp(i: Instr, args: seq<Value>, h: HeapState): Applied
    requires args != [] && (i.ListGet? ==> |args| == 2)
  {
    var f := Fetch(h, args[0]);
    if i.ListGet? && !args[1].Int? then Fault(TypeError)
    else if !f.Found? then WrongKind(f)
    else if i.EnumTag? && f.obj.EnumObj? then Push([Int(f.obj.variant)], h)
    else if i.EnumGet? && f.obj.EnumObj? then FieldsGet(h, f.obj.fields, i.field)
    else if i.FieldGet? && f.obj.StructObj? then FieldsGet(h, f.obj.fields, i.field)
    else if i.ListGet? && f.obj.ListObj? then
      if 0 <= args[1].n < |f.obj.items| then Push([f.obj.items[args[1].n]], h) else Fault(IndexOutOfBounds)
    else if i.ListLen? && f.obj.ListObj? then Push([Int(Wrap64(|f.obj.items|))], h)
    else Fault(TypeError)
  }

  /** Instructions that store through a reference. */
  function StoreOp(i: Instr, args: seq<Value>, h: HeapState): Applied
    requires |args| >= 2 && (i.ListSet? ==> |args| == 3)
  {
    var f := Fetch(h, args[0]);
    if i.ListSet? && !args[1].Int? then Fault(TypeError)
    else if !f.Found? then WrongKind(f)
    else if i.FieldSet? && f.obj.StructObj? then
      if i.field < |f.obj.fields| then
        Push([], Overwrite(h, args[0], StructObj(f.obj.ty, f.obj.fields[i.field := args[1]])))
      else Fault(Bug(FieldRange))
    else if i.ListSet? && f.obj.ListObj? then
      if 0 <= args[1].n < |f.obj.items| then
        Push([], Overwrite(h, args[0], ListObj(f.obj.items[args[1].n := args[2]])))
      else Fault(IndexOutOfBounds)
    else Fault(TypeError)
  }

  function HeapOp(m: Module, i: Instr, args: seq<Value>, h: HeapState, bytes: nat): Applied
    requires |args| == Pops(m, i)
  {
    if i.FieldSet? || i.ListSet? then StoreOp(i, args, h)
    else if i.EnumTag? || i.EnumGet? || i.FieldGet? || i.ListGet? || i.ListLen? then ReadOp(i, args, h)
    else if i.GlobalGet? then
      if i.idx < |h.globals| then Push([h.globals[i.idx]], h) else Fault(Bug(GlobalRange))
    else if i.GlobalSet? then
      if i.idx < |h.globals| then Push([], h.(globals := h.globals[i.idx := args[0]])) else Fault(Bug(GlobalRange))
    else if i.Pop? then Push([], h)
    else if i.Dup? then Push([args[0], args[0]], h)
    else BuildOp(m, i, args, h, bytes)
  }

  // ----- locals, jumps, calls and return on the shared value stack -----

  /** `Go`: the fiber continues. `Finish`: its whole stack unwound. */
  datatype Effect =
    | Go(vstack: seq<Value>, frames: seq<Frame>, heap: HeapState)
    | Finish(value: Value, rest: seq<Value>)
    | Stop(trap: Trap)

  datatype Entered = Entered(vstack: seq<Value>, frame: Frame) | Refused(trap: Trap)

  /** Shrink or pad with `Unit` to `n` slots. */
  function Resize(vs: seq<Value>, n: nat): seq<Value> {
    if n <= |vs| then vs[..n] else vs + Units(n - |vs|)
  }

  function Truncate(vs: seq<Value>, n: nat): seq<Value> {
    if n <= |vs| then vs[..n] else vs
  }

  /** Enter `func` over the top `argc` slots, which become its leading locals in place. */
  function EnterFrame(vstack: seq<Value>, m: Module, func: nat, argc: nat): Entered {
    if func >= |m.functions| then Refused(Bug(NoFunction))
    else if argc != m.functions[func].paramCount then Refused(Bug(Arity))
    else if |vstack| < argc then Refused(Bug(Underflow))
    else
      var base := |vstack| - argc;
      Entered(Resize(vstack, base + m.functions[func].localCount), Frame(func, 0, base))
  }

  /** Suspend the caller and continue in the callee, under the depth cap. */
  function EnterCall(m: Module, vstack: seq<Value>, frames: seq<Frame>, h: HeapState, func: nat, argc: nat): Effect {
    match EnterFrame(vstack, m, func, argc)
    case Refused(t) => Stop(t)
    case Entered(vs, callee) =>
      if |frames| > MAX_CALL_DEPTH then Stop(StackOverflow) else Go(vs, frames + [callee], h)
  }

  function DispatchTypeId(f: Fetched): Option<u32> {
    if f.Found? && f.obj.StructObj? then Some(f.obj.ty)
    else if f.Found? && f.obj.EnumObj? then
      Some(if f.obj.ty < ENUM_DISPATCH_BASE then ENUM_DISPATCH_BASE + f.obj.ty else f.obj.ty)
    else None
  }

  function SetPc(frames: seq<Frame>, pc: nat): seq<Frame>
    requires frames != []
  {
    Init(frames) + [Last(frames).(pc := pc)]
  }

  function Branch(vstack: seq<Value>, frames: seq<Frame>, h: HeapState, target: nat, on: bool): Effect
    requires frames != []
  {
    if vstack == [] then Stop(Bug(Underflow))
    else if !Last(vstack).Bool? then Stop(TypeError)
    else if Last(vstack).b == on then Go(Init(vstack), SetPc(frames, target), h)
    else Go(Init(vstack), frames, h)
  }

  /** Call the closure beneath the arguments: its captures take its slot, shifting the arguments up. */
  function Indirect(m: Module, vstack: seq<Value>, frames: seq<Frame>, h: HeapState, argc: nat): Effect {
    if |vstack| < argc + 1 then Stop(Bug(Underflow))
    else
      var at := |vstack| - argc - 1;
      var c := Fetch(h, vstack[at]);
      if c.Found? && c.obj.ClosureObj? then
        EnterCall(m, vstack[..at] + c.obj.captures + vstack[at + 1..], frames, h,
                  c.obj.func, |c.obj.captures| + argc)
      else Stop(WrongKind(c).trap)
  }

  /**
   Dispatch on the receiver's type; a miss runs the built-in structural form, whose
   result and final heap are the oracle's.
   */
  function Virtual(m: Module, vstack: seq<Value>, frames: seq<Frame>, h: HeapState,
                   selector: Text, argc: nat, o: Oracle): Effect {
    if |vstack| < argc then Stop(Bug(Underflow))
    else if argc == 0 then Stop(Panic(NoReceiver))
    else
      var base := |vstack| - argc;
      var recv := Fetch(h, vstack[base]);
      var target := VirtualTarget(m, recv, selector);
      if recv.Dangling? then Stop(Panic(DanglingHandle))
      else if target.Some? then EnterCall(m, vstack, frames, h, target.value, argc)
      else if o.foreign.ForeignDone? then Go(vstack[..base] + [o.foreign.ret], frames, o.foreign.heap)
      else Stop(OtherTrap)
  }

  function VirtualTarget(m: Module, recv: Fetched, selector: Text): Option<u32> {
    var ty := DispatchTypeId(recv);
    if ty.Some? then DispatchTarget(m, ty.value, selector) else None
  }

  /** Pop the frame's whole slot region; its top operand, or `Unit`, is the result. */
  function ReturnFrom(m: Module, vstack: seq<Value>, frames: seq<Frame>, h: HeapState): Effect
    requires frames != []
  {
    var f := Last(frames);
    if f.func >= |m.functions| then Stop(Panic(Corrupt))
    else
      var floor := f.base + m.functions[f.func].localCount;
      var value := if |vstack| > floor then Last(vstack) else Unit;
      if |frames| == 1 then Finish(value, Truncate(vstack, f.base))
      else Go(Truncate(vstack, f.base) + [value], Init(frames), h)
  }

  function PopPush(env: Env, i: Instr, vstack: seq<Value>, frames: seq<Frame>, h: HeapState, o: Oracle): Effect {
    var k := Pops(env.m, i);
    if |vstack| < k then Stop(Bug(Underflow))
    else PushResult(vstack[..|vstack| - k], frames, Apply(env, i, vstack[|vstack| - k..], h, o.bytes))
  }

  function PushResult(rest: seq<Value>, frames: seq<Frame>, a: Applied): Effect {
    match a
    case Push(vals, h) => Go(rest + vals, frames, h)
    case Fault(t) => Stop(t)
  }

  function LoadSlot(vstack: seq<Value>, frames: seq<Frame>, h: HeapState, at: nat): Effect {
    if at < |vstack| then Go(vstack + [vstack[at]], frames, h) else Stop(Bug(SlotRange))
  }

  function StoreSlot(vstack: seq<Value>, frames: seq<Frame>, h: HeapState, at: nat): Effect {
    if vstack == [] then Stop(Bug(Underflow))
    else if at < |vstack| - 1 then Go(Init(vstack)[at := Last(vstack)], frames, h)
    else Stop(Bug(SlotRange))
  }

  /** One instruction other than `call.native`; the active frame's `pc` is already advanced. */
  function Perform(env: Env, i: Instr, vstack: seq<Value>, frames: seq<Frame>, h: HeapState, o: Oracle): Effect
    requires frames != [] && !i.CallNative?
  {
    if IsData(i) then PopPush(env, i, vstack, frames, h, o)
    else if i.Load? then LoadSlot(vstack, frames, h, Last(frames).base + i.slot)
    else if i.Store? then StoreSlot(vstack, frames, h, Last(frames).base + i.slot)
    else if i.Call? then EnterCall(env.m, vstack, frames, h, i.func, i.argc)
    else if i.CallIndirect? then Indirect(env.m, vstack, frames, h, i.argc)
    else if i.CallVirtual? then Virtual(env.m, vstack, frames, h, i.selector, i.argc, o)
    else if i.Jump? then Go(vstack, SetPc(frames, i.target), h)
    else if i.JumpIfTrue? then Branch(vstack, frames, h, i.target, true)
    else if i.JumpIfFalse? then Branch(vstack, frames, h, i.target, false)
    else ReturnFrom(env.m, vstack, frames, h)
  }

  // ----- natives -----

  datatype NativeResult =
    | NativeOk(heap: HeapState, sched: Sched, ret: Value, park: Option<ParkRequest>, call: Option<ChanCall>)
    | NativeFail(trap: Trap)

  function Quiet(h: HeapState, s: Sched, ret: Value): NativeResult { NativeOk(h, s, ret, None, None) }

  /** The placeholder return of a native that must be re-run. */
  function Retry(h: HeapState, s: Sched): NativeResult { NativeOk(h, s, Unit, Some(BlockRetry), None) }

  function Ints(vs: seq<Value>): seq<int> {
    if vs == [] then [] else Ints(Init(vs)) + [if Last(vs).Int? then Last(vs).n else 0]
  }

  predicate AllInts(vs: seq<Value>) { forall i :: 0 <= i < |vs| ==> vs[i].Int? }

  function ParkOf(p: ForeignPark): Option<ParkRequest> {
    match p
    case NoPark => None
    case SleepUntil(d) => Some(Timer(d))
    case Syscall => Some(Await)
    case SocketWait(h) => Some(Ready(h))
  }

  /** The log after a native: its completed channel call, if it made one. */
  function LogWith(log: seq<ChanCall>, call: Option<ChanCall>): seq<ChanCall> {
    if call.Some? then log + [call.value] else log
  }

  function WakePolls(s: Sched, handles: seq<int>): Sched {
    if handles == [] then s else WakePoll(WakePolls(s, Init(handles)), Last(handles))
  }

  function SendNative(id: nat, h: HeapState, s: Sched, args: seq<Value>): NativeResult {
    if |args| != 2 || !args[0].Int? then NativeFail(Bug(BadArgs))
    else if !(0 <= args[0].n < |s.channels|) then NativeFail(Panic(BadChannel))
    else
      var (s', outcome) := TrySend(s, args[0].n, args[1]);
      match outcome
      case Sent => NativeOk(h, s', Unit, None, Some(SendCall(id, args[0].n, args[1])))
      case Full => Retry(h, s')
      case Closed => NativeFail(ClosedChannel)
  }

  function ReceiveNative(id: nat, h: HeapState, s: Sched, args: seq<Value>, bytes: nat): NativeResult {
    if |args| != 1 || !args[0].Int? then NativeFail(Bug(BadArgs))
    else if !(0 <= args[0].n < |s.channels|) then NativeFail(Panic(BadChannel))
    else
      var (s', outcome) := TryReceive(s, args[0].n);
      match outcome
      case Got(v) =>
        NativeOk(AllocState(h, SomeObj(v), bytes), s', Ref(AllocHandle(h)), None, Some(RecvCall(id, args[0].n, v)))
      case Drained => Quiet(AllocState(h, NoneObj(), bytes), s', Ref(AllocHandle(h)))
      case Empty => Retry(h, s')
  }

  function JoinNative(h: HeapState, s: Sched, args: seq<Value>): NativeResult {
    if |args| != 1 || !args[0].Int? then NativeFail(Bug(BadArgs))
    else if ResultOf(s, args[0].n).Some? then Quiet(h, s, ResultOf(s, args[0].n).value)
    else Retry(h, s)
  }

  function SelectNative(h: HeapState, s: Sched, args: seq<Value>, clock: int): NativeResult {
    if |args| != 2 || !args[1].Int? then NativeFail(Bug(BadArgs))
    else
      var l := Fetch(h, args[0]);
      if l.Dangling? then NativeFail(Panic(DanglingHandle))
      else if !l.Found? || !l.obj.ListObj? || !AllInts(l.obj.items) then NativeFail(Bug(BadArgs))
      else NativeOk(h, s, Unit, Some(Multi(if args[1].n < 0 then None else Some(clock), Ints(l.obj.items))), None)
  }

  function RunNative(k: Native, id: nat, args: seq<Value>, h: HeapState, s: Sched, o: Oracle): NativeResult {
    match k
    case Spawn =>
      if |args| != 1 then NativeFail(Bug(BadArgs))
      else Quiet(h, SpawnFiber(s, args[0]), Int(Wrap64(|s.fibers|)))
    case Join => JoinNative(h, s, args)
    case IsDone =>
      if |args| != 1 || !args[0].Int? then NativeFail(Bug(BadArgs))
      else Quiet(h, s, Bool(ResultOf(s, args[0].n).Some?))
    case ChanReady =>
      if |args| != 1 || !args[0].Int? then NativeFail(Bug(BadArgs))
      else if !(0 <= args[0].n < |s.channels|) then NativeFail(Panic(BadChannel))
      else Quiet(h, s, Bool(s.channels[args[0].n].buffer != [] || s.channels[args[0].n].closed))
    case SelectPark => SelectNative(h, s, args, o.clock)
    case Yield =>
      if args != [] then NativeFail(Bug(BadArgs)) else NativeOk(h, s, Unit, Some(YieldReady), None)
    case ChanNew =>
      if |args| != 1 || !args[0].Int? then NativeFail(Bug(BadArgs))
      else Quiet(h, NewChannel(s, if args[0].n < 0 then 0 else args[0].n), Int(Wrap64(|s.channels|)))
    case Send => SendNative(id, h, s, args)
    case Receive => ReceiveNative(id, h, s, args, o.bytes)
    case CloseChannel =>
      if |args| != 1 || !args[0].Int? then NativeFail(Bug(BadArgs))
      else if !(0 <= args[0].n < |s.channels|) then NativeFail(Panic(BadChannel))
      else Quiet(h, CloseChan(s, args[0].n), Unit)
    case Foreign =>
      match o.foreign
      case ForeignDone(h', ret, park, closed) => NativeOk(h', WakePolls(s, closed), ret, ParkOf(park), None)
      case ForeignFault => NativeFail(OtherTrap)
  }

  // ----- the structural fallback of `call.virtual` -----

  function Stopped(v: Vm, t: Trap): Vm { v.(phase := Halt(Trapped(t))) }

  datatype NestedResult = NestedOk(heap: HeapState, sched: Sched, log: seq<ChanCall>) | NestedFail(trap: Trap)

  /** Natives called from nested code, one after the other; none of them may park. */
  function RunNested(id: nat, calls: seq<NestedCall>, h: HeapState, s: Sched, log: seq<ChanCall>): NestedResult {
    if calls == [] then NestedOk(h, s, log)
    else
      var r := RunNested(id, Init(calls), h, s, log);
      if r.NestedFail? then r else NestedNative(id, Last(calls), r.heap, r.sched, r.log)
  }

  function NestedNative(id: nat, c: NestedCall, h: HeapState, s: Sched, log: seq<ChanCall>): NestedResult {
    match RunNative(c.native, id, c.args, h, s, c.o)
    case NativeFail(t) => NestedFail(t)
    case NativeOk(h', s', _, park, call) =>
      if park.Some? then NestedFail(Bug(NestedPark)) else NestedOk(h', s', LogWith(log, call))
  }

  /** A virtual call whose receiver has no implementation of the selector. */
  predicate FallsBack(m: Module, i: Instr, vstack: seq<Value>, h: HeapState) {
    && i.CallVirtual? && 1 <= i.argc <= |vstack| && !Fetch(h, vstack[|vstack| - i.argc]).Dangling?
    && VirtualTarget(m, Fetch(h, vstack[|vstack| - i.argc]), i.selector).None?
  }

  /** The machine after the code the fallback runs, before its result is pushed. */
  function AfterNested(env: Env, v: Vm, id: nat, i: Instr, o: Oracle): Vm {
    if FallsBack(env.m, i, v.vstack, v.heap) && o.foreign.ForeignDone? then
      match RunNested(id, o.nested, v.heap, v.sched, v.log)
      case NestedOk(h, s, log) => v.(heap := h, sched := s, log := log)
      case NestedFail(t) => Stopped(v, t)
    else v
  }

  // ----- safepoints -----

  function FiberRoots(f: Fiber): seq<Value> {
    match f.state
    case NotStarted(c) => [c]
    case Done(v) => [v]
    case Suspended(vstack, _) => vstack
    case Running => []
  }

  function FibersRoots(fs: seq<Fiber>): seq<Value> {
    if fs == [] then [] else FibersRoots(Init(fs)) + FiberRoots(Last(fs))
  }

  function ChansRoots(cs: seq<Chan>): seq<Value> {
    if cs == [] then [] else ChansRoots(Init(cs)) + Last(cs).buffer
  }

  /** Roots held by the scheduler: every other fiber and every channel buffer. */
  function SchedRoots(s: Sched): seq<Value> { FibersRoots(s.fibers) + ChansRoots(s.channels) }

  /** Whether instruction `i` reaches a safepoint, and the running fiber's roots there. */
  function PollRoots(i: Instr, pc: nat, vstack: seq<Value>): Option<seq<Value>> {
    if i.ConstStr? || i.Call? || i.CallNative? || i.CallIndirect? || i.CallVirtual?
       || i.EnumNew? || i.StructNew? || i.ListNew? || i.ClosureNew?
    then Some(vstack)
    else if i.Jump? && i.target < pc then Some(vstack)
    else if i.JumpIfTrue? && i.target < pc && vstack != [] && Last(vstack) == Bool(true) then Some(Init(vstack))
    else if i.JumpIfFalse? && i.target < pc && vstack != [] && Last(vstack) == Bool(false) then Some(Init(vstack))
    else None
  }

  /** Collect at a safepoint if one is due, then enforce the heap ceiling. */
  ghost function Safepoint(v: Vm, roots: Option<seq<Value>>): Vm {
    if roots.Some? && v.heap.pending && v.heap.paused == 0 then
      var h := Collected(v.heap, roots.value + SchedRoots(v.sched));
      var v' := v.(heap := h);
      if h.heapBytes > h.maxHeap then Stopped(v', OutOfMemory) else v'
    else v
  }

  // ----- transitions -----

  /** Hand the running fiber's stacks to the scheduler and let the driver pick. */
  function ParkCurrent(v: Vm, id: nat, s: Sched, vstack: seq<Value>, frames: seq<Frame>, req: ParkRequest): Vm
    requires id < |s.fibers|
  {
    var v' := v.(phase := Pick, vstack := [], frames := []);
    if req.Await? then v'.(sched := ParkIo(s, id, vstack, frames), jobs := v.jobs + {id})
    else v'.(sched := ParkFiber(s, id, vstack, frames, req))
  }

  function NativeStep(env: Env, v: Vm, id: nat, native: nat, argc: nat, o: Oracle): Vm
    requires v.frames != [] && Last(v.frames).pc > 0
  {
    if |v.vstack| < argc then Stopped(v, Bug(Underflow))
    else if native >= |env.natives| then Stopped(v, Bug(NoNative))
    else
      var base := |v.vstack| - argc;
      match RunNative(env.natives[native], id, v.vstack[base..], v.heap, v.sched, o)
      case NativeFail(t) => Stopped(v, t)
      case NativeOk(h, s, ret, park, call) =>
        var v1 := v.(heap := h, log := LogWith(v.log, call));
        if park.None? then v1.(sched := s, vstack := v.vstack[..base] + [ret])
        else if id >= |s.fibers| then Stopped(v, Panic(Corrupt))
        else if park.value.BlockRetry? || park.value.Ready? then
          ParkCurrent(v1, id, s, v.vstack, SetPc(v.frames, Last(v.frames).pc - 1), park.value)
        else ParkCurrent(v1, id, s, v.vstack[..base] + [ret], v.frames, park.value)
  }

  function Absorb(v: Vm, id: nat, e: Effect): Vm {
    match e
    case Go(vstack, frames, h) => v.(vstack := vstack, frames := frames, heap := h)
    case Stop(t) => Stopped(v, t)
    case Finish(value, rest) =>
      v.(vstack := rest, frames := [], sched := CompleteFiber(v.sched, id, value),
         phase := if id == MAIN_FIBER then Halt(Returned(value)) else Pick)
  }

  /** The active frame's function and next instruction exist. */
  predicate CanFetch(env: Env, v: Vm) {
    && v.frames != [] && Last(v.frames).func < |env.m.functions|
    && Last(v.frames).pc < |env.m.functions[Last(v.frames).func].code|
  }

  function NextInstr(env: Env, v: Vm): Instr
    requires CanFetch(env, v)
  {
    env.m.functions[Last(v.frames).func].code[Last(v.frames).pc]
  }

  /** The machine after the fetch: `pc` advanced and a due collection done. */
  ghost function AfterFetch(env: Env, v: Vm): Vm
    requires CanFetch(env, v)
  {
    var pc := Last(v.frames).pc + 1;
    Safepoint(v.(frames := SetPc(v.frames, pc)), PollRoots(NextInstr(env, v), pc, v.vstack))
  }

  /** One trip around `run_loop`. */
  ghost function ExecStep(env: Env, v: Vm, id: nat, o: Oracle): Vm {
    if !CanFetch(env, v) then
      Stopped(v, if v.frames != [] && Last(v.frames).func < |env.m.functions| then Bug(PcOffEnd) else Panic(Corrupt))
    else
      var i, v1 := NextInstr(env, v), AfterFetch(env, v);
      if v1.phase.Halt? then v1
      else if i.CallNative? then NativeStep(env, v1, id, i.native, i.argc, o)
      else InstrStep(env, v1, id, i, o)
  }

  /** An instruction other than `call.native`, after what its fallback ran if it has one. */
  function InstrStep(env: Env, v: Vm, id: nat, i: Instr, o: Oracle): Vm
    requires v.frames != [] && !i.CallNative?
  {
    var w := AfterNested(env, v, id, i, o);
    if w.phase.Halt? then w else Absorb(w, id, Perform(env, i, v.vstack, v.frames, v.heap, o))
  }

  /** Load the fiber `Dequeue` just marked running. */
  function Resume(env: Env, v: Vm, id: nat, was: FiberState): Vm {
    match was
    case NotStarted(closure) =>
      var c := Fetch(v.heap, closure);
      if c.Found? && c.obj.ClosureObj? then
        match EnterFrame(v.vstack + c.obj.captures, env.m, c.obj.func, |c.obj.captures|)
        case Refused(t) => Stopped(v, t)
        case Entered(vs, frame) => v.(phase := Exec(id), vstack := vs, frames := [frame])
      else Stopped(v, WrongKind(c).trap)
    case Suspended(vstack, frames) =>
      if frames == [] then Stopped(v, Bug(EmptyStack))
      else v.(phase := Exec(id), vstack := vstack, frames := frames)
    case _ => Stopped(v, Bug(NotSchedulable))
  }

  /** The driver's choice when it is between fibers. */
  function PickStep(env: Env, v: Vm): Vm {
    var s := v.sched;
    if s.ready != [] then
      if s.ready[0] >= |s.fibers| then Stopped(v, Panic(Corrupt))
      else Resume(env, v.(sched := Dequeue(s)), s.ready[0], s.fibers[s.ready[0]].state)
    else if |s.poll| > 0 then v.(phase := Wait(PollWait))
    else if s.ioBlocked > 0 then v.(phase := Wait(IoWait))
    else if s.timers != [] then v.(phase := Wait(TimerWait))
    else if s.blocked != [] then Stopped(v, Bug(Deadlock))
    else v.(phase := Halt(Returned(Unit)))
  }

  /** A worker's completion, its value built on the VM thread. */
  function DeliverStep(v: Vm, id: nat, h: HeapState, value: Value): Vm {
    if id >= |v.sched.fibers| || !v.sched.fibers[id].pending || !v.sched.fibers[id].state.Suspended?
       || v.sched.fibers[id].state.vstack == [] || v.sched.ioBlocked == 0
    then Stopped(v, Panic(Corrupt))
    else v.(heap := h, sched := DeliverIo(v.sched, id, value), jobs := v.jobs - {id})
  }

  datatype Event =
    | DoInstr(o: Oracle)
    | DoPick
    | SocketReady(handle: int)
    | IoDone(id: nat, heap: HeapState, value: Value)
    | IoFault(id: nat)
    | Tick(now: int)

  ghost function Step(env: Env, v: Vm, e: Event): Vm {
    match e
    case DoInstr(o) => if v.phase.Exec? then ExecStep(env, v, v.phase.id, o) else v
    case DoPick => if v.phase.Pick? then PickStep(env, v) else v
    case SocketReady(h) => v.(sched := WakePoll(v.sched, h))
    case IoDone(id, h, value) => DeliverStep(v, id, h, value)
    case IoFault(_) => Stopped(v, OtherTrap)
    case Tick(now) => v.(phase := Pick, sched := WakeTimers(v.sched, now))
  }

  // ----- which transitions can happen -----

  /** The free list is exact and every stored handle is live. */
  ghost predicate HeapGood(h: HeapState) {
    && FreeListOk(h) && SlabClosed(h.slots) && AllLive(h.slots, h.globals)
    && (forall s :: s in h.intern ==> Live(h.slots, h.intern[s]))
  }

  /**
   Only allocation changed the byte account: a charge that reaches the threshold
   or the ceiling makes a collection due, and none was done.
   */
  predicate Charged(h: HeapState, h': HeapState) {
    && h'.nextGc == h.nextGc && h'.maxHeap == h.maxHeap && h'.paused == h.paused
    && (h.pending ==> h'.pending)
    && (h'.pending || h'.heapBytes == h.heapBytes || (h'.heapBytes < h.nextGc && h'.heapBytes < h.maxHeap))
  }

  /** Code outside the model frees nothing, fabricates no handles and allocates as the heap does. */
  ghost predicate HeapMoves(h: HeapState, h': HeapState, result: Value) {
    HeapGood(h') && KeepsLive(h.slots, h'.slots) && Live(h'.slots, result) && Charged(h, h')
  }

  /** Nested natives get live arguments, and foreign ones among them behave. */
  ghost predicate NestedEnabled(id: nat, calls: seq<NestedCall>, h: HeapState, s: Sched, log: seq<ChanCall>) {
    calls == [] ||
    (&& NestedEnabled(id, Init(calls), h, s, log)
     && var r, c := RunNested(id, Init(calls), h, s, log), Last(calls);
        r.NestedOk? ==>
          && AllLive(r.heap.slots, c.args)
          && (c.o.foreign.ForeignDone? ==> HeapMoves(r.heap, c.o.foreign.heap, c.o.foreign.ret)))
  }

  /** What the outside may do during instruction `i`: code outside the model behaves, nested code included. */
  ghost predicate OracleOk(env: Env, v: Vm, id: nat, i: Instr, o: Oracle) {
    && (FallsBack(env.m, i, v.vstack, v.heap) ==> NestedEnabled(id, o.nested, v.heap, v.sched, v.log))
    && (o.foreign.ForeignDone? && !AfterNested(env, v, id, i, o).phase.Halt? ==>
          HeapMoves(AfterNested(env, v, id, i, o).heap, o.foreign.heap, o.foreign.ret))
  }

  /**
   Events by phase.  Sockets, workers and timers are looked at only while the
   driver waits, and a completion is one of a job that is out.
   */
  ghost predicate Enabled(env: Env, v: Vm, e: Event) {
    match e
    case DoInstr(o) =>
      v.phase.Exec? && (CanFetch(env, v) ==> OracleOk(env, AfterFetch(env, v), v.phase.id, NextInstr(env, v), o))
    case DoPick => v.phase.Pick?
    case SocketReady(_) => v.phase == Wait(PollWait)
    case IoDone(id, h, value) =>
      (v.phase == Wait(PollWait) || v.phase == Wait(IoWait)) && id in v.jobs && HeapMoves(v.heap, h, value)
    case IoFault(id) => (v.phase == Wait(PollWait) || v.phase == Wait(IoWait)) && id in v.jobs
    case Tick(_) => v.phase.Wait?
  }

  /** `Vm::run`: the main fiber runs `func` over `args`, or the run ends at once. */
  function Start(env: Env, h: HeapState, func: nat, args: seq<Value>): Vm {
    var s := EMPTY_SCHED.(fibers := [Fiber(Running, false, false, None)]);
    var v := Vm(h, s, Exec(MAIN_FIBER), [], [], {}, []);
    match EnterFrame(args, env.m, func, |args|)
    case Refused(t) => Stopped(v, t)
    case Entered(vs, frame) => v.(vstack := vs, frames := [frame])
  }

  /** The state after a sequence of events. */
  ghost function After(env: Env, v: Vm, events: seq<Event>): Vm {
    if events == [] then v else Step(env, After(env, v, Init(events)), Last(events))
  }

  /** Every event was possible when it happened, and none after the end. */
  ghost predicate RunOf(env: Env, v: Vm, events: seq<Event>) {
    forall k :: 0 <= k < |events| ==>
                  !After(env, v, events[..k]).phase.Halt? && Enabled(env, After(env, v, events[..k]), events[k])
  }
}
