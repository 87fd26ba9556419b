/**
 Integer arithmetic of the interpreter against mathematics: what each arithmetic
 instruction leaves on the stack, stated without its definition
 (`runtime/src/interp/mod.rs`).
 */
module ArithLaws {
  import opened Values
  import opened Numbers
  import opened Heaps
  import opened Bytecode
  import opened Schedulers
  import opened Machine

  // ----- integers -----

  /** The multiple of 2^64 that wrapping adds. */
  function Laps(x: int): int { -((x + POW63) / POW64) }

  lemma WrapForm(x: int)
    ensures Wrap64(x) == x + Laps(x) * POW64
  {
  }

  lemma ShiftedModulo(y: int, k: int)
    requires 0 <= y + k * POW64 < POW64
    ensures y % POW64 == y + k * POW64
  {
    var q, r := y / POW64, y % POW64;
    assert y == q * POW64 + r;
    assert -POW64 < (q + k) * POW64 < POW64;
    assert q + k == 0;
  }

  /** Arithmetic wraps: the result is the one `i64` congruent to the exact result modulo 2^64. */
  lemma WrapIsCongruent(x: int, k: int)
    ensures Wrap64(x) == x + k * POW64 <==> -POW63 <= x + k * POW64 < POW63
    ensures exists j :: Wrap64(x) == x + j * POW64
  {
    WrapForm(x);
    if -POW63 <= x + k * POW64 < POW63 {
      ShiftedModulo(x + POW63, k);
    }
  }

  /** Division truncates toward zero and the remainder takes the dividend's sign. */
  lemma DivisionTruncates(a: int, b: int)
    requires b != 0
    ensures var q := TruncDiv(a, b);
            var r := a - b * q;
            && (a >= 0 ==> 0 <= r) && (a <= 0 ==> r <= 0)
            && (b > 0 ==> -b < r < b) && (b < 0 ==> b < r < -b)
  {
    if a < 0 {
      var n := -a;
      assert n == b * (n / b) + n % b;
      assert b * (-(n / b)) == -(b * (n / b));
    }
  }

  /** Quotient and remainder recombine, the overflowing quotient of the least integer included. */
  lemma DivModRecombine(a: i64, b: i64)
    requires b != 0
    ensures Wrap64(IntOp(DivI64, a, b) * b + IntOp(ModI64, a, b)) == a
  {
    var q := TruncDiv(a, b);
    var r := a - b * q;
    DivisionTruncates(a, b);
    QuotientRange(a, b);
    assert Wrap64(r) == r;
    if q < POW63 {
      assert Wrap64(q) == q;
      assert q * b + r == a;
    } else {
      assert a == -POW63 && b == -1;
    }
  }

  lemma FactorBound(b: int, q: int, n: int)
    requires b != 0 && -n <= b * q <= n
    ensures -n <= q <= n
    ensures b >= 2 || b <= -2 ==> -n <= 2 * q <= n
  {
    if q >= 0 {
      assert b >= 1 ==> b * q >= q;
      assert b <= -1 ==> b * q <= -q;
      assert b >= 2 ==> b * q >= 2 * q;
      assert b <= -2 ==> b * q <= -2 * q;
    } else {
      assert b >= 1 ==> b * q <= q;
      assert b <= -1 ==> b * q >= -q;
      assert b >= 2 ==> b * q <= 2 * q;
      assert b <= -2 ==> b * q >= -2 * q;
    }
  }

  lemma QuotientRange(a: i64, b: i64)
    requires b != 0
    ensures -POW63 <= TruncDiv(a, b) <= POW63
    ensures TruncDiv(a, b) == POW63 ==> a == -POW63 && b == -1
  {
    var q: int, n: int := TruncDiv(a, b), if a >= 0 then a else 0 - a;
    DivisionTruncates(a, b);
    hide TruncDiv;
    DivisorTimesQuotient(a, b, q);
    FactorBound(b, q, n);
  }

  /** The product of divisor and quotient lies between zero and the dividend. */
  lemma DivisorTimesQuotient(a: int, b: int, q: int)
    requires b != 0
    requires var r := a - b * q;
             && (a >= 0 ==> 0 <= r) && (a <= 0 ==> r <= 0) && (b > 0 ==> -b < r < b) && (b < 0 ==> b < r < -b)
    ensures a >= 0 ==> 0 <= b * q <= a
    ensures a <= 0 ==> a <= b * q <= 0
  {
    var m := b * q;
    if a >= 0 {
      assert b > 0 && q <= -1 ==> m <= -b;
      assert b < 0 && q >= 1 ==> m <= b;
      assert b > 0 && q >= 0 ==> m >= 0;
      assert b < 0 && q <= 0 ==> m >= 0;
    } else {
      assert b > 0 && q >= 1 ==> m >= b;
      assert b < 0 && q <= -1 ==> m >= -b;
      assert b > 0 && q <= 0 ==> m <= 0;
      assert b < 0 && q >= 0 ==> m <= 0;
    }
  }

  /** Subtraction undoes addition, and negation and complement undo themselves. */
  lemma ArithmeticUndone(a: i64, b: i64)
    ensures IntOp(SubI64, IntOp(AddI64, a, b), b) == a
    ensures IntNeg(NegI64, IntNeg(NegI64, a)) == a && IntNeg(BNotI64, IntNeg(BNotI64, a)) == a
    ensures IntNeg(NegI64, a) == Wrap64(IntNeg(BNotI64, a) + 1)
  {
    hide Wrap64;
    WrapForm(a + b);
    WrapIsCongruent(Wrap64(a + b) - b, -Laps(a + b));
    WrapForm(0 - a);
    WrapIsCongruent(0 - Wrap64(0 - a), Laps(0 - a));
    WrapIsCongruent(-1 - a, 0);
    WrapIsCongruent(a, 0);
  }

  // ----- the arithmetic instructions on the stack -----

  lemma ScalarIsData(m: Module, i: Instr)
    requires !ShapeOf(i).OnHeap?
    ensures !i.CallNative? && IsData(i) && Pops(m, i) == ShapeArity(ShapeOf(i))
  {
  }

  /** A scalar instruction takes its operands off the top and pushes one result. */
  lemma ScalarOnStack(env: Env, i: Instr, below: seq<Value>, args: seq<Value>,
                      frames: seq<Frame>, h: HeapState, o: Oracle)
    requires frames != [] && !ShapeOf(i).OnHeap? && |args| == ShapeArity(ShapeOf(i))
    ensures !i.CallNative?
    ensures Perform(env, i, below + args, frames, h, o)
         == match Scalar(env.alu, i, args)
            case Yields(v) => Go(below + [v], frames, h)
            case Faults(t) => Stop(t)
  {
    hide Scalar, HeapOp, ShapeOf, ShapeArity, Pops, IsData;
    var vs, n := below + args, |below|;
    ScalarIsData(env.m, i);
    assert vs[..n] == below && vs[n..] == args;
  }

  lemma ComputeOnStack(env: Env, i: Instr, below: seq<Value>, a: i64, b: i64,
                       frames: seq<Frame>, h: HeapState, o: Oracle)
    requires frames != [] && ShapeOf(i).IntsToInt?
    ensures !i.CallNative?
    ensures Perform(env, i, below + [Int(a), Int(b)], frames, h, o) == Go(below + [Int(IntOp(i, a, b))], frames, h)
  {
    hide Perform, IntOp, ShapeOf;
    ScalarOnStack(env, i, below, [Int(a), Int(b)], frames, h, o);
  }

  /** Addition, subtraction and multiplication push the `i64` that differs from the exact result by laps of 2^64. */
  lemma IntegerLaw(env: Env, i: Instr, below: seq<Value>, a: i64, b: i64, frames: seq<Frame>, h: HeapState, o: Oracle)
    returns (c: i64, laps: int)
    requires frames != [] && (i.AddI64? || i.SubI64? || i.MulI64?)
    ensures Perform(env, i, below + [Int(a), Int(b)], frames, h, o) == Go(below + [Int(c)], frames, h)
    ensures c == (if i.AddI64? then a + b else if i.SubI64? then a - b else a * b) + laps * POW64
  {
    var exact := if i.AddI64? then a + b else if i.SubI64? then a - b else a * b;
    ComputeOnStack(env, i, below, a, b, frames, h, o);
    c, laps := IntOp(i, a, b), Laps(exact);
    WrapForm(exact);
  }

  /** Negation wraps only for the least integer; the complement is one less than the negation. */
  lemma NegationLaw(env: Env, below: seq<Value>, a: i64, frames: seq<Frame>, h: HeapState, o: Oracle)
    returns (c: i64, d: i64)
    requires frames != []
    ensures Perform(env, NegI64, below + [Int(a)], frames, h, o) == Go(below + [Int(c)], frames, h)
    ensures Perform(env, BNotI64, below + [Int(a)], frames, h, o) == Go(below + [Int(d)], frames, h)
    ensures c == (if a == -POW63 then a else 0 - a) && d + a == -1
  {
    ScalarOnStack(env, NegI64, below, [Int(a)], frames, h, o);
    ScalarOnStack(env, BNotI64, below, [Int(a)], frames, h, o);
    c, d := IntNeg(NegI64, a), IntNeg(BNotI64, a);
    WrapIsCongruent(0 - a, if a == -POW63 then -1 else 0);
    WrapIsCongruent(-1 - a, 0);
  }

  /**
   Division by zero traps.  Otherwise quotient and remainder recombine exactly, the
   remainder is smaller than the divisor and has the dividend's sign; the one
   quotient out of range wraps.
   */
  lemma DivisionLaw(env: Env, below: seq<Value>, a: i64, b: i64, frames: seq<Frame>, h: HeapState, o: Oracle)
    returns (q: i64, r: i64)
    requires frames != []
    ensures var div := Perform(env, DivI64, below + [Int(a), Int(b)], frames, h, o);
            var mod := Perform(env, ModI64, below + [Int(a), Int(b)], frames, h, o);
            if b == 0 then div == mod == Stop(DivByZero)
            else
              && div == Go(below + [Int(q)], frames, h) && mod == Go(below + [Int(r)], frames, h)
              && (if a == -POW63 && b == -1 then q == a && r == 0 else a == b * q + r)
              && (a >= 0 ==> 0 <= r) && (a <= 0 ==> r <= 0) && (if b > 0 then -b < r < b else b < r < 0 - b)
  {
    ScalarOnStack(env, DivI64, below, [Int(a), Int(b)], frames, h, o);
    ScalarOnStack(env, ModI64, below, [Int(a), Int(b)], frames, h, o);
    q, r := IntOp(DivI64, a, b), IntOp(ModI64, a, b);
    if b != 0 {
      DivisionTruncates(a, b);
      QuotientRange(a, b);
      WrapIsCongruent(TruncDiv(a, b), 0);
      WrapIsCongruent(a - b * TruncDiv(a, b), 0);
    }
  }

  lemma CompareOnStack(env: Env, i: Instr, below: seq<Value>, a: i64, b: i64,
                       frames: seq<Frame>, h: HeapState, o: Oracle)
    requires frames != [] && ShapeOf(i).IntsToBool?
    ensures !i.CallNative?
    ensures Perform(env, i, below + [Int(a), Int(b)], frames, h, o) == Go(below + [Bool(IntCmp(i, a, b))], frames, h)
  {
    hide Perform, IntCmp, ShapeOf;
    ScalarOnStack(env, i, below, [Int(a), Int(b)], frames, h, o);
  }

  /** Comparisons push the truth of the order of the operands as they were pushed. */
  lemma ComparisonLaw(env: Env, below: seq<Value>, a: i64, b: i64, frames: seq<Frame>, h: HeapState, o: Oracle)
    requires frames != []
    ensures Perform(env, LtI64, below + [Int(a), Int(b)], frames, h, o) == Go(below + [Bool(a < b)], frames, h)
    ensures Perform(env, GtI64, below + [Int(a), Int(b)], frames, h, o)
         == Perform(env, LtI64, below + [Int(b), Int(a)], frames, h, o)
    ensures Perform(env, LeI64, below + [Int(a), Int(b)], frames, h, o) == Go(below + [Bool(!(b < a))], frames, h)
    ensures Perform(env, GeI64, below + [Int(a), Int(b)], frames, h, o) == Go(below + [Bool(!(a < b))], frames, h)
    ensures Perform(env, EqI64, below + [Int(a), Int(b)], frames, h, o) == Go(below + [Bool(a == b)], frames, h)
    ensures Perform(env, NeI64, below + [Int(a), Int(b)], frames, h, o) == Go(below + [Bool(a != b)], frames, h)
  {
    hide Perform;
    CompareOnStack(env, LtI64, below, a, b, frames, h, o);
    CompareOnStack(env, LtI64, below, b, a, frames, h, o);
    CompareOnStack(env, GtI64, below, a, b, frames, h, o);
    CompareOnStack(env, LeI64, below, a, b, frames, h, o);
    CompareOnStack(env, GeI64, below, a, b, frames, h, o);
    CompareOnStack(env, EqI64, below, a, b, frames, h, o);
    CompareOnStack(env, NeI64, below, a, b, frames, h, o);
  }

  /** Instructions on two numbers. */
  predicate OnInts(i: Instr) {
    || i.AddI64? || i.SubI64? || i.MulI64? || i.DivI64? || i.ModI64? || i.AndI64? || i.OrI64? || i.XorI64?
    || i.ShlI64? || i.ShrI64? || i.UShrI64? || i.EqI64? || i.NeI64? || i.LtI64? || i.LeI64? || i.GtI64? || i.GeI64?
  }

  predicate OnFloats(i: Instr) {
    || i.AddF64? || i.SubF64? || i.MulF64? || i.DivF64?
    || i.EqF64? || i.NeF64? || i.LtF64? || i.LeF64? || i.GtF64? || i.GeF64?
  }

  lemma BinaryShapes(i: Instr)
    ensures OnInts(i) ==>
              && !i.CallNative? && (ShapeOf(i).IntsToInt? || ShapeOf(i).Divide? || ShapeOf(i).IntsToBool?)
              && (ShapeOf(i).Divide? <==> i.DivI64? || i.ModI64?)
    ensures OnFloats(i) ==>
              && !i.CallNative? && !OnInts(i) && !i.DivI64? && !i.ModI64?
              && (ShapeOf(i).FloatsToFloat? || ShapeOf(i).FloatsToBool?)
              && (ShapeOf(i).FloatsToFloat? <==> i.AddF64? || i.SubF64? || i.MulF64? || i.DivF64?)
  {
  }

  /** A binary instruction faults on operands of the wrong kind, and only then or on a zero divisor. */
  lemma OperandKinds(env: Env, i: Instr, below: seq<Value>, x: Value, y: Value,
                     frames: seq<Frame>, h: HeapState, o: Oracle)
    requires frames != [] && (OnInts(i) || OnFloats(i))
    ensures !i.CallNative?
    ensures var e := Perform(env, i, below + [x, y], frames, h, o);
            && (e == Stop(TypeError) <==> if OnInts(i) then !(x.Int? && y.Int?) else !(x.Double? && y.Double?))
            && (e == Stop(DivByZero) <==> (i.DivI64? || i.ModI64?) && x.Int? && y == Int(0))
            && (e.Go? || e == Stop(TypeError) || e == Stop(DivByZero))
  {
    hide Perform, IntOp, IntCmp, ShapeOf, OnInts, OnFloats;
    BinaryShapes(i);
    ScalarOnStack(env, i, below, [x, y], frames, h, o);
  }

  /** Floating-point instructions hand both operands, in order, to the operation they name. */
  lemma FloatLaw(env: Env, i: Instr, below: seq<Value>, x: u64, y: u64, frames: seq<Frame>, h: HeapState, o: Oracle)
    requires frames != [] && OnFloats(i)
    ensures !i.CallNative?
    ensures var e := Perform(env, i, below + [Double(x), Double(y)], frames, h, o);
            if i.AddF64? || i.SubF64? || i.MulF64? || i.DivF64?
            then e == Go(below + [Double(env.alu.float2(i, x, y))], frames, h)
            else e == Go(below + [Bool(env.alu.floatCmp(i, x, y))], frames, h)
  {
    hide Perform, ShapeOf, OnInts, OnFloats;
    BinaryShapes(i);
    ScalarOnStack(env, i, below, [Double(x), Double(y)], frames, h, o);
  }

  /** Constants push themselves. */
  lemma ConstantLaw(env: Env, below: seq<Value>, n: i64, x: u64, b: bool, frames: seq<Frame>, h: HeapState, o: Oracle)
    requires frames != []
    ensures Perform(env, ConstInt(n), below, frames, h, o) == Go(below + [Int(n)], frames, h)
    ensures Perform(env, ConstDouble(x), below, frames, h, o) == Go(below + [Double(x)], frames, h)
    ensures Perform(env, ConstBool(b), below, frames, h, o) == Go(below + [Bool(b)], frames, h)
    ensures Perform(env, ConstUnit, below, frames, h, o) == Go(below + [Unit], frames, h)
  {
    hide Perform;
    assert below + [] == below;
    ScalarOnStack(env, ConstInt(n), below, [], frames, h, o);
    ScalarOnStack(env, ConstDouble(x), below, [], frames, h, o);
    ScalarOnStack(env, ConstBool(b), below, [], frames, h, o);
    ScalarOnStack(env, ConstUnit, below, [], frames, h, o);
  }

  /** `not` negates; conversions and float negation hand their operand to the operation. */
  lemma UnaryLaw(env: Env, below: seq<Value>, n: i64, x: u64, b: bool, frames: seq<Frame>, h: HeapState, o: Oracle)
    requires frames != []
    ensures Perform(env, Not, below + [Bool(b)], frames, h, o) == Go(below + [Bool(!b)], frames, h)
    ensures Perform(env, I64ToF64, below + [Int(n)], frames, h, o)
         == Go(below + [Double(env.alu.toFloat(n))], frames, h)
    ensures Perform(env, F64ToI64, below + [Double(x)], frames, h, o)
         == Go(below + [Int(env.alu.toInt(x))], frames, h)
    ensures Perform(env, NegF64, below + [Double(x)], frames, h, o)
         == Go(below + [Double(env.alu.floatNeg(x))], frames, h)
  {
    hide Perform;
    ScalarOnStack(env, Not, below, [Bool(b)], frames, h, o);
    ScalarOnStack(env, I64ToF64, below, [Int(n)], frames, h, o);
    ScalarOnStack(env, F64ToI64, below, [Double(x)], frames, h, o);
    ScalarOnStack(env, NegF64, below, [Double(x)], frames, h, o);
  }

  // ----- bits and shifts -----

  /** Bit `k` of the two's-complement form of `x`. */
  predicate Bit(x: int, k: nat) {
    Pow2Positive(k);
    x / Pow2(k) % 2 == 1
  }

  lemma HalfThenShift(x: int, k: nat)
    ensures Pow2(k) >= 1 && x / 2 / Pow2(k) == x / Pow2(k + 1)
  {
    Pow2Positive(k);
    var p, q := Pow2(k), x / 2 / Pow2(k);
    assert Pow2(k + 1) == 2 * p;
    QuotientBounds(x, 2, x / 2);
    QuotientBounds(x / 2, p, q);
    assert q * (2 * p) <= x < (q + 1) * (2 * p);
    QuotientUnique(x, 2 * p, q);
  }

  lemma QuotientBounds(x: int, d: int, q: int)
    requires d > 0 && q == x / d
    ensures q * d <= x < (q + 1) * d
  {
  }

  lemma QuotientUnique(x: int, d: int, q: int)
    requires d > 0 && q * d <= x < (q + 1) * d
    ensures x / d == q
  {
    var t := x / d;
    QuotientBounds(x, d, t);
    assert t < q ==> (t + 1) * d <= q * d;
    assert t > q ==> (q + 1) * d <= t * d;
  }

  lemma BitOfDouble(x: int, bit: bool, k: nat)
    ensures Bit(2 * x + (if bit then 1 else 0), k) == if k == 0 then bit else Bit(x, k - 1)
  {
    var y := 2 * x + (if bit then 1 else 0);
    if k == 0 {
      assert Pow2(0) == 1;
    } else {
      HalfThenShift(y, k - 1);
      assert y / 2 == x;
    }
  }

  lemma SignBits(k: nat)
    ensures Bit(-1, k) && !Bit(0, k)
  {
    Pow2Positive(k);
    QuotientUnique(-1, Pow2(k), -1);
    QuotientUnique(0, Pow2(k), 0);
  }

  /** A bitwise operation acts on each bit alone. */
  lemma {:induction false} BitwiseBits(i: Instr, a: int, b: int, n: nat, k: nat)
    requires Fits(a, n) && Fits(b, n)
    ensures Bit(Bitwise(i, a, b, n), k) == BitOp(i, Bit(a, k), Bit(b, k))
    decreases n
  {
    hide Bit;
    if n == 0 {
      SignBits(k);
      assert Pow2(0) == 1;
    } else {
      BitOfDouble(a / 2, a % 2 == 1, k);
      BitOfDouble(b / 2, b % 2 == 1, k);
      assert a == 2 * (a / 2) + a % 2 && b == 2 * (b / 2) + b % 2;
      BitOfDouble(Bitwise(i, a / 2, b / 2, n - 1), BitOp(i, a % 2 == 1, b % 2 == 1), k);
      assert Pow2(n) == 2 * Pow2(n - 1);
      if k > 0 {
        BitwiseBits(i, a / 2, b / 2, n - 1, k - 1);
      }
    }
  }

  /** `and`, `or` and `xor` push the integer whose every bit combines the operands' bits. */
  lemma BitwiseLaw(env: Env, i: Instr, below: seq<Value>, a: i64, b: i64, k: nat,
                   frames: seq<Frame>, h: HeapState, o: Oracle)
    returns (x: i64)
    requires frames != [] && (i.AndI64? || i.OrI64? || i.XorI64?)
    ensures Perform(env, i, below + [Int(a), Int(b)], frames, h, o) == Go(below + [Int(x)], frames, h)
    ensures i.AndI64? ==> Bit(x, k) == (Bit(a, k) && Bit(b, k))
    ensures i.OrI64? ==> Bit(x, k) == (Bit(a, k) || Bit(b, k))
    ensures i.XorI64? ==> Bit(x, k) == (Bit(a, k) != Bit(b, k))
  {
    hide Perform, Bit, Bitwise, Scalar, IntOp, ShapeOf;
    BitwiseForm(i, a, b);
    ComputeOnStack(env, i, below, a, b, frames, h, o);
    x := IntOp(i, a, b);
    AllFit(a);
    AllFit(b);
    BitwiseBits(i, a, b, 63, k);
  }

  lemma BitwiseForm(i: Instr, a: i64, b: i64)
    requires i.AndI64? || i.OrI64? || i.XorI64?
    ensures ShapeOf(i).IntsToInt? && IntOp(i, a, b) == Bitwise(i, a, b, 63)
  {
    hide Bitwise, Pow2, Wrap64, TruncDiv, Fits;
    if i.AndI64? {
      assert i == AndI64;
    } else if i.OrI64? {
      assert i == OrI64;
    } else {
      assert i == XorI64;
    }
  }

  lemma AllFit(a: i64)
    ensures Fits(a, 63)
  {
    Pow2Values();
  }

  /** Distinct `i64`s differ in one of their 64 bits, so the bits determine the result. */
  lemma {:induction false} BitsDetermine(a: int, b: int, n: nat) returns (k: nat)
    requires Fits(a, n) && Fits(b, n) && a != b
    ensures k <= n && Bit(a, k) != Bit(b, k)
    decreases n
  {
    if n == 0 {
      k := 0;
      assert Pow2(0) == 1;
      SignBits(0);
    } else {
      hide Bit;
      BitOfDouble(a / 2, a % 2 == 1, 0);
      BitOfDouble(b / 2, b % 2 == 1, 0);
      assert a == 2 * (a / 2) + a % 2 && b == 2 * (b / 2) + b % 2;
      if a % 2 != b % 2 {
        k := 0;
      } else {
        assert Pow2(n) == 2 * Pow2(n - 1);
        var j := BitsDetermine(a / 2, b / 2, n - 1);
        BitOfDouble(a / 2, a % 2 == 1, j + 1);
        BitOfDouble(b / 2, b % 2 == 1, j + 1);
        k := j + 1;
      }
    }
  }

  /**
   Shift amounts count modulo 64.  Left shifts multiply by the power of two and
   wrap; right shifts round the quotient down, of the signed operand or of its
   unsigned reading `u`.
   */
  lemma ShiftLaw(env: Env, below: seq<Value>, a: i64, b: i64, frames: seq<Frame>, h: HeapState, o: Oracle)
    returns (x: i64, y: i64, z: i64, laps: int, u: u64, p: int)
    requires frames != []
    ensures Perform(env, ShlI64, below + [Int(a), Int(b)], frames, h, o) == Go(below + [Int(x)], frames, h)
    ensures Perform(env, ShrI64, below + [Int(a), Int(b)], frames, h, o) == Go(below + [Int(y)], frames, h)
    ensures Perform(env, UShrI64, below + [Int(a), Int(b)], frames, h, o) == Go(below + [Int(z)], frames, h)
    ensures p == Pow2(b % 64) && (u == a || u == a + POW64)
    ensures x == a * p + laps * POW64 && y * p <= a < (y + 1) * p
    ensures b % 64 == 0 ==> z == a
    ensures b % 64 != 0 ==> z * p <= u < (z + 1) * p
  {
    hide Perform, Scalar, Wrap64, Pow2, Laps;
    ComputeOnStack(env, ShlI64, below, a, b, frames, h, o);
    ComputeOnStack(env, ShrI64, below, a, b, frames, h, o);
    ComputeOnStack(env, UShrI64, below, a, b, frames, h, o);
    x, y, z := IntOp(ShlI64, a, b), IntOp(ShrI64, a, b), IntOp(UShrI64, a, b);
    p, u := Pow2(b % 64), a % POW64;
    laps := Laps(a * p);
    WrapForm(a * p);
    Pow2Positive(b % 64);
    ShiftedDown(a, u, b % 64);
  }

  lemma ShiftedDown(a: i64, u: u64, k: nat)
    requires u == a % POW64
    ensures Pow2(k) >= 1 && (u == a || u == a + POW64)
    ensures var y := Wrap64(a / Pow2(k)); y * Pow2(k) <= a < (y + 1) * Pow2(k)
    ensures k == 0 ==> Wrap64(u / Pow2(k)) == a
    ensures k > 0 ==> var z := Wrap64(u / Pow2(k)); z * Pow2(k) <= u < (z + 1) * Pow2(k)
  {
    Pow2Positive(k);
    var p := Pow2(k);
    QuotientBounds(a, p, a / p);
    QuotientBounds(u, p, u / p);
    QuotientNear(a, p);
    WrapIsCongruent(a / p, 0);
    if k > 0 {
      Pow2Positive(k - 1);
      assert p >= 2;
      QuotientHalved(u, p);
      WrapIsCongruent(u / p, 0);
    } else {
      assert p == 1 && u / p == u;
      WrapIsCongruent(u, if u == a then 0 else -1);
    }
  }

  lemma QuotientNear(a: i64, p: int)
    requires p >= 1
    ensures -POW63 <= a / p < POW63
  {
    var q := a / p;
    QuotientBounds(a, p, q);
    assert q >= POW63 ==> q * p >= q;
    assert q < -POW63 ==> (q + 1) * p <= q + 1;
  }

  lemma QuotientHalved(u: u64, p: int)
    requires p >= 2
    ensures 0 <= u / p < POW63
  {
    var q := u / p;
    QuotientBounds(u, p, q);
    assert q >= POW63 ==> q * p >= q * 2;
    assert q < 0 ==> (q + 1) * p <= 0;
  }
}
