/**
 Byte-level primitives of the bytecode format (`runtime/src/serialize.rs`):
 LEB128 varints, fixed little-endian fields, length-prefixed bytes and text.

 Shifts and masks are written as arithmetic: `v & 0x7f` is `v % 128`, an
 arithmetic shift by seven is a floor division by 128, and an `|` of disjoint
 bits is an addition.  Left shifts are cut to 64 bits as in the source.
 */
module Wire {
  import opened Values
  import opened Numbers

  datatype DecodeError =
    | UnexpectedEof | VarintOverflow | InvalidUtf8 | BadMagic | UnsupportedVersion(version: nat)
    | UnknownOpcode(op: u8) | ConstIndexOutOfRange | UnknownNative(name: Text)

  /** A value and the bytes after it, or why there is none. */
  datatype Parsed<+T> = Ok(value: T, rest: seq<u8>) | Err(error: DecodeError) {
    predicate IsFailure() { Err? }
    function PropagateFailure<U>(): Parsed<U>
      requires Err?
    {
      Err(error)
    }
    function Extract(): (T, seq<u8>)
      requires Ok?
    {
      (value, rest)
    }
  }

  /** The answer of a decoder that does not hand on a position. */
  datatype Result<+T> = Success(value: T) | Failure(error: DecodeError) {
    predicate IsFailure() { Failure? }
    function PropagateFailure<U>(): Result<U>
      requires Failure?
    {
      Failure(error)
    }
    function Extract(): T
      requires Success?
    {
      value
    }
  }

  // ----- unsigned LEB128 -----

  function EncU(v: nat): seq<u8> {
    if v < 128 then [v] else [128 + v % 128] + EncU(v / 128)
  }

  lemma EncUUnfold(v: nat)
    ensures EncU(v) == if v / 128 == 0 then [v % 128] else [128 + v % 128] + EncU(v / 128)
    ensures v / 128 != 0 ==> v / 128 < v
  {
  }

  /** `(b & 0x7f) << shift`, cut to 64 bits. */
  function Shifted(b: u8, shift: nat): nat { ((b % 128) * Pow2(shift)) % POW64 }

  function DecUFrom(bs: seq<u8>, acc: nat, shift: nat): (r: Parsed<nat>)
    ensures r.Ok? ==> |r.rest| < |bs|
  {
    if bs == [] then Err(UnexpectedEof)
    else if shift >= 64 then Err(VarintOverflow)
    else
      var acc' := acc + Shifted(bs[0], shift);
      if bs[0] < 128 then Ok(acc', bs[1..]) else DecUFrom(bs[1..], acc', shift + 7)
  }

  function DecU(bs: seq<u8>): Parsed<nat> { DecUFrom(bs, 0, 0) }

  /** A product that fits in 64 bits is not cut. */
  lemma ShiftFits(b: u8, shift: nat, v: nat)
    requires b % 128 <= v && v * Pow2(shift) < POW64
    ensures Shifted(b, shift) == (b % 128) * Pow2(shift)
  {
    MulMonotone(b % 128, v, Pow2(shift));
  }

  lemma MulMonotone(a: nat, b: nat, p: nat)
    requires a <= b
    ensures a * p <= b * p
  {
  }

  /** Splitting off the low seven bits. */
  lemma SplitSeven(v: int, p: nat)
    ensures v * p == (v % 128) * p + (v / 128) * (128 * p)
  {
    assert v == 128 * (v / 128) + v % 128;
    assert (128 * (v / 128)) * p == (v / 128) * (128 * p);
  }

  /** Decoding resumes where the encoder is: the value so far plus what `v` adds at `shift`. */
  lemma {:induction false} DecUTail(v: nat, acc: nat, shift: nat, rest: seq<u8>)
    requires shift < 64 && v * Pow2(shift) < POW64
    ensures DecUFrom(EncU(v) + rest, acc, shift) == Ok(acc + v * Pow2(shift), rest)
    decreases v
  {
    var p, bs := Pow2(shift), EncU(v) + rest;
    ShiftFits(bs[0], shift, v);
    if v < 128 {
      assert bs[1..] == rest;
    } else {
      assert bs[1..] == EncU(v / 128) + rest;
      SplitSeven(v, p);
      Pow2Plus7(shift);
      MulMonotone(128, v, p);
      ShiftRoom(shift);
      DecUTail(v / 128, acc + (v % 128) * p, shift + 7, rest);
    }
  }

  /** If another group of seven bits still fits, the shift has not run out. */
  lemma ShiftRoom(shift: nat)
    requires Pow2(shift + 7) < POW64
    ensures shift + 7 < 64
  {
    Pow2Values();
    if shift + 7 >= 64 {
      Pow2Monotone(64, shift + 7);
    }
  }

  /** Every `u64` is read back from its encoding, whatever bytes follow. */
  lemma UvarintRoundTrip(v: nat, rest: seq<u8>)
    requires v < POW64
    ensures DecU(EncU(v) + rest) == Ok(v, rest)
  {
    assert Pow2(0) == 1;
    DecUTail(v, 0, 0, rest);
  }

  lemma {:induction false} EncULength(v: nat, n: nat)
    requires n >= 1 && v < Pow2(7 * n)
    ensures 1 <= |EncU(v)| <= n
    decreases n
  {
    if v < 128 {
    } else {
      if n == 1 {
        Pow2Values();
      } else {
        Pow2Plus7(7 * (n - 1));
        EncULength(v / 128, n - 1);
      }
    }
  }

  lemma UvarintAtMostTen(v: nat)
    requires v < POW64
    ensures 1 <= |EncU(v)| <= 10
  {
    Pow2Values();
    Pow2Monotone(64, 70);
    EncULength(v, 10);
  }

  /** The unsigned form is the shortest: one byte fewer could not hold the number. */
  lemma {:induction false} UvarintShortest(v: nat)
    ensures |EncU(v)| > 1 ==> v >= Pow2(7 * (|EncU(v)| - 1))
  {
    if v < 128 {
    } else {
      var w := v / 128;
      UvarintShortest(w);
      assert |EncU(v)| == |EncU(w)| + 1;
      Pow2Plus7(7 * (|EncU(w)| - 1));
      assert Pow2(0) == 1;
    }
  }

  // ----- signed LEB128 -----

  /** The last group: the rest is all sign bits. */
  predicate LastGroup(v: int) {
    (v / 128 == 0 && v % 128 < 64) || (v / 128 == -1 && v % 128 >= 64)
  }

  function EncI(v: int): seq<u8>
    decreases Magnitude(v)
  {
    if LastGroup(v) then [v % 128] else [128 + v % 128] + EncI(v / 128)
  }

  /** Size of a signed number: what every shift by seven makes smaller until the last group. */
  function Magnitude(v: int): nat { if v >= 0 then v else -1 - v }

  lemma EncIUnfold(v: int)
    ensures EncI(v) == if LastGroup(v) then [v % 128] else [128 + v % 128] + EncI(v / 128)
    ensures !LastGroup(v) ==> Magnitude(v / 128) < Magnitude(v)
  {
  }

  /** Two's complement reading of the low 64 bits. */
  function ToSigned(p: int): i64 {
    var q := p % POW64;
    if q >= POW63 then q - POW64 else q
  }

  function DecIFrom(bs: seq<u8>, acc: nat, shift: nat): Parsed<i64> {
    if bs == [] then Err(UnexpectedEof)
    else if shift >= 64 then Err(VarintOverflow)
    else
      var acc' := acc + Shifted(bs[0], shift);
      if bs[0] >= 128 then DecIFrom(bs[1..], acc', shift + 7)
      else
        var extend := if shift + 7 < 64 && bs[0] >= 64 then POW64 - Pow2(shift + 7) else 0;
        Ok(ToSigned(acc' + extend), bs[1..])
  }

  function DecI(bs: seq<u8>): Parsed<i64> { DecIFrom(bs, 0, 0) }

  lemma ToSignedRange(v: int)
    requires -POW63 <= v < POW63
    ensures ToSigned(v) == v && ToSigned(v + POW64) == v
  {
  }

  lemma NotLastIsLarge(v: int, acc: nat, p: nat)
    requires acc < p && !LastGroup(v)
    ensures acc + v * p >= 64 * p || acc + v * p < -64 * p
  {
    if v >= 64 {
      assert v * p >= 64 * p;
    } else {
      assert v <= -65;
      assert v * p <= -65 * p;
    }
  }

  /** While a group is not the last, the next shift stays below 64. */
  lemma SignedRoom(v: int, acc: nat, shift: nat)
    requires acc < Pow2(shift) && -POW63 <= acc + v * Pow2(shift) < POW63 && !LastGroup(v)
    ensures shift + 7 < 64 && 128 * Pow2(shift) <= POW63
  {
    NotLastIsLarge(v, acc, Pow2(shift));
    Pow2Plus7(shift);
    Pow2Values();
    HalfRoom(shift);
  }

  lemma HalfRoom(shift: nat)
    requires Pow2(shift + 7) < POW64
    ensures shift + 7 < 64 && Pow2(shift + 7) <= POW63
  {
    Pow2Values();
    ShiftRoom(shift);
    Pow2Monotone(shift + 7, 63);
  }

  lemma LastPositive(v: int, acc: nat, shift: nat, rest: seq<u8>)
    requires shift < 64 && acc < Pow2(shift) && acc + v * Pow2(shift) < POW63 && 0 <= v < 64
    ensures DecIFrom([v] + rest, acc, shift) == Ok(acc + v * Pow2(shift), rest)
  {
    ShiftFits(v, shift, v);
    assert ([v] + rest)[1..] == rest;
    ToSignedRange(acc + v * Pow2(shift));
    hide ToSigned, Pow2, Shifted;
  }

  /** At shift 63 only the sign bit is left. */
  lemma TopNegative(v: int, acc: nat)
    requires acc < POW63 && -POW63 <= acc + v * POW63 && v < 0
    ensures v == -1 && (127 * POW63) % POW64 == POW63
  {
  }

  lemma LastNegative(v: int, acc: nat, shift: nat, rest: seq<u8>)
    requires shift < 64 && shift % 7 == 0 && acc < Pow2(shift)
    requires -POW63 <= acc + v * Pow2(shift) && -64 <= v < 0
    ensures DecIFrom([v + 128] + rest, acc, shift) == Ok(acc + v * Pow2(shift), rest)
  {
    hide Pow2, ToSigned;
    var p, bs := Pow2(shift), [v + 128] + rest;
    assert bs[1..] == rest;
    Pow2Values();
    assert v * p + p <= 0;
    ToSignedRange(acc + v * p);
    if shift + 7 < 64 {
      assert (v + 128) * p == v * p + 128 * p;
      Pow2Plus7(shift);
      Pow2Monotone(shift + 7, 63);
      ShiftFits(v + 128, shift, v + 128);
    } else {
      assert shift == 63;
      TopNegative(v, acc);
    }
  }

  lemma {:induction false} DecITail(v: int, acc: nat, shift: nat, rest: seq<u8>)
    requires shift < 64 && shift % 7 == 0 && acc < Pow2(shift)
    requires -POW63 <= acc + v * Pow2(shift) < POW63
    ensures DecIFrom(EncI(v) + rest, acc, shift) == Ok(acc + v * Pow2(shift), rest)
    decreases Magnitude(v)
  {
    hide Pow2, DecIFrom;
    if LastGroup(v) {
      if v >= 0 {
        LastPositive(v, acc, shift, rest);
      } else {
        LastNegative(v, acc, shift, rest);
      }
    } else {
      var b := v % 128;
      SignedRoom(v, acc, shift);
      SignedGroup(v, acc, shift);
      DecITail(v / 128, acc + b * Pow2(shift), shift + 7, rest);
      DecIMore(b, EncI(v / 128) + rest, acc, shift);
      assert EncI(v) + rest == [128 + b] + (EncI(v / 128) + rest);
    }
  }

  /** One group read: what is left of the value moves seven places up. */
  lemma SignedGroup(v: int, acc: nat, shift: nat)
    requires acc < Pow2(shift)
    ensures acc + (v % 128) * Pow2(shift) < Pow2(shift + 7)
    ensures acc + v * Pow2(shift) == acc + (v % 128) * Pow2(shift) + (v / 128) * Pow2(shift + 7)
  {
    Pow2Plus7(shift);
    SplitSeven(v, Pow2(shift));
    MulMonotone(v % 128, 127, Pow2(shift));
  }

  lemma DecIMore(b: nat, tail: seq<u8>, acc: nat, shift: nat)
    requires b < 128 && shift + 7 < 64 && 128 * Pow2(shift) <= POW63
    ensures DecIFrom([128 + b] + tail, acc, shift) == DecIFrom(tail, acc + b * Pow2(shift), shift + 7)
  {
    hide ToSigned, Pow2;
    ShiftFits(128 + b, shift, 127);
    assert ([128 + b] + tail)[1..] == tail;
  }

  /** Every `i64` is read back from its encoding, both extremes included. */
  lemma IvarintRoundTrip(v: int, rest: seq<u8>)
    requires -POW63 <= v < POW63
    ensures DecI(EncI(v) + rest) == Ok(v, rest)
  {
    assert Pow2(0) == 1;
    DecITail(v, 0, 0, rest);
  }

  lemma {:induction false} EncILength(v: int, n: nat)
    requires n >= 1 && -64 * Pow2(7 * (n - 1)) <= v < 64 * Pow2(7 * (n - 1))
    ensures 1 <= |EncI(v)| <= n
    decreases n
  {
    assert Pow2(0) == 1;
    if LastGroup(v) {
    } else {
      Pow2Plus7(7 * (n - 2));
      EncILength(v / 128, n - 1);
    }
  }

  lemma IvarintAtMostTen(v: int)
    requires -POW63 <= v < POW63
    ensures 1 <= |EncI(v)| <= 10
  {
    Pow2Values();
    EncILength(v, 10);
  }

  // ----- what the unsigned reader makes of any input -----

  /** Number of leading bytes with the continuation bit. */
  function Continuations(bs: seq<u8>): nat {
    if bs == [] || bs[0] < 128 then 0 else 1 + Continuations(bs[1..])
  }

  /** Sum of the seven-bit groups, least significant first. */
  function GroupSum(bs: seq<u8>): nat {
    if bs == [] then 0 else bs[0] % 128 + 128 * GroupSum(bs[1..])
  }

  lemma {:induction false} ContinuationsBound(bs: seq<u8>)
    ensures Continuations(bs) <= |bs|
    ensures Continuations(bs) < |bs| ==> bs[Continuations(bs)] < 128
  {
    if bs == [] || bs[0] < 128 {
    } else {
      ContinuationsBound(bs[1..]);
    }
  }

  lemma {:induction false} DecUShape(bs: seq<u8>, acc: nat, k: nat)
    requires k <= 10
    ensures var r, n := DecUFrom(bs, acc, 7 * k), Continuations(bs);
            && (n == |bs| && |bs| <= 10 - k ==> r == Err(UnexpectedEof))
            && (n >= 10 - k && |bs| > 10 - k ==> r == Err(VarintOverflow))
            && (n < |bs| && n < 10 - k ==> r.Ok? && r.rest == bs[n + 1..])
  {
    ContinuationsBound(bs);
    if bs == [] || k == 10 {
    } else {
      if bs[0] >= 128 {
        DecUShape(bs[1..], acc + Shifted(bs[0], 7 * k), k + 1);
        assert Continuations(bs) < |bs| ==> bs[1..][Continuations(bs)..] == bs[Continuations(bs) + 1..];
      } else {
        assert bs[1..] == bs[0 + 1..];
      }
    }
  }

  lemma SmallMod(x: nat)
    requires x < POW64
    ensures x % POW64 == x
  {
  }

  lemma TopGroup(g: nat, acc: nat)
    requires acc < POW63
    ensures acc + (g * POW63) % POW64 == (acc + POW63 * g) % POW64
  {
    assert g * POW63 == (g / 2) * POW64 + (g % 2) * POW63;
    assert (g * POW63) % POW64 == (g % 2) * POW63;
  }

  /** A group below the tenth is added uncut and leaves room for the next. */
  lemma GroupFits(b: u8, acc: nat, k: nat)
    requires k <= 8 && acc < Pow2(7 * k)
    ensures Shifted(b, 7 * k) == (b % 128) * Pow2(7 * k)
    ensures Pow2(7 * (k + 1)) == 128 * Pow2(7 * k) <= POW63
    ensures acc + (b % 128) * Pow2(7 * k) < Pow2(7 * (k + 1))
  {
    SignedGroup(b % 128, acc, 7 * k);
    Pow2Values();
    Pow2Monotone(7 * k + 7, 63);
    Pow2Plus7(7 * k);
    ShiftFits(b, 7 * k, 127);
  }

  lemma DecULast(bs: seq<u8>, acc: nat, k: nat)
    requires k <= 9 && acc < Pow2(7 * k) && bs != [] && bs[0] < 128
    ensures DecUFrom(bs, acc, 7 * k) == Ok((acc + Pow2(7 * k) * bs[0]) % POW64, bs[1..])
  {
    assert DecUFrom(bs, acc, 7 * k) == Ok(acc + Shifted(bs[0], 7 * k), bs[1..]);
    hide Pow2, DecUFrom;
    var p := Pow2(7 * k);
    assert bs[0] * p == p * bs[0];
    if k == 9 {
      Pow2Values();
      TopGroup(bs[0], acc);
    } else {
      GroupFits(bs[0], acc, k);
      SmallMod(acc + p * bs[0]);
    }
  }

  lemma {:induction false} DecUValue(bs: seq<u8>, acc: nat, k: nat)
    requires k <= 9 && acc < Pow2(7 * k) && Continuations(bs) < |bs| && Continuations(bs) < 10 - k
    ensures var r, n := DecUFrom(bs, acc, 7 * k), Continuations(bs);
            r.Ok? && r.value == (acc + Pow2(7 * k) * GroupSum(bs[..n + 1])) % POW64
  {
    hide Pow2, Shifted;
    var p, g, n := Pow2(7 * k), bs[0] % 128, Continuations(bs);
    if bs[0] < 128 {
      DecULast(bs, acc, k);
      assert bs[..1][1..] == [];
    } else {
      var tail := GroupSum(bs[1..][..n]);
      assert bs[..n + 1][1..] == bs[1..][..n];
      GroupFits(bs[0], acc, k);
      DecUValue(bs[1..], acc + g * p, k + 1);
      Regroup(acc, p, g, tail);
    }
  }

  lemma Regroup(acc: nat, p: nat, g: nat, tail: nat)
    ensures acc + g * p + (128 * p) * tail == acc + p * (g + 128 * tail)
  {
    assert p * (g + 128 * tail) == p * g + p * (128 * tail);
  }

  /**
   The unsigned reader on every input: it overflows exactly when ten bytes all
   ask for more and an eleventh exists, runs out exactly when the input ends
   inside the number, and otherwise stops right after the first final byte with
   the sum of the groups modulo 2^64.
   */
  lemma UvarintReaderTotal(bs: seq<u8>)
    ensures var n := Continuations(bs);
            && (DecU(bs) == Err(UnexpectedEof) <==> n == |bs| && |bs| <= 10)
            && (DecU(bs) == Err(VarintOverflow) <==> n >= 10 && |bs| > 10)
            && (DecU(bs).Ok? <==> n < |bs| && n < 10)
            && (DecU(bs).Ok? ==> DecU(bs) == Ok(GroupSum(bs[..n + 1]) % POW64, bs[n + 1..]))
  {
    hide DecUFrom, Continuations, GroupSum;
    ContinuationsBound(bs);
    DecUShape(bs, 0, 0);
    if Continuations(bs) < |bs| && Continuations(bs) < 10 {
      assert Pow2(0) == 1;
      DecUValue(bs, 0, 0);
    }
  }

  // ----- what the signed reader makes of any input -----

  /** The sign bits the reader fills in above a last group at `shift`. */
  function SignFill(b: u8, shift: nat): int {
    if shift + 7 < 64 && b >= 64 then POW64 - Pow2(shift + 7) else 0
  }

  /** The signed reader takes the same bytes as the unsigned one and fails with it. */
  lemma {:induction false} DecIFollowsU(bs: seq<u8>, acc: nat, shift: nat)
    ensures var n, u := Continuations(bs), DecUFrom(bs, acc, shift);
            && (u.Err? ==> DecIFrom(bs, acc, shift) == Err(u.error))
            && (u.Ok? ==>
                  && n < |bs|
                  && DecIFrom(bs, acc, shift) == Ok(ToSigned(u.value + SignFill(bs[n], shift + 7 * n)), u.rest))
  {
    hide ToSigned, Pow2, Shifted;
    if bs == [] || shift >= 64 || bs[0] < 128 {
    } else {
      DecIFollowsU(bs[1..], acc + Shifted(bs[0], shift), shift + 7);
    }
  }

  /** The value of a signed number: its groups, less the weight just above them when its top bit is set. */
  function SignedSum(bs: seq<u8>): int {
    GroupSum(bs) - (if bs != [] && bs[|bs| - 1] >= 64 then Pow2(7 * |bs|) else 0)
  }

  lemma ToSignedCongruent(x: int, k: int)
    ensures ToSigned(x + k * POW64) == ToSigned(x)
  {
    assert (x + k * POW64) % POW64 == x % POW64;
  }

  /** Filling in sign bits below 2^64, or losing them above it, is subtracting the weight modulo 2^64. */
  lemma SignFillCongruent(g: nat, b: u8, n: nat)
    requires n < 10
    ensures ToSigned(g % POW64 + SignFill(b, 7 * n)) == ToSigned(g - (if b >= 64 then Pow2(7 * n + 7) else 0))
  {
    hide ToSigned, Pow2;
    var q: int := g / POW64;
    assert g == g % POW64 + q * POW64;
    if b < 64 {
      ToSignedCongruent(g % POW64, q);
    } else if n < 9 {
      var p: int := Pow2(7 * n + 7);
      assert g - p == (g % POW64 + (POW64 - p)) + (q - 1) * POW64;
      ToSignedCongruent(g % POW64 + (POW64 - p), q - 1);
    } else {
      assert Pow2(70) == 64 * POW64 by {
        Pow2Values();
        Pow2Plus7(63);
      }
      ToSignedCongruent(g % POW64, q - 64);
      assert g - 64 * POW64 == g % POW64 + (q - 64) * POW64;
    }
  }

  /**
   The signed reader on every input, canonical or not: it fails as the unsigned
   one does, and otherwise stops right after the first final byte with the
   `i64` congruent to the signed sum of the groups modulo 2^64.
   */
  lemma {:induction false} IvarintReaderTotal(bs: seq<u8>)
    ensures var n := Continuations(bs);
            && (DecI(bs) == Err(UnexpectedEof) <==> n == |bs| && |bs| <= 10)
            && (DecI(bs) == Err(VarintOverflow) <==> n >= 10 && |bs| > 10)
            && (DecI(bs).Ok? <==> n < |bs| && n < 10)
            && (DecI(bs).Ok? ==> DecI(bs) == Ok(ToSigned(SignedSum(bs[..n + 1])), bs[n + 1..]))
  {
    hide ToSigned, GroupSum, Pow2, DecUFrom, DecIFrom, Continuations, SignFill;
    UvarintReaderTotal(bs);
    DecIFollowsU(bs, 0, 0);
    var n := Continuations(bs);
    if n < |bs| && n < 10 {
      SignFillCongruent(GroupSum(bs[..n + 1]), bs[n], n);
      assert bs[..n + 1][n] == bs[n];
    }
  }

  // ----- fixed fields, bytes and text -----

  function Take(bs: seq<u8>, n: nat): Parsed<seq<u8>> {
    if n <= |bs| then Ok(bs[..n], bs[n..]) else Err(UnexpectedEof)
  }

  function DecU8(bs: seq<u8>): Parsed<u8> {
    var (b, rest) :- Take(bs, 1);
    Ok(b[0], rest)
  }

  /** The low `n` bytes of `v`, least significant first. */
  function Le(v: nat, n: nat): (r: seq<u8>)
    ensures |r| == n
  {
    if n == 0 then [] else [v % 256] + Le(v / 256, n - 1)
  }

  function FromLe(bs: seq<u8>): nat {
    if bs == [] then 0 else bs[0] + 256 * FromLe(bs[1..])
  }

  /** `n` bytes read as a little-endian number: `read_u32_le` and, as a bit pattern, `read_f64`. */
  function DecLe(bs: seq<u8>, n: nat): Parsed<nat> {
    var (b, rest) :- Take(bs, n);
    Ok(FromLe(b), rest)
  }

  function EncBytes(data: seq<u8>): seq<u8> { EncU(|data|) + data }

  function DecBytes(bs: seq<u8>): Parsed<seq<u8>> {
    var (n, rest) :- DecU(bs);
    Take(rest, n)
  }

  predicate Continues(bs: seq<u8>, from: nat, to: nat)
    requires from <= to <= |bs|
  {
    forall i :: from <= i < to ==> 0x80 <= bs[i] < 0xC0
  }

  /**
   Length of the well-formed UTF-8 sequence at the front of `bs`, zero if there
   is none: the UTF8-char grammar in section 4 of RFC 3629.
   */
  function CharLength(bs: seq<u8>): (n: nat)
    ensures n <= |bs|
  {
    if bs == [] then 0
    else if bs[0] < 0x80 then 1
    else if 0xC2 <= bs[0] < 0xE0 && |bs| >= 2 && Continues(bs, 1, 2) then 2
    else if 0xE0 <= bs[0] < 0xF0 && |bs| >= 3 && Continues(bs, 1, 3)
            && (bs[0] == 0xE0 ==> bs[1] >= 0xA0) && (bs[0] == 0xED ==> bs[1] < 0xA0) then 3
    else if 0xF0 <= bs[0] < 0xF5 && |bs| >= 4 && Continues(bs, 1, 4)
            && (bs[0] == 0xF0 ==> bs[1] >= 0x90) && (bs[0] == 0xF4 ==> bs[1] < 0x90) then 4
    else 0
  }

  predicate ValidUtf8(bs: seq<u8>) {
    bs == [] || (CharLength(bs) > 0 && ValidUtf8(bs[CharLength(bs)..]))
  }

  function DecStr(bs: seq<u8>): Parsed<Text> {
    var (b, rest) :- DecBytes(bs);
    if ValidUtf8(b) then Ok(b, rest) else Err(InvalidUtf8)
  }

  lemma {:induction false} LeRoundTrip(v: nat, n: nat)
    requires v < Pow2(8 * n)
    ensures FromLe(Le(v, n)) == v
  {
    if n == 0 {
      assert Pow2(0) == 1;
    } else {
      Pow2Plus7(8 * n - 8);
      LeRoundTrip(v / 256, n - 1);
    }
  }

  lemma FixedRoundTrip(v: nat, n: nat, rest: seq<u8>)
    requires v < Pow2(8 * n)
    ensures DecLe(Le(v, n) + rest, n) == Ok(v, rest)
  {
    LeRoundTrip(v, n);
    assert (Le(v, n) + rest)[..n] == Le(v, n);
    assert (Le(v, n) + rest)[n..] == rest;
  }

  lemma U8RoundTrip(b: u8, rest: seq<u8>)
    ensures DecU8([b] + rest) == Ok(b, rest)
  {
    assert ([b] + rest)[1..] == rest;
  }

  lemma BytesRoundTrip(data: seq<u8>, rest: seq<u8>)
    requires |data| < POW64
    ensures DecBytes(EncBytes(data) + rest) == Ok(data, rest)
  {
    UvarintRoundTrip(|data|, data + rest);
    assert EncBytes(data) + rest == EncU(|data|) + (data + rest);
    assert (data + rest)[..|data|] == data;
    assert (data + rest)[|data|..] == rest;
  }

  /** Text comes back exactly when it is UTF-8; anything else is refused. */
  lemma {:induction false} StrRoundTrip(s: Text, rest: seq<u8>)
    requires |s| < POW64
    ensures DecStr(EncBytes(s) + rest) == if ValidUtf8(s) then Ok(s, rest) else Err(InvalidUtf8)
  {
    BytesRoundTrip(s, rest);
  }

  // ----- repetition -----

  function ConcatMap<T>(f: T -> seq<u8>, xs: seq<T>): seq<u8> {
    if xs == [] then [] else f(xs[0]) + ConcatMap(f, xs[1..])
  }

  function ParseMany<T>(p: seq<u8> -> Parsed<T>, n: nat, bs: seq<u8>): Parsed<seq<T>> {
    if n == 0 then Ok([], bs)
    else
      var (x, rest) :- p(bs);
      var (xs, rest') :- ParseMany(p, n - 1, rest);
      Ok([x] + xs, rest')
  }

  /** A count, then that many items. */
  function EncMany<T>(f: T -> seq<u8>, xs: seq<T>): seq<u8> { EncU(|xs|) + ConcatMap(f, xs) }

  function DecMany<T>(p: seq<u8> -> Parsed<T>, bs: seq<u8>): Parsed<seq<T>> {
    var (n, rest) :- DecU(bs);
    ParseMany(p, n, rest)
  }

  /** If each item is read back whatever follows it, so is the run of items. */
  lemma {:induction false} ParseManyConcat<T, U>(
      f: T -> seq<u8>, p: seq<u8> -> Parsed<U>, xs: seq<T>, ys: seq<U>, rest: seq<u8>)
    requires |ys| == |xs|
    requires forall i, more :: 0 <= i < |xs| ==> p(f(xs[i]) + more) == Ok(ys[i], more)
    ensures ParseMany(p, |xs|, ConcatMap(f, xs) + rest) == Ok(ys, rest)
  {
    if xs == [] {
      assert ConcatMap(f, xs) + rest == rest;
    } else {
      forall i, more | 0 <= i < |xs[1..]| ensures p(f(xs[1..][i]) + more) == Ok(ys[1..][i], more) {
        assert p(f(xs[i + 1]) + more) == Ok(ys[i + 1], more);
      }
      ParseManyConcat(f, p, xs[1..], ys[1..], rest);
      var tail := ConcatMap(f, xs[1..]) + rest;
      assert ConcatMap(f, xs) + rest == f(xs[0]) + tail;
      assert p(f(xs[0]) + tail) == Ok(ys[0], tail);
      assert [ys[0]] + ys[1..] == ys;
    }
  }

  lemma ManyRoundTrip<T, U>(
      f: T -> seq<u8>, p: seq<u8> -> Parsed<U>, xs: seq<T>, ys: seq<U>, rest: seq<u8>)
    requires |ys| == |xs| < POW64
    requires forall i, more :: 0 <= i < |xs| ==> p(f(xs[i]) + more) == Ok(ys[i], more)
    ensures DecMany(p, EncMany(f, xs) + rest) == Ok(ys, rest)
  {
    UvarintRoundTrip(|xs|, ConcatMap(f, xs) + rest);
    assert EncMany(f, xs) + rest == EncU(|xs|) + (ConcatMap(f, xs) + rest);
    ParseManyConcat(f, p, xs, ys, rest);
  }

  /** `done` items in front of what is still to come. */
  function Prepend<T>(done: seq<T>, more: Parsed<seq<T>>): Parsed<seq<T>> {
    match more
    case Ok(xs, rest) => Ok(done + xs, rest)
    case Err(e) => Err(e)
  }

  /** Reading one more item in a loop. */
  lemma ParseManyStep<T>(p: seq<u8> -> Parsed<T>, n: nat, bs: seq<u8>, done: seq<T>)
    requires n > 0
    ensures Prepend(done, ParseMany(p, n, bs))
         == match p(bs) case Ok(x, rest) => Prepend(done + [x], ParseMany(p, n - 1, rest)) case Err(e) => Err(e)
  {
    if p(bs).Ok? && ParseMany(p, n - 1, p(bs).rest).Ok? {
      var x, xs := p(bs).value, ParseMany(p, n - 1, p(bs).rest).value;
      assert done + ([x] + xs) == done + [x] + xs;
    }
  }

  /** Writing one more item in a loop. */
  lemma {:induction false} ConcatMapPush<T>(f: T -> seq<u8>, xs: seq<T>, x: T)
    ensures ConcatMap(f, xs + [x]) == ConcatMap(f, xs) + f(x)
  {
    if xs == [] {
      assert ([x])[1..] == [];
      assert xs + [x] == [x];
    } else {
      assert (xs + [x])[1..] == xs[1..] + [x];
      ConcatMapPush(f, xs[1..], x);
    }
  }
}
