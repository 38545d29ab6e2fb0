/** dynamic_per_token_int8_quant_ref of vllm/_xpu_ops.py for one row, in exact
    reals, with the integer casts written out. */
module Quantizer {

  // ------------------------------------------------------------ arithmetic

  function Pow2(n: nat): (r: int)
    ensures r > 0
  {
    if n == 0 then 1 else 2 * Pow2(n - 1)
  }

  /** torch.round: to the nearest integer, ties to even. */
  function Round(x: real): int {
    var f := x.Floor;
    var d := x - f as real;
    if d < 0.5 || (d == 0.5 && f % 2 == 0) then f else f + 1
  }

  function Abs(x: real): real {
    if x < 0.0 then -x else x
  }

  function Larger(x: real, y: real): real {
    if x < y then y else x
  }

  function Clamp(x: int, lo: int, hi: int): int {
    if x < lo then lo else if x > hi then hi else x
  }

  function Int8(x: int): int {
    (x + 128) % 256 - 128
  }

  function Uint8(x: int): int {
    x % 256
  }

  function Int32(x: int): int {
    (x + 0x8000_0000) % 0x1_0000_0000 - 0x8000_0000
  }

  function Min(row: seq<real>): (m: real)
    requires row != []
    ensures m in row && forall i :: 0 <= i < |row| ==> m <= row[i]
  {
    var x := row[|row| - 1];
    if |row| == 1 then x
    else
      var m := Min(row[..|row| - 1]);
      if m < x then m else x
  }

  function Max(row: seq<real>): (m: real)
    requires row != []
    ensures m in row && forall i :: 0 <= i < |row| ==> row[i] <= m
  {
    var x := row[|row| - 1];
    if |row| == 1 then x
    else
      var m := Max(row[..|row| - 1]);
      if m > x then m else x
  }

  // --------------------------------------------------------- the quantiser

  function QMin(sym: bool, bits: nat): int
    requires bits > 0
  {
    if sym then -Pow2(bits - 1) else 0
  }

  function QMax(sym: bool, bits: nat): int
    requires bits > 0
  {
    if sym then Pow2(bits - 1) - 1 else Pow2(bits) - 1
  }

  lemma QMaxPositive(sym: bool, bits: nat)
    requires bits >= 2
    ensures QMax(sym, bits) >= 1 && QMin(sym, bits) <= 0
    ensures sym ==> QMin(sym, bits) <= -QMax(sym, bits)
  {
  }

  const FLOOR := 0.00001

  function Scale(row: seq<real>, sym: bool, bits: nat): (s: real)
    requires row != [] && bits >= 2
    ensures s > 0.0
  {
    QMaxPositive(sym, bits);
    var span := if sym then Larger(Abs(Min(row)), Abs(Max(row))) else Max(row) - Min(row);
    Larger(span / QMax(sym, bits) as real, FLOOR)
  }

  /** The zero point before its cast to 32 bits. */
  function ExactZeroPoint(row: seq<real>, sym: bool, bits: nat): int
    requires row != [] && bits >= 2
  {
    if sym then 0 else -Round(Min(row) / Scale(row, sym, bits))
  }

  function ZeroPoint(row: seq<real>, sym: bool, bits: nat): int
    requires row != [] && bits >= 2
  {
    Int32(ExactZeroPoint(row, sym, bits))
  }

  /** The value stored for `x`: rounded, clamped, and cast to int8 or uint8. */
  function Encode(x: real, scale: real, zeroPoint: int, sym: bool, bits: nat): int
    requires scale > 0.0 && bits >= 2
  {
    var q := Clamp(Round(x / scale + zeroPoint as real), QMin(sym, bits), QMax(sym, bits));
    if sym then Int8(q) else Uint8(q)
  }

  function Decode(q: int, scale: real, zeroPoint: int): real {
    (q - zeroPoint) as real * scale
  }

  function Quantized(row: seq<real>, sym: bool, bits: nat, x: real): int
    requires row != [] && bits >= 2
  {
    Encode(x, Scale(row, sym, bits), ZeroPoint(row, sym, bits), sym, bits)
  }

  function Dequantized(row: seq<real>, sym: bool, bits: nat, x: real): real
    requires row != [] && bits >= 2
  {
    Decode(Quantized(row, sym, bits, x), Scale(row, sym, bits), ZeroPoint(row, sym, bits))
  }

  ghost predicate RoundTrips(row: seq<real>, sym: bool, bits: nat)
    requires row != [] && bits >= 2
  {
    forall i :: 0 <= i < |row| ==>
      && QMin(sym, bits) <= Quantized(row, sym, bits, row[i]) <= QMax(sym, bits)
      && Abs(Dequantized(row, sym, bits, row[i]) - row[i]) <= Scale(row, sym, bits) / 2.0
  }

  // ---------------------------------------------------------------- proofs

  lemma RoundIsNearest(x: real)
    ensures Abs(Round(x) as real - x) <= 0.5
  {
  }

  /** Clamping a rounded value in range up to half a step costs nothing more. */
  lemma ClampedRound(v: real, lo: int, hi: int)
    requires lo <= hi && lo as real - 0.5 <= v <= hi as real + 0.5
    ensures lo <= Clamp(Round(v), lo, hi) <= hi
    ensures Abs(Clamp(Round(v), lo, hi) as real - v) <= 0.5
  {
    RoundIsNearest(v);
  }

  lemma MulMono(a: real, b: real, c: real)
    requires a <= b && c >= 0.0
    ensures a * c <= b * c
  {
  }

  lemma DivMono(a: real, b: real, s: real)
    requires a <= b && s > 0.0
    ensures a / s <= b / s
  {
    MulMono(a, b, 1.0 / s);
    assert a / s == a * (1.0 / s) && b / s == b * (1.0 / s);
  }

  /** A scale of at least span / q brings the span down to q. */
  lemma DivideBySpan(span: real, q: real, s: real)
    requires q > 0.0 && s > 0.0 && s >= span / q
    ensures span / s <= q
  {
    MulMono(span / q, s, q);
    assert (span / q) * q == span;
    DivMono(span, s * q, s);
    assert s * q / s == q;
  }

  lemma SymmetricRange(x: real, span: real, q: real, s: real)
    requires q > 0.0 && s > 0.0 && s >= span / q && -span <= x <= span
    ensures -q <= x / s <= q
  {
    DivideBySpan(span, q, s);
    DivMono(x, span, s);
    DivMono(-span, x, s);
    assert (-span) / s == -(span / s);
  }

  lemma AsymmetricRange(x: real, lo: real, hi: real, q: real, s: real)
    requires q > 0.0 && s > 0.0 && s >= (hi - lo) / q && lo <= x <= hi
    ensures lo / s <= x / s <= lo / s + q
  {
    DivideBySpan(hi - lo, q, s);
    DivMono(lo, x, s);
    DivMono(x - lo, hi - lo, s);
    assert (x - lo) / s == x / s - lo / s;
  }

  /** Before the casts, every element lies within half a step of the range. */
  lemma InRange(row: seq<real>, sym: bool, bits: nat, i: nat)
    requires i < |row| && bits >= 2
    ensures var v := row[i] / Scale(row, sym, bits) + ExactZeroPoint(row, sym, bits) as real;
            QMin(sym, bits) as real - 0.5 <= v <= QMax(sym, bits) as real + 0.5
  {
    QMaxPositive(sym, bits);
    var s, qmax := Scale(row, sym, bits), QMax(sym, bits) as real;
    var lo, hi := Min(row), Max(row);
    assert lo <= row[i] <= hi;
    if sym {
      SymmetricRange(row[i], Larger(Abs(lo), Abs(hi)), qmax, s);
    } else {
      AsymmetricRange(row[i], lo, hi, qmax, s);
      RoundIsNearest(lo / s);
    }
  }

  lemma ErrorScales(q: int, zp: int, x: real, s: real)
    requires s > 0.0
    ensures (q - zp) as real * s - x == (q as real - (x / s + zp as real)) * s
  {
    assert x / s * s == x;
  }

  /** A value in range is stored unchanged in a byte, and read back within half
      a step. */
  lemma EncodeError(x: real, s: real, zp: int, sym: bool, bits: nat)
    requires s > 0.0 && 2 <= bits <= 8
    requires QMin(sym, bits) as real - 0.5 <= x / s + zp as real <= QMax(sym, bits) as real + 0.5
    ensures QMin(sym, bits) <= Encode(x, s, zp, sym, bits) <= QMax(sym, bits)
    ensures Abs(Decode(Encode(x, s, zp, sym, bits), s, zp) - x) <= s / 2.0
  {
    EncodeNearest(x, s, zp, sym, bits);
    DecodeError(Encode(x, s, zp, sym, bits), x, s, zp);
  }

  lemma EncodeNearest(x: real, s: real, zp: int, sym: bool, bits: nat)
    requires s > 0.0 && 2 <= bits <= 8
    requires QMin(sym, bits) as real - 0.5 <= x / s + zp as real <= QMax(sym, bits) as real + 0.5
    ensures QMin(sym, bits) <= Encode(x, s, zp, sym, bits) <= QMax(sym, bits)
    ensures Abs(Encode(x, s, zp, sym, bits) as real - (x / s + zp as real)) <= 0.5
  {
    var v, lo, hi := x / s + zp as real, QMin(sym, bits), QMax(sym, bits);
    QMaxPositive(sym, bits);
    ClampedRound(v, lo, hi);
    ByteHolds(sym, bits, Clamp(Round(v), lo, hi));
  }

  lemma DecodeError(q: int, x: real, s: real, zp: int)
    requires s > 0.0 && Abs(q as real - (x / s + zp as real)) <= 0.5
    ensures Abs(Decode(q, s, zp) - x) <= s / 2.0
  {
    var d := q as real - (x / s + zp as real);
    ErrorScales(q, zp, x, s);
    Halve(d, s);
    assert Decode(q, s, zp) - x == d * s;
  }

  lemma OneRoundTrip(row: seq<real>, sym: bool, bits: nat, i: nat)
    requires i < |row| && 2 <= bits <= 8
    requires ZeroPoint(row, sym, bits) == ExactZeroPoint(row, sym, bits)
    ensures QMin(sym, bits) <= Quantized(row, sym, bits, row[i]) <= QMax(sym, bits)
    ensures Abs(Dequantized(row, sym, bits, row[i]) - row[i]) <= Scale(row, sym, bits) / 2.0
  {
    InRange(row, sym, bits, i);
    EncodeError(row[i], Scale(row, sym, bits), ZeroPoint(row, sym, bits), sym, bits);
  }

  /** In at most 8 bits, and with a zero point that fits in 32, quantised values
      stay in range and are off by at most half a step. */
  lemma RoundTripError(row: seq<real>, sym: bool, bits: nat)
    requires row != [] && 2 <= bits <= 8
    requires ZeroPoint(row, sym, bits) == ExactZeroPoint(row, sym, bits)
    ensures RoundTrips(row, sym, bits)
  {
    forall i: nat | i < |row|
      ensures QMin(sym, bits) <= Quantized(row, sym, bits, row[i]) <= QMax(sym, bits)
      ensures Abs(Dequantized(row, sym, bits, row[i]) - row[i]) <= Scale(row, sym, bits) / 2.0
    {
      OneRoundTrip(row, sym, bits, i);
    }
  }

  lemma Halve(d: real, s: real)
    requires s > 0.0 && Abs(d) <= 0.5
    ensures Abs(d * s) <= s / 2.0
  {
    MulMono(d, 0.5, s);
    MulMono(-0.5, d, s);
  }

  /** Up to 8 bits the byte cast changes nothing. */
  lemma ByteHolds(sym: bool, bits: nat, q: int)
    requires 2 <= bits <= 8 && QMin(sym, bits) <= q <= QMax(sym, bits)
    ensures (if sym then Int8(q) else Uint8(q)) == q
  {
    Pow2Grows(bits, 8);
    Pow2Grows(bits - 1, 7);
    Pow2Small();
  }

  lemma Pow2Small()
    ensures Pow2(7) == 128 && Pow2(8) == 256
  {
    assert Pow2(4) == 16;
  }

  lemma {:induction false} Pow2Grows(a: nat, b: nat)
    requires a <= b
    ensures Pow2(a) <= Pow2(b)
    decreases b
  {
    if a < b {
      Pow2Grows(a, b - 1);
    }
  }

  // ---------------------------------------- where the error bound is exact

  ghost predicate ZeroPointFits(row: seq<real>, sym: bool, bits: nat)
    requires row != [] && bits >= 2
  {
    -0x8000_0000 <= ExactZeroPoint(row, sym, bits) < 0x8000_0000
  }

  /** In asymmetric mode and at most 8 bits, the error bound holds of a row if
      and only if its zero point fits in 32 bits. A row far from zero with a
      tiny spread breaks it, since the scale has a floor. */
  lemma RoundTripsIffZeroPointFits(row: seq<real>, bits: nat)
    requires row != [] && 2 <= bits <= 8
    ensures RoundTrips(row, false, bits) <==> ZeroPointFits(row, false, bits)
  {
    if ZeroPointFits(row, false, bits) {
      RoundTripError(row, false, bits);
    } else {
      FarOff(row, bits);
    }
  }

  /** A constant row far from zero does break it: with the scale at its floor the
      zero point of 30000.0 would be -3000000000. */
  lemma ConstantRowBreaksTheBound()
    ensures !ZeroPointFits([30000.0], false, 8) && !RoundTrips([30000.0], false, 8)
  {
    Pow2Small();
    assert Scale([30000.0], false, 8) == FLOOR;
    FarOff([30000.0], 8);
  }

  /** A zero point a whole turn away from a good one reads back too far off. */
  lemma EncodeFarOff(x: real, s: real, zp: int, exact: int, bits: nat)
    requires s > 0.0 && 2 <= bits <= 8
    requires -0.5 <= x / s + exact as real <= QMax(false, bits) as real + 0.5
    requires zp >= exact + 0x1_0000_0000 || zp <= exact - 0x1_0000_0000
    ensures Abs(Decode(Encode(x, s, zp, false, bits), s, zp) - x) > s / 2.0
  {
    Pow2Grows(bits, 8);
    Pow2Small();
    var v, q := x / s + zp as real, Encode(x, s, zp, false, bits);
    assert v == (x / s + exact as real) + (zp - exact) as real;
    assert 0 <= q < 256;
    ErrorScales(q, zp, x, s);
    MoreThanHalf(q as real - v, s);
  }

  lemma FarOff(row: seq<real>, bits: nat)
    requires row != [] && 2 <= bits <= 8 && !ZeroPointFits(row, false, bits)
    ensures !RoundTrips(row, false, bits)
  {
    var zp, exact := ZeroPoint(row, false, bits), ExactZeroPoint(row, false, bits);
    InRange(row, false, bits, 0);
    TurnsAway(exact);
    EncodeFarOff(row[0], Scale(row, false, bits), zp, exact, bits);
  }

  lemma TurnsAway(x: int)
    requires !(-0x8000_0000 <= x < 0x8000_0000)
    ensures Int32(x) >= x + 0x1_0000_0000 || Int32(x) <= x - 0x1_0000_0000
  {
  }

  lemma MoreThanHalf(d: real, s: real)
    requires s > 0.0 && Abs(d) > 0.5
    ensures Abs(d * s) > s / 2.0
  {
    if d > 0.0 {
      assert d * s == 0.5 * s + (d - 0.5) * s;
    } else {
      assert -d * s == 0.5 * s + (-d - 0.5) * s;
    }
  }

  /** The bound holds of every row whose zero point fits, if and only if at most
      8 bits are asked for: the result is stored in one byte. */
  lemma RoundTripsIffEightBits(sym: bool, bits: nat)
    requires bits >= 2
    ensures (forall row: seq<real> :: row != [] && ZeroPointFits(row, sym, bits) ==> RoundTrips(row, sym, bits))
            <==> bits <= 8
  {
    if bits <= 8 {
      forall row: seq<real> | row != [] && ZeroPointFits(row, sym, bits) ensures RoundTrips(row, sym, bits) {
        RoundTripError(row, sym, bits);
      }
    } else {
      WideRow(sym, bits);
    }
  }

  lemma {:induction false} Pow2Byte(n: nat)
    requires n >= 8
    ensures Pow2(n) % 256 == 0 && Pow2(n) >= 256 && (n > 8 ==> Pow2(n) >= 512)
  {
    Pow2Small();
    if n > 8 {
      Pow2Byte(n - 1);
    }
  }

  /** The row [0, qmax] has scale 1 and stores qmax, which is more than a byte. */
  lemma WideRow(sym: bool, bits: nat)
    requires bits > 8
    ensures exists row: seq<real> :: row != [] && ZeroPointFits(row, sym, bits) && !RoundTrips(row, sym, bits)
  {
    var row := [0.0, QMax(sym, bits) as real];
    WideScale(row, sym, bits);
    WideStored(row, sym, bits);
    assert ZeroPointFits(row, sym, bits);
    assert row[1] == QMax(sym, bits) as real;
    assert !RoundTrips(row, sym, bits);
  }

  lemma WideScale(row: seq<real>, sym: bool, bits: nat)
    requires bits > 8 && row == [0.0, QMax(sym, bits) as real]
    ensures Scale(row, sym, bits) == 1.0 && ExactZeroPoint(row, sym, bits) == 0
  {
    QMaxPositive(sym, bits);
    var qmax := QMax(sym, bits) as real;
    assert row[0] == 0.0 && row[1] == qmax;
    assert Min(row) == 0.0 && Max(row) == qmax;
    SelfRatio(qmax);
  }

  lemma SelfRatio(x: real)
    requires x > 0.0
    ensures x / x == 1.0
  {
  }

  lemma WideStored(row: seq<real>, sym: bool, bits: nat)
    requires bits > 8 && row == [0.0, QMax(sym, bits) as real]
    requires Scale(row, sym, bits) == 1.0 && ZeroPoint(row, sym, bits) == 0
    ensures Abs(Dequantized(row, sym, bits, row[1]) - row[1]) > 0.5
  {
    WideEncode(sym, bits);
  }

  lemma WideEncode(sym: bool, bits: nat)
    requires bits > 8
    ensures var qmax := QMax(sym, bits) as real;
            Abs(Decode(Encode(qmax, 1.0, 0, sym, bits), 1.0, 0) - qmax) > 0.5
  {
    var qmax := QMax(sym, bits);
    QMaxPositive(sym, bits);
    RoundWhole(qmax);
    assert qmax as real / 1.0 + 0 as real == qmax as real;
    WideByte(sym, bits);
  }

  /** The byte that is left of the largest value is another one. */
  lemma WideByte(sym: bool, bits: nat)
    requires bits > 8
    ensures var qmax := QMax(sym, bits); (if sym then Int8(qmax) else Uint8(qmax)) < qmax
  {
    Pow2Byte(bits);
    Pow2Byte(bits - 1);
    var qmax := QMax(sym, bits);
    assert qmax % 256 == 255 && (sym || qmax > 256);
  }

  // -------------------------------------------------- the range is used in full

  /** A scale of exactly span / q takes the span to q. */
  lemma SpanToEnd(span: real, q: real, s: real)
    requires q > 0.0 && s > 0.0 && s == span / q
    ensures span / s == q && (-span) / s == -q
  {
    assert s * q == span;
    assert s * q / s == q;
  }

  lemma RoundWhole(q: int)
    ensures Round(q as real) == q
  {
  }

  /** Symmetric: with the scale above its floor, an element of the largest magnitude
      is stored at the end of the range, on its own side of zero. */
  lemma LargestIsStoredAtEnd(row: seq<real>, bits: nat, i: nat)
    requires i < |row| && 2 <= bits <= 8 && Scale(row, true, bits) > FLOOR
    requires forall j :: 0 <= j < |row| ==> Abs(row[j]) <= Abs(row[i])
    ensures Quantized(row, true, bits, row[i]) == if row[i] < 0.0 then -QMax(true, bits) else QMax(true, bits)
  {
    QMaxPositive(true, bits);
    var s, q := Scale(row, true, bits), QMax(true, bits);
    SpanIsLargest(row, i);
    SpanToEnd(Abs(row[i]), q as real, s);
    WholeIsStored(row[i], s, if row[i] < 0.0 then -q else q, bits);
  }

  lemma WholeIsStored(x: real, s: real, q: int, bits: nat)
    requires 2 <= bits <= 8 && s > 0.0 && x / s == q as real && -QMax(true, bits) <= q <= QMax(true, bits)
    ensures Encode(x, s, 0, true, bits) == q
  {
    QMaxPositive(true, bits);
    assert x / s + 0 as real == q as real;
    RoundWhole(q);
    ByteHolds(true, bits, q);
  }

  lemma SpanIsLargest(row: seq<real>, i: nat)
    requires i < |row| && forall j :: 0 <= j < |row| ==> Abs(row[j]) <= Abs(row[i])
    ensures Larger(Abs(Min(row)), Abs(Max(row))) == Abs(row[i])
  {
    assert Min(row) <= row[i] <= Max(row);
    var lo :| 0 <= lo < |row| && row[lo] == Min(row);
    var hi :| 0 <= hi < |row| && row[hi] == Max(row);
  }

  /** Asymmetric: with the scale above its floor and a zero point that fits, the
      least element is stored as 0, and the largest at the end of the range, or one
      short of it where rounding the zero point costs half a step. */
  lemma ExtremesAreStoredAtEnds(row: seq<real>, bits: nat)
    requires row != [] && 2 <= bits <= 8 && Scale(row, false, bits) > FLOOR && ZeroPointFits(row, false, bits)
    ensures Quantized(row, false, bits, Min(row)) == 0
    ensures QMax(false, bits) - 1 <= Quantized(row, false, bits, Max(row)) <= QMax(false, bits)
  {
    var lo, hi, s := Min(row), Max(row), Scale(row, false, bits);
    ScaleIsSpan(row, bits);
    FittingZeroPoint(row, bits);
    LeastStored(lo, s, lo / s, bits);
    LargestStored(hi, s, lo / s, bits);
  }

  lemma FittingZeroPoint(row: seq<real>, bits: nat)
    requires row != [] && bits >= 2 && ZeroPointFits(row, false, bits)
    ensures ZeroPoint(row, false, bits) == -Round(Min(row) / Scale(row, false, bits))
  {
    CastHolds(ExactZeroPoint(row, false, bits));
  }

  lemma CastHolds(x: int)
    requires -0x8000_0000 <= x < 0x8000_0000
    ensures Int32(x) == x
  {
  }

  lemma ScaleIsSpan(row: seq<real>, bits: nat)
    requires row != [] && bits >= 2 && Scale(row, false, bits) > FLOOR
    ensures Max(row) / Scale(row, false, bits) == Min(row) / Scale(row, false, bits) + QMax(false, bits) as real
  {
    QMaxPositive(false, bits);
    var lo, hi, s := Min(row), Max(row), Scale(row, false, bits);
    SpanToEnd(hi - lo, QMax(false, bits) as real, s);
    DivideSum(lo, hi - lo, s);
  }

  lemma DivideSum(x: real, y: real, s: real)
    requires s > 0.0
    ensures (x + y) / s == x / s + y / s
  {
  }

  lemma LeastStored(lo: real, s: real, v: real, bits: nat)
    requires 2 <= bits <= 8 && s > 0.0 && lo / s == v
    ensures Encode(lo, s, -Round(v), false, bits) == 0
  {
    QMaxPositive(false, bits);
    RoundOff(v);
  }

  lemma LargestStored(hi: real, s: real, v: real, bits: nat)
    requires 2 <= bits <= 8 && s > 0.0 && hi / s == v + QMax(false, bits) as real
    ensures QMax(false, bits) - 1 <= Encode(hi, s, -Round(v), false, bits) <= QMax(false, bits)
  {
    QMaxPositive(false, bits);
    var q := QMax(false, bits);
    RoundOffAt(v, q);
    ByteHolds(false, bits, q);
    ByteHolds(false, bits, q - 1);
  }

  lemma RoundOff(v: real)
    ensures Round(v - Round(v) as real) == 0
  {
  }

  lemma RoundOffAt(v: real, q: int)
    ensures q - 1 <= Round(v + q as real - Round(v) as real) <= q + 1
  {
  }

  // ------------------------------------------------------------- the code range

  /** There are as many codes as the bits allow; symmetric ones reach one further
      down than up, the others start at 0. */
  lemma RangeHasAllCodes(sym: bool, bits: nat)
    requires bits > 0
    ensures QMax(sym, bits) - QMin(sym, bits) + 1 == Pow2(bits)
    ensures if sym then QMin(sym, bits) == -QMax(sym, bits) - 1 else QMin(sym, bits) == 0
  {
  }

  /** Rounding goes to a nearest integer, and of two to the even one. */
  lemma RoundsToEven(x: real, n: int)
    ensures Abs(Round(x) as real - x) <= Abs(n as real - x)
    ensures Abs(Round(x) as real - x) == Abs(n as real - x) && n != Round(x) ==> Round(x) % 2 == 0
  {
    var f := x.Floor;
    assert f as real <= x < f as real + 1.0;
    assert n <= f || f + 1 <= n;
  }
}
