/**
 The two SystemC fixed-point types of the accelerator, `data_t = sc_fixed<16,8>`
 and `angle_t = sc_fixed<16,9>`, modelled by their raw 16-bit two's-complement
 integers, together with the record the CORDIC engine returns.

 With SystemC's default modes (quantisation SC_TRN, overflow SC_WRAP) every
 assignment into a fixed-point variable first rounds toward minus infinity to
 the type's resolution and then wraps into 16 bits. Intermediate results of
 `+`, unary `-`, `>>` and `*` are exact, so a model that computes on unbounded
 integers and wraps at each assignment is exact.
 */
module FixedPoint {

  const RAW_MIN: int := -0x8000
  const RAW_MAX: int := 0x7FFF
  const RAW_SPAN: int := 0x1_0000

  /** Raw 16-bit two's-complement word. */
  type Fix16 = r: int | -0x8000 <= r < 0x8000

  /** `data_t`: raw value r stands for r / 256 (8 fractional bits). */
  type Data = Fix16
  /** `angle_t`: raw value r stands for r / 128 (7 fractional bits). */
  type Angle = Fix16

  const DATA_SCALE: int := 256
  const ANGLE_SCALE: int := 128

  /** The number a `data_t` raw word stands for. */
  function DataValue(d: Data): real { d as real / 256.0 }

  /** The number (in degrees) an `angle_t` raw word stands for. */
  function AngleValue(a: Angle): real { a as real / 128.0 }

  /** SC_WRAP overflow: the 16-bit word congruent to `v` modulo 2^16. */
  function Wrap(v: int): (r: Fix16)
    ensures (r - v) % RAW_SPAN == 0
    ensures RAW_MIN <= v <= RAW_MAX ==> r == v
  {
    (v + 0x8000) % 0x1_0000 - 0x8000
  }

  function Pow2(n: nat): (p: nat)
    ensures p >= 1
  {
    if n == 0 then 1 else 2 * Pow2(n - 1)
  }

  /**
   `v >> n` assigned back to a fixed-point variable of the same type: the exact
   quotient by 2^n truncated (SC_TRN, toward minus infinity), i.e. an
   arithmetic right shift of the raw word. It never overflows.
   */
  function ShiftRight(v: Fix16, n: nat): (r: Fix16)
    ensures 0 <= v ==> 0 <= r <= v
    ensures v < 0 ==> v <= r < 0
  {
    ShiftBounds(v, Pow2(n));
    v / Pow2(n)
  }

  /** `ShiftRight` is the floor of the exact quotient by 2^n. */
  lemma ShiftRightFloor(v: Fix16, n: nat)
    ensures ShiftRight(v, n) * Pow2(n) <= v < (ShiftRight(v, n) + 1) * Pow2(n)
  {
    DivFloor(v, Pow2(n));
  }

  lemma ShiftBounds(v: Fix16, p: nat)
    requires p >= 1
    ensures p * (v / p) <= v < p * (v / p) + p
    ensures 0 <= v ==> 0 <= v / p <= v
    ensures v < 0 ==> v <= v / p < 0
  {
    DivFloor(v, p);
    if v >= 0 {
      DivNonNegative(v, p);
    } else {
      DivNegative(v, p);
    }
  }

  lemma DivFloor(v: int, p: int)
    requires p >= 1
    ensures p * (v / p) <= v < p * (v / p) + p
  {
    var q, r := v / p, v % p;
    assert v == q * p + r && 0 <= r < p;
  }

  lemma DivNonNegative(v: int, p: int)
    requires p >= 1 && v >= 0
    requires p * (v / p) <= v < p * (v / p) + p
    ensures 0 <= v / p <= v
  {
    var q := v / p;
    if q < 0 {
      MulMonotone(q, -1, p);
    }
    if q > v {
      MulMonotone(v + 1, q, p);
      MulMonotone(1, p, v + 1);
    }
  }

  lemma DivNegative(v: int, p: int)
    requires p >= 1 && v < 0
    requires p * (v / p) <= v < p * (v / p) + p
    ensures v <= v / p < 0
  {
    var q := v / p;
    if q >= 0 {
      MulMonotone(0, q, p);
      assert false;
    }
    if q < v {
      MulMonotone(q, v - 1, p);
      MulMonotone(1, p, -v);
      assert false;
    }
  }

  lemma MulMonotone(a: int, b: int, c: int)
    requires a <= b && c >= 0
    ensures a * c <= b * c
  {
  }

  /** Unary minus assigned to a fixed-point variable. */
  function Negate(v: Fix16): (r: Fix16)
  {
    Wrap(-(v as int))
  }

  /** Negation is exact except for the most negative word, which wraps to itself. */
  lemma NegateExact(v: Fix16)
    ensures v != RAW_MIN ==> Negate(v) == -v
    ensures v == RAW_MIN ==> Negate(v) == RAW_MIN
  {
  }

  /** A sum assigned to a fixed-point variable of the operands' format. */
  function Add(a: Fix16, b: Fix16): (r: Fix16)
  {
    Wrap(a as int + b as int)
  }

  /** A sum is exact when it fits, and congruent to the exact sum modulo 2^16 always. */
  lemma AddExact(a: Fix16, b: Fix16)
    ensures (Add(a, b) - (a as int + b as int)) % RAW_SPAN == 0
    ensures RAW_MIN <= a as int + b as int <= RAW_MAX ==> Add(a, b) == a as int + b as int
  {
  }

  /**
   A `double` constant assigned to a fixed-point variable whose resolution is
   1/`scale`: truncated toward minus infinity, then wrapped.
   */
  function Quantize(v: real, scale: int): (r: Fix16)
    requires scale == DATA_SCALE || scale == ANGLE_SCALE
    ensures RAW_MIN <= (v * scale as real).Floor <= RAW_MAX ==>
              r as real <= v * scale as real < r as real + 1.0
  {
    Wrap((v * scale as real).Floor)
  }

  /** Wrapping is insensitive to multiples of 2^16 already added inside. */
  lemma WrapCongruent(u: int, v: int)
    requires (u - v) % RAW_SPAN == 0
    ensures Wrap(u) == Wrap(v)
  {
    var k := (u - v) / RAW_SPAN;
    assert u == v + k * RAW_SPAN;
    assert (u + 0x8000) % 0x1_0000 == (v + 0x8000 + k * 0x1_0000) % 0x1_0000;
    ModAddMultiple(v + 0x8000, k, 0x1_0000);
  }

  lemma ModAddMultiple(a: int, k: int, n: int)
    requires n == RAW_SPAN
    ensures (a + k * n) % n == a % n
  {
    var q, r := a / n, a % n;
    assert a == q * n + r && 0 <= r < n;
    assert a + k * n == (q + k) * n + r;
  }

  /** Wrapping the right operand of a sum first changes nothing (SC_WRAP is a ring map). */
  lemma AddWrapped(a: int, b: int)
    ensures Wrap(a + Wrap(b)) == Wrap(a + b)
  {
    WrapCongruent(a + Wrap(b), a + b);
  }

  /** Adding a negated word is a wrapped subtraction. */
  lemma AddNegate(a: Fix16, b: Fix16)
    ensures Add(a, Negate(b)) == Wrap(a as int - b as int)
    ensures Add(Negate(b), a) == Wrap(a as int - b as int)
  {
    AddWrapped(a, -(b as int));
  }

  /** The CORDIC_output_t record: (x: data_t, y: data_t, theta: angle_t). */
  datatype CordicOutput = CordicOutput(x: Data, y: Data, theta: Angle)

  /** Every `data_t` lies in [-128, 128) and every `angle_t` in [-256, 256). */
  lemma ValueRanges(d: Data, a: Angle)
    ensures -128.0 <= DataValue(d) < 128.0
    ensures -256.0 <= AngleValue(a) < 256.0
    ensures DataValue(d) * 256.0 == d as real && AngleValue(a) * 128.0 == a as real
  {
  }

  /**
   Every host phase in [-180, 180] quantises to an `angle_t` without
   overflow, and to within 1/128 of itself.
   */
  lemma AngleQuantizeInRange(v: real)
    requires -180.0 <= v <= 180.0
    ensures AngleValue(Quantize(v, ANGLE_SCALE)) <= v < AngleValue(Quantize(v, ANGLE_SCALE)) + 1.0 / 128.0
  {
    var f := (v * 128.0).Floor;
    assert f as real <= v * 128.0 < f as real + 1.0;
    assert -23040 <= f <= 23040;
    assert Quantize(v, ANGLE_SCALE) == f;
  }
}
