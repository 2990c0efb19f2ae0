/**
 The fixed-point CORDIC engine of the PE module, rotation mode only
 (`CORDIC_one` and `CORDIC` with `mode == false`, the only mode `comp` uses).

 `Cordic` follows `CORDIC` in PE.h step for step: a quadrant pre-rotation, a fixed
 chain of seven micro-rotations, and the gain correction. `Steps`, `Directions`,
 `ThetaSteps` and `VectorSteps` are reference definitions used to state what
 the chain computes.
 */
module CordicEngine {
  import opened FixedPoint

  /** The seven micro-rotation angles ANGLE0..ANGLE6 (their values are not part of this model). */
  type AngleTable = t: seq<Angle> | |t| == 7 witness [0, 0, 0, 0, 0, 0, 0]

  /** The `double` constant 90.0 as an `angle_t` raw word. */
  const NINETY: Angle := 11520

  /** The gain-correction constant `data_t factor = 0.6072776441` as a raw word. */
  const FACTOR: Data := 155

  /** 90.0 quantises exactly to the angle_t word 11520. */
  lemma NinetyExact()
    ensures NINETY == Quantize(90.0, ANGLE_SCALE) && AngleValue(NINETY) == 90.0
  {
    assert (90.0 * 128.0).Floor == 11520;
  }

  /** 0.6072776441 truncates to the data_t word 155, i.e. 0.60546875. */
  lemma FactorTruncated()
    ensures FACTOR == Quantize(0.6072776441, DATA_SCALE)
    ensures DataValue(FACTOR) <= 0.6072776441 < DataValue(FACTOR) + 1.0 / 256.0
  {
    assert (0.6072776441 * 256.0).Floor == 155;
  }

  /**
   One micro-rotation in rotation mode (`CORDIC_one` in PE.h, mode false),
   with its temporaries: both components are shifted by `sfl`, then the one
   selected by the sign of `theta0` and the angle constant are negated.
   */
  function CordicOne(x0: Data, y0: Data, theta0: Angle, sfl: nat, thetaConst: Angle): CordicOutput
  {
    var tmpX := ShiftRight(x0, sfl);
    var tmpY := ShiftRight(y0, sfl);
    if theta0 > 0 then
      var tmpY' := Negate(tmpY);
      var tmpTheta := Negate(thetaConst);
      CordicOutput(Add(x0, tmpY'), Add(tmpX, y0), Add(theta0, tmpTheta))
    else
      var tmpX' := Negate(tmpX);
      CordicOutput(Add(x0, tmpY), Add(tmpX', y0), Add(theta0, thetaConst))
  }

  /**
   The vector part of a micro-rotation in closed form: rotating by a positive
   angle (`pos`) gives (x - (y >> sfl), (x >> sfl) + y), otherwise
   (x + (y >> sfl), y - (x >> sfl)), each wrapped once into 16 bits.
   */
  function Rotate(x: Data, y: Data, pos: bool, sfl: nat): (Data, Data)
  {
    if pos then (Wrap(x as int - ShiftRight(y, sfl) as int), Wrap(ShiftRight(x, sfl) as int + y as int))
    else (Wrap(x as int + ShiftRight(y, sfl) as int), Wrap(y as int - ShiftRight(x, sfl) as int))
  }

  /** The angle part of a micro-rotation: theta0 - c when theta0 > 0, else theta0 + c, wrapped. */
  function NextTheta(theta: Angle, c: Angle): Angle
  {
    if theta > 0 then Wrap(theta as int - c as int) else Wrap(theta as int + c as int)
  }

  /**
   `CordicOne` in closed form: the branch is chosen by the sign of theta0
   alone, the vector is rotated by `Rotate` and the angle moved by `NextTheta`.
   */
  lemma CordicOneCases(x0: Data, y0: Data, theta0: Angle, sfl: nat, c: Angle)
    ensures var v := Rotate(x0, y0, theta0 > 0, sfl);
            CordicOne(x0, y0, theta0, sfl, c) == CordicOutput(v.0, v.1, NextTheta(theta0, c))
  {
    var tmpX := ShiftRight(x0, sfl);
    var tmpY := ShiftRight(y0, sfl);
    if theta0 > 0 {
      AddNegate(x0, tmpY);
      AddNegate(theta0, c);
    } else {
      AddNegate(y0, tmpX);
    }
  }

  /** The angle in rotation mode after the quadrant pre-rotation (never wraps). */
  function PreTheta(theta0: Angle): (r: Angle)
    ensures theta0 > 0 ==> r as int == theta0 - 11520
    ensures theta0 <= 0 ==> r as int == theta0 + 11520
  {
    if theta0 > 0 then Wrap(theta0 as int - NINETY as int) else Wrap(theta0 as int + NINETY as int)
  }

  /**
   The input correction of `CORDIC` in rotation mode. It is applied to every
   input, in range or not: theta0 > 0 rotates the vector by +90 degrees
   ((x, y) to (-y, x)) and subtracts 90 degrees from the angle, otherwise by
   -90 degrees ((x, y) to (y, -x)) and adds 90 degrees. The one component that
   cannot be negated in 16 bits, -128, stays -128.
   */
  function PreRotation(x0: Data, y0: Data, theta0: Angle): (r: CordicOutput)
    ensures theta0 > 0 ==> r.y == x0 && AngleValue(r.theta) == AngleValue(theta0) - 90.0
    ensures theta0 > 0 && y0 != RAW_MIN ==> r.x as int == -(y0 as int)
    ensures theta0 > 0 && y0 == RAW_MIN ==> r.x == RAW_MIN
    ensures theta0 <= 0 ==> r.x == y0 && AngleValue(r.theta) == AngleValue(theta0) + 90.0
    ensures theta0 <= 0 && x0 != RAW_MIN ==> r.y as int == -(x0 as int)
    ensures theta0 <= 0 && x0 == RAW_MIN ==> r.y == RAW_MIN
  {
    if theta0 > 0 then CordicOutput(Negate(y0), x0, PreTheta(theta0))
    else CordicOutput(y0, Negate(x0), PreTheta(theta0))
  }

  /**
   `x * factor` assigned to a `data_t`: the exact product truncated toward
   minus infinity. It shrinks the magnitude, so it never wraps.
   */
  function ScaleByFactor(d: Data): (r: Data)
    ensures r * 256 <= d * 155 < r * 256 + 256
    ensures 0 <= d ==> 0 <= r <= d
    ensures d < 0 ==> d <= r < 0
  {
    Wrap(d as int * FACTOR as int / 256)
  }

  /** `CORDIC(x0, y0, theta0, false)`: pre-rotation, seven micro-rotations, gain correction. */
  function Cordic(x0: Data, y0: Data, theta0: Angle, t: AngleTable): CordicOutput
  {
    var c := PreRotation(x0, y0, theta0);
    var o := CordicOne(c.x, c.y, c.theta, 0, t[0]);
    var o := CordicOne(o.x, o.y, o.theta, 1, t[1]);
    var o := CordicOne(o.x, o.y, o.theta, 2, t[2]);
    var o := CordicOne(o.x, o.y, o.theta, 3, t[3]);
    var o := CordicOne(o.x, o.y, o.theta, 4, t[4]);
    var o := CordicOne(o.x, o.y, o.theta, 5, t[5]);
    var o := CordicOne(o.x, o.y, o.theta, 6, t[6]);
    CordicOutput(ScaleByFactor(o.x), ScaleByFactor(o.y), o.theta)
  }

  /** Reference: micro-rotations i, i+1, ..., 6, step j using shift j and angle t[j]. */
  function Steps(o: CordicOutput, t: AngleTable, i: nat): CordicOutput
    requires i <= 7
    decreases 7 - i
  {
    if i == 7 then o else Steps(CordicOne(o.x, o.y, o.theta, i, t[i]), t, i + 1)
  }

  /** Reference: the angle after steps i..6, computed from the angle alone. */
  function ThetaSteps(theta: Angle, t: AngleTable, i: nat): Angle
    requires i <= 7
    decreases 7 - i
  {
    if i == 7 then theta else ThetaSteps(NextTheta(theta, t[i]), t, i + 1)
  }

  /** Reference: the branch taken by steps i..6 (true: theta > 0), from the angle alone. */
  function Directions(theta: Angle, t: AngleTable, i: nat): (ds: seq<bool>)
    requires i <= 7
    ensures |ds| == 7 - i
    decreases 7 - i
  {
    if i == 7 then [] else [theta > 0] + Directions(NextTheta(theta, t[i]), t, i + 1)
  }

  /** Reference: the vector after steps i..6 when step i + k takes direction ds[k]. */
  function VectorSteps(x: Data, y: Data, ds: seq<bool>, i: nat): (Data, Data)
    requires i <= 7 && |ds| == 7 - i
    decreases 7 - i
  {
    if i == 7 then (x, y)
    else
      var v := Rotate(x, y, ds[0], i);
      VectorSteps(v.0, v.1, ds[1..], i + 1)
  }

  /** The chain in `Cordic` is exactly seven micro-rotations, step i with shift i and ANGLEi, then the gain correction. */
  lemma CordicIsSevenSteps(x0: Data, y0: Data, theta0: Angle, t: AngleTable)
    ensures var r := Steps(PreRotation(x0, y0, theta0), t, 0);
            Cordic(x0, y0, theta0, t) == CordicOutput(ScaleByFactor(r.x), ScaleByFactor(r.y), r.theta)
  {
    var o := PreRotation(x0, y0, theta0);
    var o1 := CordicOne(o.x, o.y, o.theta, 0, t[0]);
    var o2 := CordicOne(o1.x, o1.y, o1.theta, 1, t[1]);
    var o3 := CordicOne(o2.x, o2.y, o2.theta, 2, t[2]);
    var o4 := CordicOne(o3.x, o3.y, o3.theta, 3, t[3]);
    var o5 := CordicOne(o4.x, o4.y, o4.theta, 4, t[4]);
    var o6 := CordicOne(o5.x, o5.y, o5.theta, 5, t[5]);
    var o7 := CordicOne(o6.x, o6.y, o6.theta, 6, t[6]);
    assert Steps(o, t, 0) == Steps(o1, t, 1) == Steps(o2, t, 2) == Steps(o3, t, 3);
    assert Steps(o3, t, 3) == Steps(o4, t, 4) == Steps(o5, t, 5) == Steps(o6, t, 6);
    assert Steps(o6, t, 6) == Steps(o7, t, 7) == o7;
  }

  /**
   In rotation mode every branch tests only the angle: the micro-rotations
   split into an angle part that depends on the angle alone and a vector part
   driven by the sequence of branch directions.
   */
  lemma {:induction false} StepsSplit(o: CordicOutput, t: AngleTable, i: nat)
    requires i <= 7
    ensures var v := VectorSteps(o.x, o.y, Directions(o.theta, t, i), i);
            Steps(o, t, i) == CordicOutput(v.0, v.1, ThetaSteps(o.theta, t, i))
    decreases 7 - i
  {
    if i < 7 {
      var o' := CordicOne(o.x, o.y, o.theta, i, t[i]);
      StepSplit(o, t, i);
      StepsSplit(o', t, i + 1);
    }
  }

  /** One unfolding of `Steps` agrees with one unfolding of its three reference definitions. */
  lemma StepSplit(o: CordicOutput, t: AngleTable, i: nat)
    requires i < 7
    ensures var o' := CordicOne(o.x, o.y, o.theta, i, t[i]);
            var ds := Directions(o.theta, t, i);
            && ThetaSteps(o.theta, t, i) == ThetaSteps(o'.theta, t, i + 1)
            && ds[1..] == Directions(o'.theta, t, i + 1)
            && VectorSteps(o.x, o.y, ds, i) == VectorSteps(o'.x, o'.y, ds[1..], i + 1)
  {
    var o' := CordicOne(o.x, o.y, o.theta, i, t[i]);
    CordicOneCases(o.x, o.y, o.theta, i, t[i]);
    var ds := Directions(o.theta, t, i);
    assert ds == [o.theta > 0] + Directions(o'.theta, t, i + 1);
  }

  /** The branch directions of the seven steps of `Cordic`: a function of theta0 and the table only. */
  function CordicDirections(theta0: Angle, t: AngleTable): (ds: seq<bool>)
    ensures |ds| == 7
  {
    Directions(PreTheta(theta0), t, 0)
  }

  /**
   The output angle of `Cordic` depends only on theta0 and the table, and the
   output vector is the pre-rotated input vector driven through the
   directions `CordicDirections(theta0, t)`, then scaled.
   */
  lemma CordicFactors(x0: Data, y0: Data, theta0: Angle, t: AngleTable)
    ensures Cordic(x0, y0, theta0, t).theta == ThetaSteps(PreTheta(theta0), t, 0)
    ensures var c := PreRotation(x0, y0, theta0);
            var v := VectorSteps(c.x, c.y, CordicDirections(theta0, t), 0);
            Cordic(x0, y0, theta0, t).x == ScaleByFactor(v.0) && Cordic(x0, y0, theta0, t).y == ScaleByFactor(v.1)
  {
    CordicIsSevenSteps(x0, y0, theta0, t);
    StepsSplit(PreRotation(x0, y0, theta0), t, 0);
  }

  /** Changing the input vector never changes the output angle. */
  lemma CordicThetaIndependent(x0: Data, y0: Data, x1: Data, y1: Data, theta0: Angle, t: AngleTable)
    ensures Cordic(x0, y0, theta0, t).theta == Cordic(x1, y1, theta0, t).theta
  {
    CordicFactors(x0, y0, theta0, t);
    CordicFactors(x1, y1, theta0, t);
  }

  lemma {:induction false} VectorStepsZero(ds: seq<bool>, i: nat)
    requires i <= 7 && |ds| == 7 - i
    ensures VectorSteps(0, 0, ds, i) == (0, 0)
    decreases 7 - i
  {
    if i < 7 {
      assert ShiftRight(0, i) == 0;
      VectorStepsZero(ds[1..], i + 1);
    }
  }

  /** The zero vector stays zero, whatever the angle. */
  lemma CordicOfZero(theta0: Angle, t: AngleTable)
    ensures Cordic(0, 0, theta0, t).x == 0 && Cordic(0, 0, theta0, t).y == 0
  {
    NegateExact(0);
    var p := PreRotation(0, 0, theta0);
    assert p.x == 0 && p.y == 0;
    var ds := CordicDirections(theta0, t);
    VectorStepsZero(ds, 0);
    assert ScaleByFactor(0) == 0;
    CordicFactors(0, 0, theta0, t);
  }
}
