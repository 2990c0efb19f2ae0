/**
 `phase_correction` of the host program: fold a phase in degrees towards the
 range [-180, 180] by whole turns of 360 degrees. The host passes the result
 to the accelerator as an `angle_t` operand. Floats are modelled as reals.
 */
module HostPhase {

  /** A difference in degrees that is a whole number of turns. */
  predicate WholeTurns(d: real)
  {
    (d / 360.0).Floor as real == d / 360.0
  }

  /**
   The number of turns the two folding loops take off the phase: the first
   loop subtracts 360 while the phase is above 180, the second adds 360 while
   it is below -180 (negative count); a phase in [-180, 180] is untouched.
   */
  function Turns(p: real): int
  {
    if p > 180.0 then -((180.0 - p) / 360.0).Floor
    else if p < -180.0 then ((p + 180.0) / 360.0).Floor
    else 0
  }

  /** What `phase_correction` returns. */
  function PhaseFold(p: real): real
  {
    p - 360.0 * Turns(p) as real
  }

  /**
   The folded phase lies in [-180, 180]. From above it lands in (-180, 180];
   from below it lands in [-180, 180), so an input below -180 that is
   congruent to 180 comes out as -180.
   */
  lemma PhaseFoldRange(p: real)
    ensures -180.0 <= PhaseFold(p) <= 180.0
    ensures p > 180.0 ==> -180.0 < PhaseFold(p)
    ensures p < -180.0 ==> PhaseFold(p) < 180.0
  {
    var t := Turns(p);
    if p > 180.0 {
      var f := ((180.0 - p) / 360.0).Floor;
      assert f as real <= (180.0 - p) / 360.0 < f as real + 1.0;
      assert 360.0 * f as real <= 180.0 - p < 360.0 * f as real + 360.0;
      assert PhaseFold(p) == p + 360.0 * f as real;
    } else if p < -180.0 {
      var f := ((p + 180.0) / 360.0).Floor;
      assert f as real <= (p + 180.0) / 360.0 < f as real + 1.0;
      assert 360.0 * f as real <= p + 180.0 < 360.0 * f as real + 360.0;
      assert PhaseFold(p) == p - 360.0 * f as real;
    }
  }

  /** The folded phase differs from the input by a whole number of turns. */
  lemma PhaseFoldCongruent(p: real)
    ensures WholeTurns(PhaseFold(p) - p)
  {
    var t := Turns(p);
    assert (PhaseFold(p) - p) / 360.0 == -t as real;
    assert (-t as real).Floor == -t;
  }

  /** A phase already in [-180, 180] is returned unchanged. */
  lemma PhaseFoldFixed(p: real)
    requires -180.0 <= p <= 180.0
    ensures PhaseFold(p) == p
  {
  }

  /** Folding twice is folding once. */
  lemma PhaseFoldIdempotent(p: real)
    ensures PhaseFold(PhaseFold(p)) == PhaseFold(p)
  {
    PhaseFoldRange(p);
    PhaseFoldFixed(PhaseFold(p));
  }

  /** The two folding loops of `phase_correction`. */
  method PhaseCorrection(phase: real) returns (newPhase: real)
    ensures newPhase == PhaseFold(phase)
    ensures -180.0 <= newPhase <= 180.0
  {
    newPhase := phase;
    ghost var down: nat := 0;
    while newPhase > 180.0
      invariant newPhase == phase - 360.0 * down as real
      invariant down > 0 ==> newPhase > -180.0 && phase > 180.0
      decreases (newPhase - 180.0).Floor
    {
      newPhase := newPhase - 360.0;
      down := down + 1;
    }
    ghost var up: nat := 0;
    while newPhase < -180.0
      invariant newPhase == phase - 360.0 * down as real + 360.0 * up as real
      invariant up > 0 ==> newPhase < 180.0 && down == 0 && phase < -180.0
      decreases (-180.0 - newPhase).Floor
    {
      newPhase := newPhase + 360.0;
      up := up + 1;
    }
    PhaseFoldRange(phase);
    SameFold(phase, newPhase, up - down);
  }

  /**
   Two values that differ by whole turns and both lie in the half-open
   window the fold lands in for that input are the same value.
   */
  lemma SameFold(p: real, q: real, k: int)
    requires q == p + 360.0 * k as real
    requires p > 180.0 ==> -180.0 < q <= 180.0
    requires p < -180.0 ==> -180.0 <= q < 180.0
    requires -180.0 <= p <= 180.0 ==> k == 0
    ensures q == PhaseFold(p)
  {
    PhaseFoldRange(p);
    var d := k + Turns(p);
    assert q - PhaseFold(p) == 360.0 * d as real;
    assert -360.0 < 360.0 * d as real < 360.0;
  }
}
