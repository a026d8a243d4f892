/** `value_update`: one step of the animation that moves a displayed number
    towards its target value. Floats are modelled as mathematical reals. */
module Utils {

  /** `VALUE_UPDATE_MAX_STEPS` of the settings. */
  const ValueUpdateMaxSteps: real := 20.0

  function Abs(x: real): real {
    if x < 0.0 then -x else x
  }

  /** The length of one animation step: `max(min_step, diff / 20)`. */
  function StepSize(value: real, target: real, minStep: real): (step: real)
    ensures step >= minStep
    ensures step >= Abs(target - value) / ValueUpdateMaxSteps
    ensures step == minStep || step == Abs(target - value) / ValueUpdateMaxSteps
  {
    var diff := Abs(target - value);
    if minStep >= diff / ValueUpdateMaxSteps then minStep else diff / ValueUpdateMaxSteps
  }

  /** Returns the new value and whether the animation has ended. */
  function ValueUpdate(value: real, target: real, minStep: real): (r: (real, bool))
    ensures r.1 <==> Abs(target - value) < StepSize(value, target, minStep)
    ensures r.1 ==> r.0 == target
    ensures !r.1 ==> Abs(r.0 - value) == StepSize(value, target, minStep)
  {
    var diff := Abs(target - value);
    var step := StepSize(value, target, minStep);
    if diff < step then (target, true)
    else if target > value then (value + step, false)
    else (value - step, false)
  }

  /** A step that does not finish never overshoots: the new value lies
      between the old one and the target, and the distance to the target
      shrinks by the whole step, so by at least `minStep`. */
  lemma NoOvershoot(value: real, target: real, minStep: real)
    requires !ValueUpdate(value, target, minStep).1
    ensures var v := ValueUpdate(value, target, minStep).0;
      (value <= v <= target || target <= v <= value)
      && Abs(target - v) == Abs(target - value) - StepSize(value, target, minStep)
      && Abs(target - v) <= Abs(target - value) - minStep
  {
  }

  /** The value after at most `n` calls, stopping at the first call that
      reports the end (the timer in the GUI stops there). */
  function Animate(value: real, target: real, minStep: real, n: nat): (r: (real, bool))
    decreases n
  {
    if n == 0 then (value, false)
    else
      var (v, done) := ValueUpdate(value, target, minStep);
      if done then (v, true) else Animate(v, target, minStep, n - 1)
  }

  /** With a positive minimal step the animation ends, exactly on the
      target, within any number of calls `n` with `n * minStep` above the
      starting distance. */
  lemma {:induction false} AnimateConverges(value: real, target: real, minStep: real, n: nat)
    requires minStep > 0.0
    requires Abs(target - value) < n as real * minStep
    ensures Animate(value, target, minStep, n) == (target, true)
    decreases n
  {
    assert n != 0;
    var (v, done) := ValueUpdate(value, target, minStep);
    if !done {
      NoOvershoot(value, target, minStep);
      assert (n - 1) as real * minStep == n as real * minStep - minStep;
      AnimateConverges(v, target, minStep, n - 1);
    }
  }
}
