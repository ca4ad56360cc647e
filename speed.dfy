/** The arithmetic of `setSpeed`: from a speed in RPM to the hold time of one
    commutation row, in milliseconds. */
module Speed {

  /** The hold time a freshly constructed driver uses. */
  const DefaultDelay: int := 50

  /** The smallest hold time `setSpeed` ever stores. */
  const MinDelay: int := 1

  /** Milliseconds in one minute: the numerator of the speed formula. */
  const MsPerMinute: int := 60000

  /** Commutation rows per caller-visible step. */
  const RowsPerStep: int := 4

  function Abs(x: int): (r: nat)
    ensures r == x || r == -x
  {
    if x < 0 then -x else x
  }

  /** C's integer division, which truncates toward zero (Dafny's `/` is Euclidean):
      the magnitude is the floor of the magnitudes' quotient, the sign the product of
      the operands' signs. */
  function TruncDiv(a: int, b: int): (q: int)
    requires b != 0
    ensures Abs(q) == Abs(a) / Abs(b)
    ensures q == 0 || (q < 0 <==> (a < 0) != (b < 0))
  {
    var m := Abs(a) / Abs(b);
    assert m >= 0 && (m == 0 <==> Abs(a) < Abs(b)) by { DivMagnitude(Abs(a), Abs(b)); }
    if (a < 0) == (b < 0) then m else -m
  }

  lemma DivMagnitude(x: nat, y: nat)
    requires y > 0
    ensures x / y >= 0 && (x / y == 0 <==> x < y)
  {
    var q, r := x / y, x % y;
    assert x == q * y + r && 0 <= r < y;
    if q < 0 {
      MulMonotone(q, -1, y);
    } else if q >= 1 {
      MulMonotone(1, q, y);
    }
  }

  /** The value `setSpeed(rpm)` stores: `60000 / (stepsPerRevolution * rpm * 4)`
      in C division, raised to at least one millisecond. */
  function StepDelayFor(steps: int, rpm: int): (d: int)
    requires rpm > 0 && steps != 0
    ensures d >= MinDelay
  {
    var q := TruncDiv(MsPerMinute, steps * rpm * RowsPerStep);
    if q < MinDelay then MinDelay else q
  }

  /** Cancelling a positive factor from a strict inequality between products. */
  lemma MulCancelLt(u: int, v: int, x: int)
    requires x > 0 && u * x < v * x
    ensures u < v
  {
    if u >= v {
      MulMonotone(v, u, x);
    }
  }

  lemma MulMonotone(u: int, v: int, x: int)
    requires x >= 0 && u <= v
    ensures u * x <= v * x
  {
  }

  /** A larger divisor never gives a larger quotient. */
  lemma DivAntitone(a: nat, x: int, y: int)
    requires 0 < x <= y
    ensures a / y <= a / x
  {
    var qx, qy := a / x, a / y;
    MulMonotone(x, y, qy);
    assert qy * x <= a < (qx + 1) * x;
    MulCancelLt(qy, qx + 1, x);
  }

  /** For a positive step count the stored value is `max(1, 60000 / (steps * rpm * 4))`. */
  lemma StepDelayPositive(steps: int, rpm: int)
    requires steps > 0 && rpm > 0
    ensures steps * rpm * RowsPerStep > 0
    ensures StepDelayFor(steps, rpm)
            == if MsPerMinute / (steps * rpm * RowsPerStep) < 1 then 1
               else MsPerMinute / (steps * rpm * RowsPerStep)
  {
    assert steps * rpm > 0;
  }

  /** A faster speed never gives a longer hold time. */
  lemma {:induction false} StepDelayAntitoneInRpm(steps: int, rpm1: int, rpm2: int)
    requires steps > 0 && 0 < rpm1 <= rpm2
    ensures StepDelayFor(steps, rpm2) <= StepDelayFor(steps, rpm1)
  {
    StepDelayPositive(steps, rpm1);
    StepDelayPositive(steps, rpm2);
    assert steps * rpm1 <= steps * rpm2;
    DivAntitone(MsPerMinute, steps * rpm1 * RowsPerStep, steps * rpm2 * RowsPerStep);
  }

  /** A finer motor (more steps per revolution) never gives a longer hold time. */
  lemma {:induction false} StepDelayAntitoneInSteps(steps1: int, steps2: int, rpm: int)
    requires 0 < steps1 <= steps2 && rpm > 0
    ensures StepDelayFor(steps2, rpm) <= StepDelayFor(steps1, rpm)
  {
    StepDelayPositive(steps1, rpm);
    StepDelayPositive(steps2, rpm);
    assert steps1 * rpm <= steps2 * rpm;
    DivAntitone(MsPerMinute, steps1 * rpm * RowsPerStep, steps2 * rpm * RowsPerStep);
  }

  /** The one-millisecond floor is reached exactly when the divisor exceeds 30000. */
  lemma StepDelayAtFloor(steps: int, rpm: int)
    requires steps > 0 && rpm > 0
    ensures StepDelayFor(steps, rpm) == MinDelay <==> steps * rpm * RowsPerStep > MsPerMinute / 2
  {
    StepDelayPositive(steps, rpm);
    var x := steps * rpm * RowsPerStep;
    if x <= MsPerMinute / 2 {
      DivAntitone(MsPerMinute, x, MsPerMinute / 2);
    } else {
      var q := MsPerMinute / x;
      assert q * x <= MsPerMinute < 2 * x;
      MulCancelLt(q, 2, x);
    }
  }

  /** The hold time never exceeds 15000 ms (reached at one step per revolution and 1 RPM). */
  lemma StepDelayCeiling(steps: int, rpm: int)
    requires steps > 0 && rpm > 0
    ensures StepDelayFor(steps, rpm) <= MsPerMinute / RowsPerStep
  {
    StepDelayPositive(steps, rpm);
    assert steps * rpm >= 1;
    DivAntitone(MsPerMinute, RowsPerStep, steps * rpm * RowsPerStep);
  }

  /** Above the floor, a full revolution (steps * 4 rows, each held d ms) takes at most
      one minute divided by the RPM, and less than one more row's hold per RPM. */
  lemma StepDelayRevolutionTime(steps: int, rpm: int)
    requires steps > 0 && rpm > 0
    ensures var d := StepDelayFor(steps, rpm);
            d > MinDelay ==> steps * RowsPerStep * d * rpm <= MsPerMinute < steps * RowsPerStep * (d + 1) * rpm
  {
    StepDelayPositive(steps, rpm);
    var x := steps * rpm * RowsPerStep;
    var d := StepDelayFor(steps, rpm);
    if d > MinDelay {
      assert d == MsPerMinute / x;
      assert steps * RowsPerStep * d * rpm == d * x;
      assert steps * RowsPerStep * (d + 1) * rpm == (d + 1) * x;
    }
  }

  /** A negative step count makes the quotient non-positive, so the floor applies. */
  lemma StepDelayNegativeSteps(steps: int, rpm: int)
    requires steps < 0 && rpm > 0
    ensures StepDelayFor(steps, rpm) == MinDelay
  {
    var x := steps * rpm * RowsPerStep;
    assert steps * rpm < 0;
    assert x < 0;
  }

  /** 200 steps per revolution: 1 RPM holds each row 75 ms; 60 RPM reaches the 1 ms floor. */
  lemma StepDelayExamples()
    ensures StepDelayFor(200, 1) == 75
    ensures StepDelayFor(200, 60) == 1
  {
  }
}
