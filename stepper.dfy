/** The `StepperL298N` driver: four pins, a hold time, a step count and the
    4x4 commutation table, talking to the hardware through a `Board`. */
module Driver {
  import opened Hal
  import opened Commutation
  import Speed

  class StepperL298N {
    const pin1: int
    const pin2: int
    const pin3: int
    const pin4: int
    var stepDelay: int
    const stepsPerRevolution: int
    const stepSequence: array2<int>
    /** The Arduino I/O layer, which the original reaches through global functions. */
    const board: Board

    /** `stepSequence` holds exactly the rows of `Sequence`. */
    ghost predicate TableValid()
      reads stepSequence
    {
      stepSequence.Length0 == 4 && stepSequence.Length1 == 4 &&
      forall i, j :: 0 <= i < 4 && 0 <= j < 4 ==> stepSequence[i, j] == Sequence[i][j]
    }

    /** The table holds the fixed commutation rows, the hold time is at least 1 ms
        (50 at construction, and `SetSpeed` clamps), and the board's levels match its trace. */
    ghost predicate Valid()
      reads this, stepSequence, board
    {
      TableValid() && stepDelay >= Speed.MinDelay && board.Valid()
    }

    /** pin1..pin4, in the order rows are written. */
    function Pins(): seq<int>
    {
      [pin1, pin2, pin3, pin4]
    }

    /** Stores the geometry and pins, fills the table, configures the four pins as
        outputs and drives them LOW. `steps` is not checked. */
    constructor (steps: int, p1: int, p2: int, p3: int, p4: int, board: Board)
      requires board.Valid()
      modifies board
      ensures Valid() && fresh(stepSequence) && this.board == board
      ensures stepsPerRevolution == steps && Pins() == [p1, p2, p3, p4]
      ensures stepDelay == Speed.DefaultDelay
      ensures board.trace == old(board.trace) + [Output(p1), Output(p2), Output(p3), Output(p4)]
                             + StopEvents([p1, p2, p3, p4])
      ensures board.levels == old(board.levels)[p1 := LOW][p2 := LOW][p3 := LOW][p4 := LOW]
      ensures AllLow(board.levels, Pins())
    {
      stepsPerRevolution := steps;
      pin1, pin2, pin3, pin4 := p1, p2, p3, p4;
      stepDelay := Speed.DefaultDelay;
      stepSequence := new int[4, 4];
      this.board := board;
      new;
      FillStepSequence();
      ghost var before := board.trace;
      board.PinMode(pin1);
      board.PinMode(pin2);
      assert board.trace == before + [Output(p1), Output(p2)];
      board.PinMode(pin3);
      board.PinMode(pin4);
      assert board.trace == before + [Output(p1), Output(p2), Output(p3), Output(p4)];
      StopMotor();
    }

    /** Fills the table with rows 1010, 0110, 0101, 1001, element by element. */
    method FillStepSequence()
      requires stepSequence.Length0 == 4 && stepSequence.Length1 == 4
      modifies stepSequence
      ensures TableValid()
    {
      stepSequence[0, 0], stepSequence[0, 1], stepSequence[0, 2], stepSequence[0, 3] := 1, 0, 1, 0;
      stepSequence[1, 0], stepSequence[1, 1], stepSequence[1, 2], stepSequence[1, 3] := 0, 1, 1, 0;
      stepSequence[2, 0], stepSequence[2, 1], stepSequence[2, 2], stepSequence[2, 3] := 0, 1, 0, 1;
      stepSequence[3, 0], stepSequence[3, 1], stepSequence[3, 2], stepSequence[3, 3] := 1, 0, 0, 1;
      forall i, j | 0 <= i < 4 && 0 <= j < 4
        ensures stepSequence[i, j] == Sequence[i][j]
      {
        assert i == 0 || i == 1 || i == 2 || i == 3;
        assert j == 0 || j == 1 || j == 2 || j == 3;
      }
    }

    /** A positive `rpm` sets the hold time to `60000 / (stepsPerRevolution * rpm * 4)`,
        at least 1 ms; any other `rpm` is ignored. */
    method SetSpeed(rpm: int)
      requires Valid()
      requires rpm > 0 ==> stepsPerRevolution != 0
      modifies this`stepDelay
      ensures Valid() && unchanged(board)
      ensures rpm <= 0 ==> stepDelay == old(stepDelay)
      ensures rpm > 0 ==> stepDelay == Speed.StepDelayFor(stepsPerRevolution, rpm)
    {
      if rpm > 0 {
        stepDelay := Speed.TruncDiv(Speed.MsPerMinute, stepsPerRevolution * rpm * Speed.RowsPerStep);
        if stepDelay < Speed.MinDelay {
          stepDelay := Speed.MinDelay;
        }
      }
    }

    /** Dispatch on the sign of `steps`: forward, backward (`-steps` cycles), or nothing. */
    method Step(steps: int)
      requires Valid()
      modifies board
      ensures Valid()
      ensures steps > 0 ==> board.trace == old(board.trace) + ClockwiseEvents(Pins(), stepDelay, steps)
      ensures steps < 0 ==> board.trace == old(board.trace) + CounterClockwiseEvents(Pins(), stepDelay, -steps)
      ensures steps == 0 ==> unchanged(board)
      ensures steps != 0 ==> AllLow(board.levels, Pins())
    {
      if steps > 0 {
        StepClockwise(steps);
      } else if steps < 0 {
        StepCounterClockwise(-steps);
      }
    }

    /** `steps` forward cycles (rows 0, 1, 2, 3, each held `stepDelay` ms), then stop. */
    method StepClockwise(steps: int)
      requires Valid()
      modifies board
      ensures Valid()
      ensures board.trace == old(board.trace) + ClockwiseEvents(Pins(), stepDelay, steps)
      ensures board.levels == Replay(old(board.levels), ClockwiseEvents(Pins(), stepDelay, steps))
      ensures AllLow(board.levels, Pins())
    {
      ghost var cycle := CycleEvents(Pins(), Forward, stepDelay);
      var i := 0;
      while i < steps
        invariant 0 <= i <= Max0(steps)
        invariant Valid()
        invariant board.trace == old(board.trace) + Repeat(i, cycle)
      {
        ghost var base := board.trace;
        for j := 0 to 4
          invariant Valid()
          invariant board.trace == base + CycleEvents(Pins(), Forward[..j], stepDelay)
        {
          CycleGrows(base, board.trace, Pins(), Forward, stepDelay, j);
          ExecuteStep(j);
          board.Wait(stepDelay);
        }
        CyclesGrow(old(board.trace), base, Pins(), Forward, stepDelay, i);
        i := i + 1;
      }
      StopMotor();
      assert i == Max0(steps);
      AppendAssociative(old(board.trace), Repeat(i, cycle), StopEvents(Pins()));
      ReplayAppend(board.start, old(board.trace), ClockwiseEvents(Pins(), stepDelay, steps));
      EndsLow(old(board.levels), Repeat(i, cycle), Pins());
    }

    /** `steps` backward cycles (rows 3, 2, 1, 0, each held `stepDelay` ms), then stop. */
    method StepCounterClockwise(steps: int)
      requires Valid()
      modifies board
      ensures Valid()
      ensures board.trace == old(board.trace) + CounterClockwiseEvents(Pins(), stepDelay, steps)
      ensures board.levels == Replay(old(board.levels), CounterClockwiseEvents(Pins(), stepDelay, steps))
      ensures AllLow(board.levels, Pins())
    {
      ghost var cycle := CycleEvents(Pins(), Backward, stepDelay);
      var i := 0;
      while i < steps
        invariant 0 <= i <= Max0(steps)
        invariant Valid()
        invariant board.trace == old(board.trace) + Repeat(i, cycle)
      {
        ghost var base := board.trace;
        var j := 3;
        while j >= 0
          invariant -1 <= j <= 3
          invariant Valid()
          invariant board.trace == base + CycleEvents(Pins(), Backward[..3 - j], stepDelay)
        {
          CycleGrows(base, board.trace, Pins(), Backward, stepDelay, 3 - j);
          assert Backward[3 - j] == j;
          ExecuteStep(j);
          board.Wait(stepDelay);
          j := j - 1;
        }
        CyclesGrow(old(board.trace), base, Pins(), Backward, stepDelay, i);
        i := i + 1;
      }
      StopMotor();
      assert i == Max0(steps);
      AppendAssociative(old(board.trace), Repeat(i, cycle), StopEvents(Pins()));
      ReplayAppend(board.start, old(board.trace), CounterClockwiseEvents(Pins(), stepDelay, steps));
      EndsLow(old(board.levels), Repeat(i, cycle), Pins());
    }

    /** Writes row `stepIndex` of the table to pin1..pin4. */
    method ExecuteStep(stepIndex: int)
      requires Valid() && 0 <= stepIndex < 4
      modifies board
      ensures Valid()
      ensures board.trace == old(board.trace) + RowEvents(Pins(), Sequence[stepIndex])
      ensures board.levels == old(board.levels)[pin1 := Sequence[stepIndex][0]][pin2 := Sequence[stepIndex][1]]
                                               [pin3 := Sequence[stepIndex][2]][pin4 := Sequence[stepIndex][3]]
      ensures Distinct(Pins()) ==> HighCount(board.levels, Pins()) == 2
    {
      board.DigitalWrite(pin1, stepSequence[stepIndex, 0]);
      board.DigitalWrite(pin2, stepSequence[stepIndex, 1]);
      board.DigitalWrite(pin3, stepSequence[stepIndex, 2]);
      board.DigitalWrite(pin4, stepSequence[stepIndex, 3]);
      if Distinct(Pins()) {
        RowLevels(old(board.levels), Pins(), Sequence[stepIndex]);
        RowEnergisesTwo(old(board.levels), Pins(), stepIndex);
      }
      AppendFour(old(board.trace), Write(pin1, stepSequence[stepIndex, 0]), Write(pin2, stepSequence[stepIndex, 1]),
                 Write(pin3, stepSequence[stepIndex, 2]), Write(pin4, stepSequence[stepIndex, 3]));
    }

    /** Drives all four pins LOW. */
    method StopMotor()
      requires Valid()
      modifies board
      ensures Valid()
      ensures board.trace == old(board.trace) + StopEvents(Pins())
      ensures board.levels == old(board.levels)[pin1 := LOW][pin2 := LOW][pin3 := LOW][pin4 := LOW]
      ensures AllLow(board.levels, Pins())
    {
      board.DigitalWrite(pin1, LOW);
      board.DigitalWrite(pin2, LOW);
      board.DigitalWrite(pin3, LOW);
      board.DigitalWrite(pin4, LOW);
      AppendFour(old(board.trace), Write(pin1, LOW), Write(pin2, LOW), Write(pin3, LOW), Write(pin4, LOW));
      StopIdempotent(old(board.levels), Pins());
      RowLevels(old(board.levels), Pins(), [LOW, LOW, LOW, LOW]);
    }
  }

  /** A typical client: 200 steps per revolution on pins 1..4, 60 RPM, then two
      clockwise steps. */
  method ScenarioTwoSteps()
  {
    var board := new Board(map[]);
    var motor := new StepperL298N(200, 1, 2, 3, 4, board);
    assert AllLow(board.levels, [1, 2, 3, 4]);
    motor.SetSpeed(60);
    Speed.StepDelayExamples();
    assert motor.stepDelay == 1;
    ghost var before := board.trace;
    motor.Step(2);
    MotionTotals([1, 2, 3, 4], 1, 2);
    TotalDelayAppend(before, ClockwiseEvents([1, 2, 3, 4], 1, 2));
    ClockwiseEventAt([1, 2, 3, 4], 1, 2, 1, 3, 4);
    assert |board.trace| == |before| + 44;
    assert TotalDelay(board.trace) == TotalDelay(before) + 8;
    assert board.trace[|before| + 39] == Delay(1);
    assert AllLow(board.levels, [1, 2, 3, 4]);
  }
}
