/** The commutation table and the exact sequence of Arduino calls each motion
    command makes, as functions of the pins, the hold time and the count. */
module Commutation {
  import opened Hal

  /** The four levels written to pin1..pin4 in one go. */
  type Pattern = r: seq<int> | |r| == 4 witness [LOW, LOW, LOW, LOW]

  /** Row `j` gives the levels written to pin1..pin4 for commutation step `j`. */
  const Sequence: seq<Pattern> := [[1, 0, 1, 0], [0, 1, 1, 0], [0, 1, 0, 1], [1, 0, 0, 1]]

  /** An index into the table. */
  type Row = j: int | 0 <= j < 4

  /** Row orders of one clockwise and one counter-clockwise caller-visible step. */
  const Forward: seq<Row> := [0, 1, 2, 3]
  const Backward: seq<Row> := [3, 2, 1, 0]

  /** Number of HIGH entries in a row. */
  function Ones(row: seq<int>): nat
    decreases |row|
  {
    if row == [] then 0 else (if row[0] == HIGH then 1 else 0) + Ones(row[1..])
  }

  /** Number of positions where two rows of equal length differ. */
  function Distance(r1: seq<int>, r2: seq<int>): nat
    requires |r1| == |r2|
    decreases |r1|
  {
    if r1 == [] then 0 else Distance(r1[1..], r2[1..]) + (if r1[0] != r2[0] then 1 else 0)
  }

  /** Every row is a 0/1 pattern with exactly two HIGH entries. */
  lemma RowsHaveTwoHigh(j: int)
    requires 0 <= j < 4
    ensures |Sequence[j]| == 4
    ensures forall k :: 0 <= k < 4 ==> Sequence[j][k] == LOW || Sequence[j][k] == HIGH
    ensures Ones(Sequence[j]) == 2
  {
  }

  /** Cyclically adjacent rows differ in exactly two positions (not one). */
  lemma AdjacentRowsDifferInTwo()
    ensures Distance(Sequence[0], Sequence[1]) == 2
    ensures Distance(Sequence[1], Sequence[2]) == 2
    ensures Distance(Sequence[2], Sequence[3]) == 2
    ensures Distance(Sequence[3], Sequence[0]) == 2
  {
  }

  /** The four writes that apply `row` to the four pins, in pin order. */
  function RowEvents(pins: seq<int>, row: seq<int>): seq<Event>
    requires |pins| == 4 && |row| == 4
  {
    [Write(pins[0], row[0]), Write(pins[1], row[1]), Write(pins[2], row[2]), Write(pins[3], row[3])]
  }

  /** The four LOW writes of `stopMotor`. */
  function StopEvents(pins: seq<int>): seq<Event>
    requires |pins| == 4
  {
    RowEvents(pins, [LOW, LOW, LOW, LOW])
  }

  /** One commutation step: row `j` written, then held for `delay` ms. */
  function StepEvents(pins: seq<int>, j: int, delay: int): seq<Event>
    requires |pins| == 4 && 0 <= j < 4
  {
    RowEvents(pins, Sequence[j]) + [Delay(delay)]
  }

  /** The commutation steps of the rows in `order`, one after the other. */
  function CycleEvents(pins: seq<int>, order: seq<Row>, delay: int): seq<Event>
    requires |pins| == 4
    decreases |order|
  {
    if order == [] then []
    else CycleEvents(pins, order[..|order| - 1], delay) + StepEvents(pins, order[|order| - 1], delay)
  }

  /** `n` copies of `s`. */
  function Repeat(n: nat, s: seq<Event>): seq<Event>
  {
    if n == 0 then [] else Repeat(n - 1, s) + s
  }

  function Max0(n: int): nat
  {
    if n < 0 then 0 else n
  }

  /** The calls of `stepClockwise(n)`: `n` forward cycles (none when `n <= 0`), then stop. */
  function ClockwiseEvents(pins: seq<int>, delay: int, n: int): seq<Event>
    requires |pins| == 4
  {
    Repeat(Max0(n), CycleEvents(pins, Forward, delay)) + StopEvents(pins)
  }

  /** The calls of `stepCounterClockwise(n)`: `n` backward cycles, then stop. */
  function CounterClockwiseEvents(pins: seq<int>, delay: int, n: int): seq<Event>
    requires |pins| == 4
  {
    Repeat(Max0(n), CycleEvents(pins, Backward, delay)) + StopEvents(pins)
  }

  // ---------------------------------------------------------------------------
  // Shape of the traces

  lemma {:induction false} CycleEventAt(pins: seq<int>, order: seq<Row>, delay: int, j: int, k: int)
    requires |pins| == 4
    requires 0 <= j < |order| && 0 <= k < 5
    ensures |CycleEvents(pins, order, delay)| == 5 * |order|
    ensures CycleEvents(pins, order, delay)[5 * j + k] == StepEvents(pins, order[j], delay)[k]
    decreases |order|
  {
    var init := order[..|order| - 1];
    if j < |order| - 1 {
      CycleEventAt(pins, init, delay, j, k);
    } else if |order| > 1 {
      CycleEventAt(pins, init, delay, 0, 0);
    }
  }

  /** Extending a prefix of a row order by one row appends that row's step. */
  lemma CyclePrefixStep(pins: seq<int>, order: seq<Row>, delay: int, j: int)
    requires |pins| == 4 && 0 <= j < |order|
    ensures CycleEvents(pins, order[..j + 1], delay)
            == CycleEvents(pins, order[..j], delay) + StepEvents(pins, order[j], delay)
  {
    assert order[..j + 1][..j] == order[..j];
  }

  /** A trace that has done the first `j` rows of `order`, followed by row `order[j]`
      and its hold, has done the first `j + 1` rows. */
  lemma CycleGrows(base: seq<Event>, t: seq<Event>, pins: seq<int>, order: seq<Row>, delay: int, j: int)
    requires |pins| == 4 && 0 <= j < |order|
    requires t == base + CycleEvents(pins, order[..j], delay)
    ensures t + RowEvents(pins, Sequence[order[j]]) + [Delay(delay)]
            == base + CycleEvents(pins, order[..j + 1], delay)
  {
    CyclePrefixStep(pins, order, delay, j);
    AppendAssociative(t, RowEvents(pins, Sequence[order[j]]), [Delay(delay)]);
    AppendAssociative(base, CycleEvents(pins, order[..j], delay), StepEvents(pins, order[j], delay));
  }

  /** A trace that has done `i` full cycles and then one more has done `i + 1`. */
  lemma CyclesGrow(start: seq<Event>, base: seq<Event>, pins: seq<int>, order: seq<Row>, delay: int, i: nat)
    requires |pins| == 4
    requires base == start + Repeat(i, CycleEvents(pins, order, delay))
    ensures base + CycleEvents(pins, order[..|order|], delay)
            == start + Repeat(i + 1, CycleEvents(pins, order, delay))
  {
    assert order[..|order|] == order;
    AppendAssociative(start, Repeat(i, CycleEvents(pins, order, delay)), CycleEvents(pins, order, delay));
  }

  lemma {:induction false} RepeatLength(n: nat, s: seq<Event>)
    ensures |Repeat(n, s)| == n * |s|
  {
    if n > 0 {
      RepeatLength(n - 1, s);
      assert (n - 1) * |s| + |s| == n * |s|;
    }
  }

  /** Block `i` of `n` blocks of `len` events ends before block `n - 1` starts. */
  lemma BlockBefore(i: int, n: int, len: int, k: int)
    requires 0 <= i < n - 1 && 0 <= k < len
    ensures i * len + k < (n - 1) * len
  {
    var d := n - 1 - i;
    assert (n - 1) * len == i * len + d * len;
    assert d * len == (d - 1) * len + len;
    MulNonnegative(d - 1, len);
  }

  lemma MulNonnegative(a: nat, b: nat)
    ensures a * b >= 0
  {
  }

  lemma {:induction false} RepeatAt(n: nat, s: seq<Event>, i: int, k: int)
    requires 0 <= i < n && 0 <= k < |s|
    ensures |Repeat(n, s)| == n * |s|
    ensures Repeat(n, s)[i * |s| + k] == s[k]
  {
    RepeatLength(n, s);
    RepeatLength(n - 1, s);
    var front := Repeat(n - 1, s);
    assert Repeat(n, s) == front + s;
    if i < n - 1 {
      RepeatAt(n - 1, s, i, k);
      BlockBefore(i, n, |s|, k);
    } else {
      assert i * |s| == |front|;
    }
  }

  /** `stepClockwise(n)` writes row `j` in block `5*j` of cycle `i` (rows in order
      0, 1, 2, 3), each followed by one hold, and ends with four LOW writes. */
  lemma ClockwiseEventAt(pins: seq<int>, delay: int, n: int, i: int, j: int, k: int)
    requires |pins| == 4 && 0 <= i < n && 0 <= j < 4 && 0 <= k < 5
    ensures |ClockwiseEvents(pins, delay, n)| == 20 * n + 4
    ensures ClockwiseEvents(pins, delay, n)[20 * i + 5 * j + k] == StepEvents(pins, j, delay)[k]
  {
    var cycle := CycleEvents(pins, Forward, delay);
    CycleEventAt(pins, Forward, delay, j, k);
    RepeatAt(n, cycle, i, 5 * j + k);
  }

  /** `stepCounterClockwise(n)` writes the rows in order 3, 2, 1, 0: row `3 - j` in
      block `5*j` of every cycle. */
  lemma CounterClockwiseEventAt(pins: seq<int>, delay: int, n: int, i: int, j: int, k: int)
    requires |pins| == 4 && 0 <= i < n && 0 <= j < 4 && 0 <= k < 5
    ensures |CounterClockwiseEvents(pins, delay, n)| == 20 * n + 4
    ensures CounterClockwiseEvents(pins, delay, n)[20 * i + 5 * j + k] == StepEvents(pins, 3 - j, delay)[k]
  {
    var cycle := CycleEvents(pins, Backward, delay);
    CycleEventAt(pins, Backward, delay, j, k);
    RepeatAt(n, cycle, i, 5 * j + k);
  }

  /** The two directions replay the same rows in mirrored order: block `j` of a
      counter-clockwise cycle is block `3 - j` of a clockwise one. */
  lemma DirectionsMirror(pins: seq<int>, delay: int, n: int, i: int, j: int, k: int)
    requires |pins| == 4 && 0 <= i < n && 0 <= j < 4 && 0 <= k < 5
    ensures |CounterClockwiseEvents(pins, delay, n)| == |ClockwiseEvents(pins, delay, n)| == 20 * n + 4
    ensures CounterClockwiseEvents(pins, delay, n)[20 * i + 5 * j + k]
            == ClockwiseEvents(pins, delay, n)[20 * i + 5 * (3 - j) + k]
  {
    CounterClockwiseEventAt(pins, delay, n, i, j, k);
    ClockwiseEventAt(pins, delay, n, i, 3 - j, k);
  }

  /** Both motions end with exactly the stop writes, whatever `n` is; for `n <= 0`
      the stop writes are all they do. */
  lemma MotionEndsWithStop(pins: seq<int>, delay: int, n: int)
    requires |pins| == 4
    ensures n <= 0 ==> ClockwiseEvents(pins, delay, n) == StopEvents(pins)
    ensures n <= 0 ==> CounterClockwiseEvents(pins, delay, n) == StopEvents(pins)
    ensures var cw := ClockwiseEvents(pins, delay, n);
            |cw| == 20 * Max0(n) + 4 && cw[|cw| - 4..] == StopEvents(pins)
    ensures var ccw := CounterClockwiseEvents(pins, delay, n);
            |ccw| == 20 * Max0(n) + 4 && ccw[|ccw| - 4..] == StopEvents(pins)
  {
    if n > 0 {
      CycleEventAt(pins, Forward, delay, 0, 0);
      RepeatAt(Max0(n), CycleEvents(pins, Forward, delay), 0, 0);
      CycleEventAt(pins, Backward, delay, 0, 0);
      RepeatAt(Max0(n), CycleEvents(pins, Backward, delay), 0, 0);
    }
  }

  // ---------------------------------------------------------------------------
  // Totals: time and writes

  /** One commutation step: four writes and one hold of `delay` ms. */
  lemma StepTotals(pins: seq<int>, j: Row, delay: int)
    requires |pins| == 4
    ensures TotalDelay(StepEvents(pins, j, delay)) == delay
    ensures WriteCount(StepEvents(pins, j, delay)) == 4
  {
    var row := RowEvents(pins, Sequence[j]);
    WritesOnlyTotals(row);
    assert [Delay(delay)][..0] == [];
    TotalDelayAppend(row, [Delay(delay)]);
    WriteCountAppend(row, [Delay(delay)]);
  }

  lemma {:induction false} CycleTotals(pins: seq<int>, order: seq<Row>, delay: int)
    requires |pins| == 4
    ensures TotalDelay(CycleEvents(pins, order, delay)) == |order| * delay
    ensures WriteCount(CycleEvents(pins, order, delay)) == 4 * |order|
    decreases |order|
  {
    if order != [] {
      var init := order[..|order| - 1];
      var last := StepEvents(pins, order[|order| - 1], delay);
      CycleTotals(pins, init, delay);
      StepTotals(pins, order[|order| - 1], delay);
      TotalDelayAppend(CycleEvents(pins, init, delay), last);
      WriteCountAppend(CycleEvents(pins, init, delay), last);
      assert |init| * delay + delay == |order| * delay;
    }
  }

  lemma {:induction false} RepeatTotals(n: nat, s: seq<Event>)
    ensures TotalDelay(Repeat(n, s)) == n * TotalDelay(s)
    ensures WriteCount(Repeat(n, s)) == n * WriteCount(s)
  {
    if n > 0 {
      RepeatTotals(n - 1, s);
      TotalDelayAppend(Repeat(n - 1, s), s);
      WriteCountAppend(Repeat(n - 1, s), s);
      var td, wc := TotalDelay(s), WriteCount(s);
      assert (n - 1) * td + td == n * td;
      assert (n - 1) * wc + wc == n * wc;
    }
  }

  lemma StopTotals(pins: seq<int>)
    requires |pins| == 4
    ensures TotalDelay(StopEvents(pins)) == 0 && WriteCount(StopEvents(pins)) == 4
  {
    WritesOnlyTotals(StopEvents(pins));
  }

  /** A motion of `n` steps requests `4 * max(n, 0) * delay` ms of holding in total
      and makes `16 * max(n, 0) + 4` pin writes, in either direction. */
  lemma MotionTotals(pins: seq<int>, delay: int, n: int)
    requires |pins| == 4
    ensures TotalDelay(ClockwiseEvents(pins, delay, n)) == 4 * Max0(n) * delay
    ensures TotalDelay(CounterClockwiseEvents(pins, delay, n)) == 4 * Max0(n) * delay
    ensures WriteCount(ClockwiseEvents(pins, delay, n)) == 16 * Max0(n) + 4
    ensures WriteCount(CounterClockwiseEvents(pins, delay, n)) == 16 * Max0(n) + 4
  {
    StopTotals(pins);
    CycleTotals(pins, Forward, delay);
    CycleTotals(pins, Backward, delay);
    var cw := CycleEvents(pins, Forward, delay);
    var ccw := CycleEvents(pins, Backward, delay);
    RepeatTotals(Max0(n), cw);
    RepeatTotals(Max0(n), ccw);
    TotalDelayAppend(Repeat(Max0(n), cw), StopEvents(pins));
    TotalDelayAppend(Repeat(Max0(n), ccw), StopEvents(pins));
    WriteCountAppend(Repeat(Max0(n), cw), StopEvents(pins));
    WriteCountAppend(Repeat(Max0(n), ccw), StopEvents(pins));
    assert Max0(n) * (4 * delay) == 4 * Max0(n) * delay;
    assert Max0(n) * 16 == 16 * Max0(n);
  }

  // ---------------------------------------------------------------------------
  // Pin levels

  /** After `RowEvents`, the pins read the row's values, last write winning. */
  lemma RowLevels(levels: map<int, int>, pins: seq<int>, row: seq<int>)
    requires |pins| == 4 && |row| == 4
    ensures Replay(levels, RowEvents(pins, row))
            == levels[pins[0] := row[0]][pins[1] := row[1]][pins[2] := row[2]][pins[3] := row[3]]
  {
    var e := RowEvents(pins, row);
    assert e[..3] == [Write(pins[0], row[0]), Write(pins[1], row[1]), Write(pins[2], row[2])];
    assert e[..2] == [Write(pins[0], row[0]), Write(pins[1], row[1])];
    assert e[..1] == [Write(pins[0], row[0])];
    assert e[..3][..2] == e[..2] && e[..2][..1] == e[..1] && e[..1][..0] == [];
    assert Replay(levels, e[..1]) == levels[pins[0] := row[0]];
    assert Replay(levels, e[..2]) == levels[pins[0] := row[0]][pins[1] := row[1]];
    assert Replay(levels, e[..3]) == levels[pins[0] := row[0]][pins[1] := row[1]][pins[2] := row[2]];
  }

  /** After the stop writes every pin reads LOW, and stopping again changes nothing. */
  lemma StopIdempotent(levels: map<int, int>, pins: seq<int>)
    requires |pins| == 4
    ensures AllLow(Replay(levels, StopEvents(pins)), pins)
    ensures Replay(Replay(levels, StopEvents(pins)), StopEvents(pins)) == Replay(levels, StopEvents(pins))
  {
    var once := Replay(levels, StopEvents(pins));
    RowLevels(levels, pins, [LOW, LOW, LOW, LOW]);
    RowLevels(once, pins, [LOW, LOW, LOW, LOW]);
    assert once == levels[pins[0] := LOW][pins[1] := LOW][pins[2] := LOW][pins[3] := LOW];
  }

  /** Any trace that ends with the stop writes leaves every pin LOW. */
  lemma EndsLow(levels: map<int, int>, prefix: seq<Event>, pins: seq<int>)
    requires |pins| == 4
    ensures AllLow(Replay(levels, prefix + StopEvents(pins)), pins)
  {
    ReplayAppend(levels, prefix, StopEvents(pins));
    StopIdempotent(Replay(levels, prefix), pins);
  }

  predicate Distinct(pins: seq<int>)
  {
    forall a, b :: 0 <= a < b < |pins| ==> pins[a] != pins[b]
  }

  /** When each pin reads HIGH exactly where `row` holds HIGH, the pins at HIGH
      number the row's HIGH entries. */
  lemma {:induction false} HighCountFollowsRow(levels: map<int, int>, pins: seq<int>, row: seq<int>)
    requires |pins| == |row|
    requires forall k :: 0 <= k < |pins| ==> pins[k] in levels && (levels[pins[k]] == HIGH <==> row[k] == HIGH)
    ensures HighCount(levels, pins) == Ones(row)
    decreases |pins|
  {
    if pins != [] {
      HighCountFollowsRow(levels, pins[1..], row[1..]);
    }
  }

  /** With four distinct pins, applying row `j` energises exactly two of them. */
  lemma RowEnergisesTwo(levels: map<int, int>, pins: seq<int>, j: int)
    requires |pins| == 4 && Distinct(pins) && 0 <= j < 4
    ensures HighCount(Replay(levels, RowEvents(pins, Sequence[j])), pins) == 2
  {
    var after := Replay(levels, RowEvents(pins, Sequence[j]));
    RowLevels(levels, pins, Sequence[j]);
    assert forall k :: 0 <= k < 4 ==> pins[k] in after && after[pins[k]] == Sequence[j][k];
    HighCountFollowsRow(after, pins, Sequence[j]);
    RowsHaveTwoHigh(j);
  }
}
