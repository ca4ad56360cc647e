/** The Arduino I/O the driver depends on: `pinMode`, `digitalWrite` and `delay`.
    The calls are not performed; each one is recorded as an event on a board
    object, which also keeps the level last written to every pin. */
module Hal {

  /** Arduino's LOW and HIGH pin levels. */
  const LOW: int := 0
  const HIGH: int := 1

  /** One call into the Arduino core. */
  datatype Event =
    | Output(pin: int)            // pinMode(pin, OUTPUT)
    | Write(pin: int, level: int) // digitalWrite(pin, level)
    | Delay(ms: int)              // delay(ms)

  /** The pin levels after one event: only a write changes a level. */
  function Apply(levels: map<int, int>, e: Event): map<int, int>
  {
    if e.Write? then levels[e.pin := e.level] else levels
  }

  /** The pin levels after replaying `events`, in order, on `levels`. */
  function Replay(levels: map<int, int>, events: seq<Event>): map<int, int>
    decreases |events|
  {
    if events == [] then levels
    else Apply(Replay(levels, events[..|events| - 1]), events[|events| - 1])
  }

  /** Replaying two traces one after the other is replaying their concatenation. */
  lemma {:induction false} ReplayAppend(levels: map<int, int>, a: seq<Event>, b: seq<Event>)
    ensures Replay(levels, a + b) == Replay(Replay(levels, a), b)
    decreases |b|
  {
    if b != [] {
      assert (a + b)[..|a + b| - 1] == a + b[..|b| - 1];
      ReplayAppend(levels, a, b[..|b| - 1]);
    } else {
      assert a + b == a;
    }
  }

  lemma AppendAssociative(a: seq<Event>, b: seq<Event>, c: seq<Event>)
    ensures a + (b + c) == (a + b) + c
  {
  }

  lemma AppendFour(t: seq<Event>, a: Event, b: Event, c: Event, d: Event)
    ensures t + [a] + [b] + [c] + [d] == t + [a, b, c, d]
  {
  }

  /** True when `events` holds no write to `pin`. */
  predicate NoWriteTo(events: seq<Event>, pin: int)
  {
    forall i :: 0 <= i < |events| ==> !(events[i].Write? && events[i].pin == pin)
  }

  /** A pin no event writes keeps the level it had before. */
  lemma {:induction false} ReplayUntouched(levels: map<int, int>, events: seq<Event>, pin: int)
    requires NoWriteTo(events, pin)
    ensures pin in Replay(levels, events) <==> pin in levels
    ensures pin in levels ==> Replay(levels, events)[pin] == levels[pin]
    decreases |events|
  {
    if events != [] {
      ReplayUntouched(levels, events[..|events| - 1], pin);
    }
  }

  /** A pin reads the level of the last write to it. */
  lemma LastWriteWins(levels: map<int, int>, events: seq<Event>, i: int)
    requires 0 <= i < |events| && events[i].Write?
    requires NoWriteTo(events[i + 1..], events[i].pin)
    ensures events[i].pin in Replay(levels, events)
    ensures Replay(levels, events)[events[i].pin] == events[i].level
  {
    var p := events[i].pin;
    assert events == events[..i + 1] + events[i + 1..];
    ReplayAppend(levels, events[..i + 1], events[i + 1..]);
    assert events[..i + 1][..i] == events[..i];
    ReplayUntouched(Replay(levels, events[..i + 1]), events[i + 1..], p);
  }

  /** True when every pin of `pins` has been driven LOW. */
  predicate AllLow(levels: map<int, int>, pins: seq<int>)
  {
    forall k :: 0 <= k < |pins| ==> pins[k] in levels && levels[pins[k]] == LOW
  }

  /** The number of pins of `pins` that read HIGH (a pin listed twice counts twice). */
  function HighCount(levels: map<int, int>, pins: seq<int>): (n: nat)
    ensures n <= |pins|
    decreases |pins|
  {
    if pins == [] then 0
    else (if pins[0] in levels && levels[pins[0]] == HIGH then 1 else 0) + HighCount(levels, pins[1..])
  }

  /** Sum of all requested delays, in milliseconds. */
  function TotalDelay(events: seq<Event>): int
    decreases |events|
  {
    if events == [] then 0
    else TotalDelay(events[..|events| - 1])
         + (if events[|events| - 1].Delay? then events[|events| - 1].ms else 0)
  }

  /** Number of `digitalWrite` calls. */
  function WriteCount(events: seq<Event>): nat
    decreases |events|
  {
    if events == [] then 0
    else WriteCount(events[..|events| - 1]) + (if events[|events| - 1].Write? then 1 else 0)
  }

  lemma {:induction false} TotalDelayAppend(a: seq<Event>, b: seq<Event>)
    ensures TotalDelay(a + b) == TotalDelay(a) + TotalDelay(b)
    decreases |b|
  {
    if b != [] {
      assert (a + b)[..|a + b| - 1] == a + b[..|b| - 1];
      TotalDelayAppend(a, b[..|b| - 1]);
    } else {
      assert a + b == a;
    }
  }

  lemma {:induction false} WriteCountAppend(a: seq<Event>, b: seq<Event>)
    ensures WriteCount(a + b) == WriteCount(a) + WriteCount(b)
    decreases |b|
  {
    if b != [] {
      assert (a + b)[..|a + b| - 1] == a + b[..|b| - 1];
      WriteCountAppend(a, b[..|b| - 1]);
    } else {
      assert a + b == a;
    }
  }

  /** A trace of writes only requests no delay and counts one write per event. */
  lemma {:induction false} WritesOnlyTotals(events: seq<Event>)
    requires forall i :: 0 <= i < |events| ==> events[i].Write?
    ensures TotalDelay(events) == 0 && WriteCount(events) == |events|
    decreases |events|
  {
    if events != [] {
      WritesOnlyTotals(events[..|events| - 1]);
    }
  }

  /** The hardware the driver talks to. `trace` records every call in order;
      `levels` is the level last written to each pin, and `Valid` ties it to
      the trace. */
  class Board {
    ghost const start: map<int, int>
    var trace: seq<Event>
    var levels: map<int, int>

    ghost predicate Valid()
      reads this
    {
      levels == Replay(start, trace)
    }

    constructor (initial: map<int, int>)
      ensures Valid() && trace == [] && levels == initial
    {
      start := initial;
      trace := [];
      levels := initial;
    }

    /** `pinMode(pin, OUTPUT)`: recorded; no level changes. */
    method PinMode(pin: int)
      requires Valid()
      modifies this
      ensures Valid()
      ensures trace == old(trace) + [Output(pin)] && levels == old(levels)
    {
      assert (trace + [Output(pin)])[..|trace|] == trace;
      trace := trace + [Output(pin)];
    }

    /** `digitalWrite(pin, level)`: recorded, and `pin` now reads `level`. */
    method DigitalWrite(pin: int, level: int)
      requires Valid()
      modifies this
      ensures Valid()
      ensures trace == old(trace) + [Write(pin, level)]
      ensures levels == old(levels)[pin := level]
    {
      assert (trace + [Write(pin, level)])[..|trace|] == trace;
      trace := trace + [Write(pin, level)];
      levels := levels[pin := level];
    }

    /** `delay(ms)`: recorded; only the requested amount is kept. */
    method Wait(ms: int)
      requires Valid()
      modifies this
      ensures Valid()
      ensures trace == old(trace) + [Delay(ms)] && levels == old(levels)
    {
      assert (trace + [Delay(ms)])[..|trace|] == trace;
      trace := trace + [Delay(ms)];
    }
  }
}
