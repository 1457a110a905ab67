/**
  * The audio clock of desktop/playback_view.cpp in variable-rate mode: queued output frames are mapped to media
  * time by a list of spans, and the clock interpolates in the span that is playing, with C++ integer division.
  */
module AudioClock {
  import opened Arithmetic
  import opened Options

  /** C++ division truncates toward zero. */
  function Quotient(a: int, b: int): int
    requires b > 0
  {
    if a >= 0 then a / b else -((-a) / b)
  }

  datatype Span = Span(firstFrame: int, lastFrame: int, firstPts: int, lastPts: int)

  /** None stands for `no_media_timestamp`. */
  datatype Timeline = Timeline(spans: seq<Span>, output: int, clock: int, end: Option<int>, inputEnd: Option<int>)

  const Discontinuity := 100_000

  /** Microseconds of `frames` at 48 kHz. */
  function Micros(frames: nat): nat {
    frames * 1_000_000 / 48_000
  }

  // ---------------------------------------------------------------------------------------------
  // Operations
  // ---------------------------------------------------------------------------------------------

  /** `scale_record` enters variable rate: what is still queued becomes the first span. */
  function Seeded(end: Option<int>, queued: nat, period: nat): Timeline {
    var frames := (queued + 2 * period) / 4;
    if end.Some? && frames != 0 then
      Timeline([Span(0, frames, end.value - Micros(frames), end.value)], frames, 0, end, end)
    else Timeline([], 0, 0, end, end)
  }

  predicate Jumps(t: Timeline, pts: Option<int>) {
    t.inputEnd.Some? && pts.Some? && (pts.value - t.inputEnd.value > Discontinuity || t.inputEnd.value - pts.value > Discontinuity)
  }

  function Reset(t: Timeline): Timeline {
    Timeline([], 0, 0, None, t.inputEnd)
  }

  /** One block of `frames` input frames at `pts`, of which the resampler yields `made` and holds back `delay`. */
  function Pushed(t: Timeline, pts: Option<int>, frames: nat, made: nat, delay: nat): Timeline {
    var u := if Jumps(t, pts) then Reset(t) else t;
    var start := if pts.None? then u.inputEnd else pts;
    if start.None? then u.(output := u.output + made, inputEnd := None)
    else
      var inputEnd := start.value + Micros(frames);
      var begin := if u.end.None? then start.value else u.end.value;
      var end := Max(begin, inputEnd - delay);
      if made == 0 then u.(end := Some(begin), inputEnd := Some(inputEnd))
      else Timeline(u.spans + [Span(u.output, u.output + made, begin, end)], u.output + made, u.clock, Some(end), Some(inputEnd))
  }

  /** The resampler's tail, flushed when the decoder has finished. */
  function Flushed(t: Timeline, made: nat): Timeline {
    if made == 0 then t
    else if t.inputEnd.None? || t.end.None? then t.(output := t.output + made)
    else
      Timeline(t.spans + [Span(t.output, t.output + made, t.end.value, t.inputEnd.value)], t.output + made, t.clock, t.inputEnd, t.inputEnd)
  }

  /** Frames played by now: from the device queue, or by the timer once the queue is empty. */
  function Played(t: Timeline, paused: bool, queued: nat, period: nat, elapsed: nat, running: bool): int {
    if paused then t.clock
    else if queued != 0 then Max(t.clock, t.output - (queued + 2 * period) / 4)
    else if running then Min(t.output, t.clock + elapsed * 48_000 / 1_000_000_000)
    else t.clock
  }

  /** Spans that have been played out are dropped, but never the last one. */
  function Popped(spans: seq<Span>, clock: int): seq<Span>
    decreases |spans|
  {
    if |spans| > 1 && clock >= spans[0].lastFrame then Popped(spans[1..], clock) else spans
  }

  function Interpolate(s: Span, clock: int): int
    requires s.firstFrame < s.lastFrame
  {
    s.firstPts + Quotient((s.lastPts - s.firstPts) * (clock - s.firstFrame), s.lastFrame - s.firstFrame)
  }

  predicate Positive(spans: seq<Span>) {
    forall i | 0 <= i < |spans| :: spans[i].firstFrame < spans[i].lastFrame
  }

  function ValueAt(spans: seq<Span>, clock: int): int
    requires spans != [] && Positive(spans)
    decreases |spans|
  {
    if |spans| > 1 && clock >= spans[0].lastFrame then ValueAt(spans[1..], clock) else Interpolate(spans[0], clock)
  }

  /** What `audio_clock` would return now. */
  function Reading(t: Timeline): Option<int>
    requires Positive(t.spans)
  {
    if t.spans == [] then None else Some(ValueAt(t.spans, t.clock))
  }

  function Ticked(t: Timeline, paused: bool, queued: nat, period: nat, elapsed: nat, running: bool): Timeline {
    var clock := Played(t, paused, queued, period, elapsed, running);
    t.(clock := clock, spans := Popped(t.spans, clock))
  }

  class Clock {
    var spans: seq<Span>
    var output: int
    var clock: int
    var end: Option<int>
    var inputEnd: Option<int>

    function View(): Timeline
      reads this
    {
      Timeline(spans, output, clock, end, inputEnd)
    }

    /** Entering variable rate with an empty span list. */
    constructor Seed(mark: Option<int>, queued: nat, period: nat)
      ensures View() == Seeded(mark, queued, period) && Sound(View())
    {
      var frames := (queued + 2 * period) / 4;
      spans, output, clock, end, inputEnd := [], 0, 0, mark, mark;
      if mark.Some? && frames != 0 {
        spans := [Span(0, frames, mark.value - Micros(frames), mark.value)];
        output := frames;
      }
    }

    method PushBlock(pts: Option<int>, frames: nat, made: nat, delay: nat)
      modifies this
      ensures View() == Pushed(old(View()), pts, frames, made, delay)
    {
      if Jumps(View(), pts) {
        spans, output, clock, end := [], 0, 0, None;
      }
      var start := if pts.None? then inputEnd else pts;
      if start.None? {
        inputEnd := None;
      } else {
        inputEnd := Some(start.value + Micros(frames));
        if end.None? {
          end := start;
        }
        var outputEnd := Max(end.value, inputEnd.value - delay);
        if made != 0 {
          spans := spans + [Span(output, output + made, end.value, outputEnd)];
          end := Some(outputEnd);
        }
      }
      output := output + made;
    }

    /** The flush at the end of the stream; the output's end is known whenever the input's is. */
    method Flush(made: nat)
      requires Sound(View())
      modifies this
      ensures View() == Flushed(old(View()), made)
    {
      if made != 0 && inputEnd.Some? {
        spans := spans + [Span(output, output + made, end.value, inputEnd.value)];
        end := inputEnd;
      }
      output := output + made;
    }

    /** `audio_clock`: the interpolation never divides by zero. */
    method Read(paused: bool, queued: nat, period: nat, elapsed: nat, running: bool) returns (value: Option<int>)
      requires Sound(View())
      modifies this`clock, this`spans
      ensures View() == Ticked(old(View()), paused, queued, period, elapsed, running)
      ensures Positive(spans) && value == Reading(View())
    {
      ghost var after := Ticked(View(), paused, queued, period, elapsed, running);
      TickKeepsSound(View(), paused, queued, period, elapsed, running);
      clock := Played(View(), paused, queued, period, elapsed, running);
      if spans == [] {
        return None;
      }
      while |spans| > 1 && clock >= spans[0].lastFrame
        invariant clock == after.clock && spans != [] && Popped(spans, clock) == Popped(old(spans), clock)
        decreases |spans|
      {
        spans := spans[1..];
      }
      assert spans == after.spans;
      var span := spans[0];
      value := Some(Interpolate(span, clock));
    }
  }

  // ---------------------------------------------------------------------------------------------
  // Sound timelines
  // ---------------------------------------------------------------------------------------------

  /** Spans are non-empty, do not run backwards, and join in frames and in media time. */
  predicate Contiguous(spans: seq<Span>) {
    && Positive(spans)
    && (forall i | 0 <= i < |spans| :: spans[i].firstPts <= spans[i].lastPts)
    && (forall i | 0 <= i < |spans| - 1 :: spans[i].lastFrame == spans[i + 1].firstFrame && spans[i].lastPts == spans[i + 1].firstPts)
  }

  function Last(spans: seq<Span>): Span
    requires spans != []
  {
    spans[|spans| - 1]
  }

  /** The played counter stays between zero and the output count, where the spans end. */
  predicate Sound(t: Timeline) {
    && 0 <= t.clock <= t.output
    && Contiguous(t.spans)
    && (t.spans != [] ==> Last(t.spans).lastFrame == t.output && t.end == Some(Last(t.spans).lastPts))
    && (t.end.Some? <==> t.inputEnd.Some?)
  }

  lemma SeedIsSound(end: Option<int>, queued: nat, period: nat)
    ensures Sound(Seeded(end, queued, period))
  {
  }

  lemma ContiguousSnoc(spans: seq<Span>, s: Span)
    requires Contiguous(spans) && s.firstFrame < s.lastFrame && s.firstPts <= s.lastPts
    requires spans != [] ==> Last(spans).lastFrame == s.firstFrame && Last(spans).lastPts == s.firstPts
    ensures Contiguous(spans + [s])
  {
  }

  /** Whatever the block's timestamp, the new span starts where the last one ended and does not run backwards. */
  lemma PushKeepsSound(t: Timeline, pts: Option<int>, frames: nat, made: nat, delay: nat)
    requires Sound(t)
    ensures Sound(Pushed(t, pts, frames, made, delay))
  {
    var u := if Jumps(t, pts) then Reset(t) else t;
    var start := if pts.None? then u.inputEnd else pts;
    if start.Some? && made != 0 {
      var r := Pushed(t, pts, frames, made, delay);
      ContiguousSnoc(u.spans, Last(r.spans));
    }
  }

  lemma TickKeepsSound(t: Timeline, paused: bool, queued: nat, period: nat, elapsed: nat, running: bool)
    requires Sound(t)
    ensures Sound(Ticked(t, paused, queued, period, elapsed, running))
    ensures Ticked(t, paused, queued, period, elapsed, running).clock >= t.clock
  {
    PoppedIsContiguous(t.spans, Played(t, paused, queued, period, elapsed, running));
  }

  lemma {:induction false} PoppedIsContiguous(spans: seq<Span>, clock: int)
    requires Contiguous(spans)
    ensures Contiguous(Popped(spans, clock))
    ensures spans != [] ==> Popped(spans, clock) != [] && Last(Popped(spans, clock)) == Last(spans)
    ensures spans == [] ==> Popped(spans, clock) == []
    decreases |spans|
  {
    if |spans| > 1 && clock >= spans[0].lastFrame {
      PoppedIsContiguous(spans[1..], clock);
    }
  }

  // ---------------------------------------------------------------------------------------------
  // The clock does not run backwards
  // ---------------------------------------------------------------------------------------------

  lemma QuotientMonotone(a: int, b: int, n: int)
    requires n > 0 && a <= b
    ensures Quotient(a, n) <= Quotient(b, n)
  {
    if b < 0 {
      DivMonotone(-b, -a, n);
    } else if a >= 0 {
      DivMonotone(a, b, n);
    } else {
      DivMonotone(0, b, n);
      DivMonotone(0, -a, n);
    }
  }

  lemma DivMonotone(a: nat, b: nat, n: int)
    requires n > 0 && a <= b
    ensures a / n <= b / n
  {
    var d := b / n - a / n;
    assert n * d == (b - a) - (b % n - a % n);
    if d < 0 {
      ProductMonotone(n, d, -1);
    }
  }

  lemma InterpolateMonotone(s: Span, c: int, d: int)
    requires s.firstFrame < s.lastFrame && s.firstPts <= s.lastPts && c <= d
    ensures Interpolate(s, c) <= Interpolate(s, d)
  {
    ProductMonotone(s.lastPts - s.firstPts, c - s.firstFrame, d - s.firstFrame);
    QuotientMonotone((s.lastPts - s.firstPts) * (c - s.firstFrame), (s.lastPts - s.firstPts) * (d - s.firstFrame), s.lastFrame - s.firstFrame);
  }

  /** A span starts at its first and ends at its last timestamp, exactly. */
  lemma InterpolateEnds(s: Span)
    requires s.firstFrame < s.lastFrame
    ensures Interpolate(s, s.firstFrame) == s.firstPts && Interpolate(s, s.lastFrame) == s.lastPts
  {
    ExactQuotient(s.lastPts - s.firstPts, s.lastFrame - s.firstFrame);
  }

  lemma ExactQuotient(k: int, n: int)
    requires n > 0
    ensures Quotient(k * n, n) == k && Quotient(k * 0, n) == 0
  {
    if k >= 0 {
      ExactDivision(k, n);
    } else {
      ExactDivision(-k, n);
      assert (-k) * n == -(k * n);
    }
  }

  lemma ExactDivision(k: nat, n: int)
    requires n > 0
    ensures k * n >= 0 && (k * n) / n == k
  {
    var q, r := (k * n) / n, (k * n) % n;
    assert (k - q) * n == r;
    if k > q {
      ProductMonotone(n, 1, k - q);
    } else if k < q {
      ProductMonotone(n, k - q, -1);
    }
  }

  lemma {:induction false} ValueAtLeast(spans: seq<Span>, c: int)
    requires spans != [] && Contiguous(spans) && c >= spans[0].firstFrame
    ensures ValueAt(spans, c) >= spans[0].firstPts
    decreases |spans|
  {
    if |spans| > 1 && c >= spans[0].lastFrame {
      ValueAtLeast(spans[1..], c);
    } else {
      InterpolateEnds(spans[0]);
      InterpolateMonotone(spans[0], spans[0].firstFrame, c);
    }
  }

  lemma {:induction false} ValueAtMost(spans: seq<Span>, c: int)
    requires spans != [] && Contiguous(spans) && c <= Last(spans).lastFrame
    ensures ValueAt(spans, c) <= Last(spans).lastPts
    decreases |spans|
  {
    if |spans| > 1 && c >= spans[0].lastFrame {
      ValueAtMost(spans[1..], c);
    } else {
      InterpolateEnds(spans[0]);
      InterpolateMonotone(spans[0], c, spans[0].lastFrame);
      PtsGrow(spans, 0);
    }
  }

  lemma {:induction false} PtsGrow(spans: seq<Span>, i: nat)
    requires Contiguous(spans) && i < |spans|
    ensures spans[i].lastPts <= Last(spans).lastPts
    decreases |spans| - i
  {
    if i + 1 < |spans| {
      PtsGrow(spans, i + 1);
    }
  }

  lemma {:induction false} ValueMonotone(spans: seq<Span>, c: int, d: int)
    requires spans != [] && Contiguous(spans) && c <= d <= Last(spans).lastFrame
    ensures ValueAt(spans, c) <= ValueAt(spans, d)
    decreases |spans|
  {
    if |spans| > 1 && d >= spans[0].lastFrame {
      if c >= spans[0].lastFrame {
        ValueMonotone(spans[1..], c, d);
      } else {
        InterpolateEnds(spans[0]);
        InterpolateMonotone(spans[0], c, spans[0].lastFrame);
        ValueAtLeast(spans[1..], d);
      }
    } else {
      InterpolateMonotone(spans[0], c, d);
    }
  }

  /** A new span changes no reading up to where the old ones ended. */
  lemma {:induction false} ValueSnoc(spans: seq<Span>, s: Span, c: int)
    requires spans != [] && Positive(spans + [s]) && c <= Last(spans).lastFrame
    requires Last(spans).lastFrame == s.firstFrame && Last(spans).lastPts == s.firstPts
    requires forall i | 0 <= i < |spans| - 1 :: spans[i].lastFrame <= spans[i + 1].lastFrame
    ensures Positive(spans) && ValueAt(spans + [s], c) == ValueAt(spans, c)
    decreases |spans|
  {
    assert forall i | 0 <= i < |spans| :: (spans + [s])[i] == spans[i];
    assert (spans + [s])[|spans|] == s;
    if |spans| == 1 {
      assert (spans + [s])[1..] == [s];
      InterpolateEnds(s);
      InterpolateEnds(spans[0]);
    } else if c >= spans[0].lastFrame {
      assert (spans + [s])[1..] == spans[1..] + [s];
      ValueSnoc(spans[1..], s, c);
    }
  }

  /** Dropping what has been played out changes no later reading. */
  lemma {:induction false} PopKeepsValue(spans: seq<Span>, c: int, d: int)
    requires spans != [] && Positive(spans) && c <= d
    ensures Popped(spans, c) != [] && Positive(Popped(spans, c)) && ValueAt(Popped(spans, c), d) == ValueAt(spans, d)
    decreases |spans|
  {
    if |spans| > 1 && c >= spans[0].lastFrame {
      PopKeepsValue(spans[1..], c, d);
    }
  }

  // ---------------------------------------------------------------------------------------------
  // Runs
  // ---------------------------------------------------------------------------------------------

  datatype Event =
    | Push(pts: Option<int>, frames: nat, made: nat, delay: nat)
    | Flush(made: nat)
    | Tick(paused: bool, queued: nat, period: nat, elapsed: nat, running: bool)

  function Step(t: Timeline, e: Event): Timeline {
    match e
    case Push(pts, frames, made, delay) => Pushed(t, pts, frames, made, delay)
    case Flush(made) => Flushed(t, made)
    case Tick(paused, queued, period, elapsed, running) => Ticked(t, paused, queued, period, elapsed, running)
  }

  function Run(t: Timeline, es: seq<Event>): Timeline
    decreases |es|
  {
    if es == [] then t else Run(Step(t, es[0]), es[1..])
  }

  /** Output never got ahead of the input, so the tail has room. */
  predicate InOrder(t: Timeline) {
    t.end.Some? && t.inputEnd.Some? ==> t.end.value <= t.inputEnd.value
  }

  /** No discontinuity reset, and no tail that starts behind the input's end. */
  predicate Steady(t: Timeline, e: Event) {
    && (e.Push? ==> !Jumps(t, e.pts))
    && (e.Flush? && e.made > 0 ==> InOrder(t))
  }

  predicate AllSteady(t: Timeline, es: seq<Event>)
    decreases |es|
  {
    es == [] || (Steady(t, es[0]) && AllSteady(Step(t, es[0]), es[1..]))
  }

  lemma FlushKeepsSound(t: Timeline, made: nat)
    requires Sound(t) && (made > 0 ==> InOrder(t))
    ensures Sound(Flushed(t, made)) && (InOrder(t) ==> InOrder(Flushed(t, made)))
  {
    if made != 0 && t.inputEnd.Some? {
      ContiguousSnoc(t.spans, Last(Flushed(t, made).spans));
    }
  }

  lemma StepKeepsSound(t: Timeline, e: Event)
    requires Sound(t) && Steady(t, e)
    ensures Sound(Step(t, e))
  {
    match e
    case Push(pts, frames, made, delay) => PushKeepsSound(t, pts, frames, made, delay);
    case Flush(made) => FlushKeepsSound(t, made);
    case Tick(paused, queued, period, elapsed, running) => TickKeepsSound(t, paused, queued, period, elapsed, running);
  }

  lemma SnocKeepsReading(t: Timeline, s: Span)
    requires Sound(t) && t.spans != [] && s.firstFrame < s.lastFrame && Last(t.spans).lastFrame == s.firstFrame && Last(t.spans).lastPts == s.firstPts
    ensures Positive(t.spans + [s]) && ValueAt(t.spans + [s], t.clock) == ValueAt(t.spans, t.clock)
  {
    ValueSnoc(t.spans, s, t.clock);
  }

  /** No step lowers the reading, and no reading passes the end of the last span. */
  lemma StepKeepsReading(t: Timeline, e: Event)
    requires Sound(t) && Steady(t, e) && Reading(t).Some?
    ensures var u := Step(t, e);
            Sound(u) && Reading(u).Some? && Reading(u).value >= Reading(t).value && u.clock >= t.clock
            && Reading(u).value <= Last(u.spans).lastPts
  {
    StepKeepsSound(t, e);
    var u := Step(t, e);
    if e.Tick? {
      TickKeepsSound(t, e.paused, e.queued, e.period, e.elapsed, e.running);
      PopKeepsValue(t.spans, u.clock, u.clock);
      ValueMonotone(t.spans, t.clock, u.clock);
    } else if |u.spans| > |t.spans| {
      SnocKeepsReading(t, Last(u.spans));
    }
    ValueAtMost(u.spans, u.clock);
  }

  /**
    * Between discontinuities the clock never decreases, whatever timestamps the blocks carry, as long as no tail is
    * flushed behind the input's end: every later reading is at least every earlier one, the played counter only
    * grows up to the output count, and all stay in range.
    */
  lemma {:induction false} ClockNeverRunsBackwards(t: Timeline, es: seq<Event>)
    requires Sound(t) && AllSteady(t, es)
    ensures var u := Run(t, es);
            && Sound(u) && u.clock <= u.output
            && (Reading(t).Some? ==>
                  Reading(u).Some? && Reading(u).value >= Reading(t).value && u.clock >= t.clock && Reading(u).value <= Last(u.spans).lastPts)
    decreases |es|
  {
    if es == [] {
      if t.spans != [] { ValueAtMost(t.spans, t.clock); }
    } else {
      StepKeepsSound(t, es[0]);
      if t.spans != [] { StepKeepsReading(t, es[0]); }
      ClockNeverRunsBackwards(Step(t, es[0]), es[1..]);
    }
  }

  // ---------------------------------------------------------------------------------------------
  // Input that does not step back
  // ---------------------------------------------------------------------------------------------

  /** A block that neither steps back in time nor jumps. */
  predicate Forward(t: Timeline, e: Event) {
    e.Push? ==> !Jumps(t, e.pts) && (e.pts.Some? && t.inputEnd.Some? ==> e.pts.value >= t.inputEnd.value)
  }

  predicate AllForward(t: Timeline, es: seq<Event>)
    decreases |es|
  {
    es == [] || (Forward(t, es[0]) && AllForward(Step(t, es[0]), es[1..]))
  }

  /** Such input never lets the output overtake it, so every tail may be flushed. */
  lemma {:induction false} ForwardInputIsSteady(t: Timeline, es: seq<Event>)
    requires Sound(t) && InOrder(t) && AllForward(t, es)
    ensures AllSteady(t, es) && InOrder(Run(t, es))
    decreases |es|
  {
    if es != [] {
      StepKeepsSound(t, es[0]);
      ForwardInputIsSteady(Step(t, es[0]), es[1..]);
    }
  }

  /** Hence for forward input the clock never decreases, tails included. */
  lemma ForwardClockNeverRunsBackwards(t: Timeline, es: seq<Event>)
    requires Sound(t) && InOrder(t) && AllForward(t, es)
    ensures var u := Run(t, es);
            && Sound(u) && InOrder(u)
            && (Reading(t).Some? ==> Reading(u).Some? && Reading(u).value >= Reading(t).value && u.clock >= t.clock)
  {
    ForwardInputIsSteady(t, es);
    ClockNeverRunsBackwards(t, es);
  }

  // ---------------------------------------------------------------------------------------------
  // Where the clock does run backwards
  // ---------------------------------------------------------------------------------------------

  /** The readings over the spans after a flush are monotone exactly if the output had not got ahead of the input. */
  lemma TailMonotoneIff(t: Timeline, made: nat)
    requires Sound(t) && made > 0
    ensures Positive(Flushed(t, made).spans)
    ensures InOrder(t) <==>
              Flushed(t, made).spans == []
              || forall c, d | c <= d <= t.output + made :: ValueAt(Flushed(t, made).spans, c) <= ValueAt(Flushed(t, made).spans, d)
  {
    var u := Flushed(t, made);
    if InOrder(t) {
      FlushKeepsSound(t, made);
      if u.spans != [] {
        forall c, d | c <= d <= t.output + made ensures ValueAt(u.spans, c) <= ValueAt(u.spans, d) { ValueMonotone(u.spans, c, d); }
      }
    } else {
      TailEnds(t, made);
      assert ValueAt(u.spans, t.output) > ValueAt(u.spans, t.output + made);
    }
  }

  /** The tail starts where the output had ended and ends where the input had. */
  lemma TailEnds(t: Timeline, made: nat)
    requires Sound(t) && t.end.Some? && made > 0
    ensures var u := Flushed(t, made);
            && Positive(u.spans) && u.spans != [] && u.output == t.output + made
            && ValueAt(u.spans, t.output) == t.end.value && ValueAt(u.spans, t.output + made) == t.inputEnd.value
  {
    var u := Flushed(t, made);
    var tail := Last(u.spans);
    assert u.spans == t.spans + [tail];
    ValueAtEnd(u.spans);
    if t.spans == [] {
      InterpolateEnds(tail);
    } else {
      ValueAtEnd(t.spans);
      ValueSnoc(t.spans, tail, t.output);
    }
  }

  predicate OnlyTicks(es: seq<Event>) {
    forall i | 0 <= i < |es| :: es[i].Tick?
  }

  /** After these ticks one more tick lowers the reading. */
  predicate Falls(t: Timeline, es: seq<Event>, e: Event) {
    var u := Run(t, es);
    && OnlyTicks(es) && e.Tick?
    && Positive(u.spans) && Positive(Step(u, e).spans)
    && u.spans != [] && Step(u, e).spans != []
    && Reading(Step(u, e)).value < Reading(u).value
  }

  /** Playing to the end of the old spans, with the tail still queued, and then through the tail. */
  lemma PlayingTheTail(t: Timeline, made: nat)
    requires Sound(t) && made > 0 && !InOrder(t)
    ensures Falls(Flushed(t, made), [Tick(false, 4 * made, 0, 0, false)], Tick(false, 0, 0, made * 1_000_000_000, true))
  {
    var u := Flushed(t, made);
    var first, second := Tick(false, 4 * made, 0, 0, false), Tick(false, 0, 0, made * 1_000_000_000, true);
    TailEnds(t, made);
    var a := Step(u, first);
    assert Run(u, [first]) == Run(a, [first][1..]);
    assert a.clock == t.output;
    PopKeepsValue(u.spans, t.output, t.output);
    PopKeepsValue(u.spans, t.output, t.output + made);
    var b := Step(a, second);
    assert b.clock == t.output + made;
    PopKeepsValue(a.spans, t.output + made, t.output + made);
  }

  lemma {:induction false} TicksAreSteady(t: Timeline, es: seq<Event>)
    requires Sound(t) && OnlyTicks(es)
    ensures AllSteady(t, es)
    decreases |es|
  {
    if es != [] {
      StepKeepsSound(t, es[0]);
      TicksAreSteady(Step(t, es[0]), es[1..]);
    }
  }

  /** A flushed tail can make the clock fall while it is played if and only if the output had overtaken the input. */
  lemma FlushTurnsClockIff(t: Timeline, made: nat)
    requires Sound(t) && made > 0
    ensures (exists es, e :: Falls(Flushed(t, made), es, e)) <==> !InOrder(t)
  {
    var u := Flushed(t, made);
    if InOrder(t) {
      FlushKeepsSound(t, made);
      forall es: seq<Event>, e: Event | OnlyTicks(es) && e.Tick? ensures !Falls(u, es, e) {
        TicksAreSteady(u, es);
        ClockNeverRunsBackwards(u, es);
        if Run(u, es).spans != [] { StepKeepsReading(Run(u, es), e); }
      }
    } else {
      PlayingTheTail(t, made);
    }
  }

  lemma {:induction false} ValueAtEnd(spans: seq<Span>)
    requires spans != [] && Positive(spans)
    requires forall i | 0 <= i < |spans| - 1 :: spans[i].lastFrame == spans[i + 1].firstFrame
    ensures ValueAt(spans, Last(spans).lastFrame) == Last(spans).lastPts
    decreases |spans|
  {
    if |spans| == 1 {
      InterpolateEnds(spans[0]);
    } else {
      FramesGrow(spans, 0);
      ValueAtEnd(spans[1..]);
    }
  }

  lemma {:induction false} FramesGrow(spans: seq<Span>, i: nat)
    requires Positive(spans) && i < |spans|
    requires forall i | 0 <= i < |spans| - 1 :: spans[i].lastFrame == spans[i + 1].firstFrame
    ensures spans[i].lastFrame <= Last(spans).lastFrame
    decreases |spans| - i
  {
    if i + 1 < |spans| {
      FramesGrow(spans, i + 1);
    }
  }

  /**
    * It happens: a block 80 ms early stays within the discontinuity limit, and then any tail, whatever the resampler
    * held back, makes the clock fall.
    */
  lemma SteppingBackTurnsTheTail(delay: nat, made: nat)
    requires made > 0
    ensures var t := Pushed(Seeded(Some(1_000_000), 1920, 0), Some(920_000), 480, 480, delay);
            && !Jumps(Seeded(Some(1_000_000), 1920, 0), Some(920_000))
            && Sound(t) && t.spans != [] && exists es, e :: Falls(Flushed(t, made), es, e)
  {
    var t := Pushed(Seeded(Some(1_000_000), 1920, 0), Some(920_000), 480, 480, delay);
    SeedIsSound(Some(1_000_000), 1920, 0);
    PushKeepsSound(Seeded(Some(1_000_000), 1920, 0), Some(920_000), 480, 480, delay);
    FlushTurnsClockIff(t, made);
  }

  /** Nor need any frame have come out before: two blocks that the resampler still holds are enough. */
  lemma HeldBackBlocksTurnTheTail(delay: nat, more: nat, made: nat)
    requires made > 0
    ensures var t := Pushed(Pushed(Seeded(None, 0, 0), Some(1_000_000), 480, 0, delay), Some(920_000), 480, 0, more);
            && !Jumps(Pushed(Seeded(None, 0, 0), Some(1_000_000), 480, 0, delay), Some(920_000))
            && Sound(t) && t.spans == [] && exists es, e :: Falls(Flushed(t, made), es, e)
  {
    var first := Pushed(Seeded(None, 0, 0), Some(1_000_000), 480, 0, delay);
    PushKeepsSound(Seeded(None, 0, 0), Some(1_000_000), 480, 0, delay);
    PushKeepsSound(first, Some(920_000), 480, 0, more);
    FlushTurnsClockIff(Pushed(first, Some(920_000), 480, 0, more), made);
  }

  /** Entering variable rate keeps the fixed-rate reading, up to the 16 us that a partial frame is worth. */
  lemma SeedKeepsReading(end: int, queued: nat, period: nat)
    requires queued + 2 * period >= 4
    ensures var t := Seeded(Some(end), queued, period);
            var fixedRate := end - (queued + 2 * period) * 1_000_000 / 192_000;
            Positive(t.spans) && Reading(t).Some? && 0 <= Reading(t).value - fixedRate <= 16
  {
    var bytes := queued + 2 * period;
    var t := Seeded(Some(end), queued, period);
    InterpolateEnds(t.spans[0]);
    assert bytes == 4 * (bytes / 4) + bytes % 4;
  }
}
