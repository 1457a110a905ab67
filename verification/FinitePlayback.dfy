/**
  * Finite playback across two bounded queues: the decoder thread of desktop/decode_thread.cpp fills at most four
  * frames, the 10 ms tick of desktop/playback_view.cpp moves them into a queue of at most sixteen and shows one.
  * A tick reads the thread's state at several points, so it is several steps and the decoder runs in between.
  */
module FinitePlayback {
  import opened Bytes

  const DecodedCapacity := 4
  const ViewCapacity := 16

  datatype Frame = Frame(id: int, pts: int)

  /** Where `update_media` stands; `tail` is `finite_tail_taken`. */
  datatype Tick = Idle | Sampled(tail: bool) | Taken(tail: bool) | Presented(tail: bool)

  /** `input` are the frames the codec yields; `decoded` of them have been queued. */
  datatype State = State(
    input: seq<Frame>, decoded: nat, queue: seq<Frame>, finished: bool, error: bool,
    video: seq<Frame>, shown: seq<Frame>, tick: Tick, ended: bool)

  function Init(input: seq<Frame>): State {
    State(input, 0, [], false, false, [], [], Idle, false)
  }

  datatype Event =
    | Enqueue                                 // decoder: a frame is pushed, waiting while the queue is full
    | Complete                                // decoder: end of stream, every frame pushed
    | Fail                                    // decoder: any error
    | Sample(pcmEmpty: bool)                  // tick: lines 629-631
    | Take                                    // tick: lines 633-648
    | Present(paused: bool, due: bool)        // tick: lines 841-951; `due` is the verdict of the clocks
    | Decide(held: bool)                      // tick: lines 952-985; `held` are the audio and clock conditions

  function Step(s: State, e: Event): State {
    match e
    case Enqueue =>
      if !s.finished && s.decoded < |s.input| && |s.queue| < DecodedCapacity then
        s.(queue := s.queue + [s.input[s.decoded]], decoded := s.decoded + 1)
      else s
    case Complete => if !s.finished && s.decoded == |s.input| then s.(finished := true) else s
    case Fail => if !s.finished then s.(finished := true, error := true) else s
    case Sample(pcmEmpty) =>
      if s.tick.Idle? && !s.ended then s.(tick := Sampled(s.finished && s.video == [] && pcmEmpty)) else s
    case Take =>
      if !s.tick.Sampled? then s
      else if |s.video| + DecodedCapacity <= ViewCapacity then
        s.(video := s.video + s.queue, queue := [], tick := Taken(s.tick.tail))
      else s.(tick := Taken(s.tick.tail))
    case Present(paused, due) =>
      if !s.tick.Taken? then s
      else if paused && !(s.finished && s.error) then s.(tick := Idle)
      else if s.video != [] && due then
        s.(shown := s.shown + [s.video[0]], video := s.video[1..], tick := Presented(s.tick.tail))
      else s.(tick := Presented(s.tick.tail))
    case Decide(held) =>
      if !s.tick.Presented? then s
      else if !s.finished || (!s.error && (!s.tick.tail || s.video != [] || held)) then s.(tick := Idle)
      else s.(tick := Idle, video := [], ended := true)
  }

  function Run(s: State, es: seq<Event>): State
    decreases |es|
  {
    if es == [] then s else Run(Step(s, es[0]), es[1..])
  }

  /** The four steps of one tick in the fields of the view, as the UI thread executes them. */
  class Player {
    var input: seq<Frame>
    var decoded: nat
    var queue: seq<Frame>
    var finished: bool
    var error: bool
    var video: seq<Frame>
    var shown: seq<Frame>
    var tick: Tick
    var ended: bool

    function View(): State
      reads this
    {
      State(input, decoded, queue, finished, error, video, shown, tick, ended)
    }

    constructor (frames: seq<Frame>)
      ensures View() == Init(frames) && Inv(View())
    {
      input, decoded, queue, finished, error := frames, 0, [], false, false;
      video, shown, tick, ended := [], [], Idle, false;
    }

    /** The decoder's side, lines 398-414: false means that it has to wait for the consumer. */
    method EnqueueFrame() returns (pushed: bool)
      requires Inv(View()) && !finished && decoded < |input|
      modifies this
      ensures Inv(View()) && View() == Step(old(View()), Enqueue)
      ensures pushed <==> |old(queue)| < DecodedCapacity
    {
      StepKeepsInv(View(), Enqueue);
      pushed := |queue| != DecodedCapacity;
      if pushed {
        queue := queue + [input[decoded]];
        decoded := decoded + 1;
      }
    }

    method TakeFrames()
      requires Inv(View()) && tick.Sampled?
      modifies this
      ensures Inv(View()) && View() == Step(old(View()), Take)
    {
      StepKeepsInv(View(), Take);
      if |video| + DecodedCapacity <= ViewCapacity {
        var frames := queue;
        queue := [];
        var i := 0;
        while i < |frames|
          invariant 0 <= i <= |frames|
          invariant View() == old(View()).(queue := [], video := old(video) + frames[..i])
        {
          video := video + [frames[i]];
          i := i + 1;
        }
        assert frames[..i] == frames;
      }
      tick := Taken(tick.tail);
    }

    /** One frame at most, then the end of the recording or another tick. */
    method PresentAndDecide(paused: bool, due: bool, held: bool)
      requires Inv(View()) && tick.Taken?
      modifies this
      ensures Inv(View()) && View() == Step(Step(old(View()), Present(paused, due)), Decide(held))
    {
      StepKeepsInv(View(), Present(paused, due));
      StepKeepsInv(Step(View(), Present(paused, due)), Decide(held));
      var tail := tick.tail;
      tick := Idle;
      if paused && !(finished && error) {
        return;
      }
      if video != [] && due {
        shown := shown + [video[0]];
        video := video[1..];
      }
      if finished {
        if !error && (!tail || video != [] || held) {
          return;
        }
        video := [];
        ended := true;
      }
    }
  }

  // ---------------------------------------------------------------------------------------------
  // Nothing is lost
  // ---------------------------------------------------------------------------------------------

  predicate Inv(s: State) {
    && s.decoded <= |s.input|
    && |s.queue| <= DecodedCapacity && |s.video| <= ViewCapacity
    && (!s.ended ==> InFlight(s) == s.input[..s.decoded])
    && s.shown <= s.input
    && (s.error ==> s.finished)
    && (s.finished && !s.error ==> s.decoded == |s.input|)
    && (s.tick.Sampled? && s.tick.tail ==> s.finished && s.video == [])
    && ((s.tick.Taken? || s.tick.Presented?) && s.tick.tail ==> s.finished && s.queue == [])
    && (s.ended ==> s.finished && s.tick.Idle? && (s.error || s.shown == s.input))
  }

  lemma PrefixOfTake(a: seq<Frame>, b: seq<Frame>, whole: seq<Frame>, n: nat)
    requires n <= |whole| && a + b == whole[..n]
    ensures a <= whole
  {
    assert a == (a + b)[..|a|] == whole[..|a|];
  }

  /** The frames in flight, in order of presentation. */
  function InFlight(s: State): seq<Frame> {
    s.shown + s.video + s.queue
  }

  /** A step queues one more frame or moves frames along, until the end discards what is left. */
  lemma StepKeepsOrder(s: State, e: Event)
    requires s.decoded <= |s.input|
    ensures var t := Step(s, e);
            || t.ended
            || (InFlight(t) == InFlight(s) && t.decoded == s.decoded)
            || (e.Enqueue? && s.decoded < |s.input| && InFlight(t) == InFlight(s) + [s.input[s.decoded]] && t.decoded == s.decoded + 1)
  {
    if e.Present? && s.video != [] {
      assert s.shown + [s.video[0]] + s.video[1..] + s.queue == InFlight(s);
    } else if e.Take? {
      assert s.shown + (s.video + s.queue) + [] == InFlight(s);
    }
  }

  lemma EnqueueKeepsInv(s: State)
    requires Inv(s)
    ensures Inv(Step(s, Enqueue))
  {
    StepKeepsOrder(s, Enqueue);
  }

  lemma StepKeepsInv(s: State, e: Event)
    requires Inv(s)
    ensures Inv(Step(s, e))
  {
    match e
    case Enqueue => EnqueueKeepsInv(s);
    case Present(paused, due) => PresentKeepsInv(s, paused, due);
    case Decide(held) => DecideKeepsInv(s, held);
    case Take => TakeKeepsInv(s);
    case _ =>
  }

  lemma TakeKeepsInv(s: State)
    requires Inv(s)
    ensures Inv(Step(s, Take))
  {
    StepKeepsOrder(s, Take);
  }

  lemma PresentKeepsInv(s: State, paused: bool, due: bool)
    requires Inv(s)
    ensures Inv(Step(s, Present(paused, due)))
  {
    var t := Step(s, Present(paused, due));
    if !s.ended {
      StepKeepsOrder(s, Present(paused, due));
      Reassociate(t.shown, t.video, t.queue);
      PrefixOfTake(t.shown, t.video + t.queue, t.input, t.decoded);
    }
  }

  /** The end is declared with every queue empty, or after an error. */
  lemma DecideKeepsInv(s: State, held: bool)
    requires Inv(s)
    ensures Inv(Step(s, Decide(held)))
  {
    if !s.ended && Step(s, Decide(held)).ended && !s.error {
      assert s.shown == InFlight(s);
    }
  }

  lemma {:induction false} RunKeepsInv(s: State, es: seq<Event>)
    requires Inv(s)
    ensures Inv(Run(s, es)) && Run(s, es).input == s.input
    decreases |es|
  {
    if es != [] {
      StepKeepsInv(s, es[0]);
      RunKeepsInv(Step(s, es[0]), es[1..]);
    }
  }

  /**
    * For every interleaving: what has been shown, what the view holds and what the decoder holds are, in this
    * order, exactly the frames decoded so far, and both queues stay within their bounds.
    */
  lemma NothingLostOrReordered(input: seq<Frame>, es: seq<Event>)
    ensures var s := Run(Init(input), es);
            && s.decoded <= |input| && |s.queue| <= DecodedCapacity && |s.video| <= ViewCapacity
            && s.shown <= input
            && (!s.ended ==> s.shown + s.video + s.queue == input[..s.decoded])
  {
    RunKeepsInv(Init(input), es);
  }

  /** Normal completion is declared only when every frame has been shown, exactly once and in order. */
  lemma EndMeansAllShown(input: seq<Frame>, es: seq<Event>)
    ensures var s := Run(Init(input), es); s.ended && !s.error ==> s.shown == input
  {
    RunKeepsInv(Init(input), es);
  }

  // ---------------------------------------------------------------------------------------------
  // And it does end
  // ---------------------------------------------------------------------------------------------

  /** Ticks that nothing holds back. */
  function Ticks(n: nat): seq<Event> {
    if n == 0 then [] else [Sample(true)] + ([Take] + ([Present(false, true)] + ([Decide(false)] + Ticks(n - 1))))
  }

  lemma RunCons(s: State, e: Event, es: seq<Event>)
    ensures Run(s, [e] + es) == Run(Step(s, e), es)
  {
    assert ([e] + es)[1..] == es;
  }

  lemma RunTick(s: State, n: nat)
    requires n > 0
    ensures Run(s, Ticks(n)) == Run(AfterTick(s), Ticks(n - 1))
  {
    var a := Step(s, Sample(true));
    var b := Step(a, Take);
    var c := Step(b, Present(false, true));
    RunCons(s, Sample(true), [Take] + ([Present(false, true)] + ([Decide(false)] + Ticks(n - 1))));
    RunCons(a, Take, [Present(false, true)] + ([Decide(false)] + Ticks(n - 1)));
    RunCons(b, Present(false, true), [Decide(false)] + Ticks(n - 1));
    RunCons(c, Decide(false), Ticks(n - 1));
  }

  function AfterTick(s: State): State {
    Step(Step(Step(Step(s, Sample(true)), Take), Present(false, true)), Decide(false))
  }

  /** Frames that are decoded but not shown. */
  function Left(s: State): nat {
    |s.video| + |s.queue|
  }

  lemma TickProgresses(s: State)
    requires Inv(s) && s.finished && !s.error && s.tick.Idle? && !s.ended
    ensures var t := AfterTick(s);
            && Inv(t) && t.finished && !t.error && t.tick.Idle? && t.input == s.input
            && (t.ended || (Left(s) > 0 && Left(t) == Left(s) - 1))
  {
    TickKeepsInv(s);
    TickShows(s);
  }

  lemma TickKeepsInv(s: State)
    requires Inv(s) && s.finished && !s.error && s.tick.Idle? && !s.ended
    ensures Inv(AfterTick(s))
  {
    var a := Step(s, Sample(true));
    StepKeepsInv(s, Sample(true));
    var b := Step(a, Take);
    StepKeepsInv(a, Take);
    var c := Step(b, Present(false, true));
    StepKeepsInv(b, Present(false, true));
    StepKeepsInv(c, Decide(false));
  }

  /** A free tick takes what fits, shows one frame, and ends only without one. */
  lemma TickShows(s: State)
    requires s.finished && !s.error && s.tick.Idle? && !s.ended
    ensures var t := AfterTick(s); t.finished && !t.error && t.tick.Idle? && t.input == s.input && (t.ended || (Left(s) > 0 && Left(t) == Left(s) - 1))
  {
    var b := Step(Step(s, Sample(true)), Take);
    assert Left(b) == Left(s) && b.tick == Taken(s.video == []);
    var c := Step(b, Present(false, true));
    assert b.video != [] ==> Left(c) == Left(b) - 1;
  }

  /** Once the decoder has finished without error, as many free ticks as frames are left, plus one, end the playback. */
  lemma {:induction false} FinishedPlaybackEnds(s: State, n: nat)
    requires Inv(s) && s.finished && !s.error && s.tick.Idle? && (s.ended || n > Left(s))
    ensures var t := Run(s, Ticks(n)); t.ended && !t.error && t.shown == s.input
    decreases n
  {
    if n > 0 {
      RunTick(s, n);
      if s.ended {
        assert AfterTick(s) == s;
      } else {
        TickProgresses(s);
      }
      FinishedPlaybackEnds(AfterTick(s), n - 1);
    }
  }
}
