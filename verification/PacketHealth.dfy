/**
  * Packet health of bench/packet_health.h: 32-bit timestamps and 16-bit sequence numbers that wrap, compared by serial
  * number arithmetic (section 3.2 of RFC 1982).
  */
module PacketHealth {
  import opened Arithmetic
  import opened Bytes
  import opened Options

  const Half := 0x8000_0000
  const Period := 0x1_0000_0000

  /** Unsigned 32-bit subtraction. */
  function Minus(a: U32, b: U32): U32 {
    (a - b) % Period
  }

  datatype Health = Health(window: U32, latest: Option<U32>, advanced: nat)

  function Observed(h: Health, timestamp: U32): (Health, bool) {
    if h.latest.None? then (h.(latest := Some(timestamp)), true)
    else
      var forward := Minus(timestamp, h.latest.value);
      if forward > Half then (h, Minus(h.latest.value, timestamp) <= h.window)
      else (h.(latest := Some(timestamp), advanced := h.advanced + forward), true)
  }

  class TimestampHealth {
    const window: U32
    var latest: Option<U32>
    var advanced: nat

    function View(): Health
      reads this
    {
      Health(window, latest, advanced)
    }

    constructor (window: U32)
      ensures View() == Health(window, None, 0)
    {
      this.window, latest, advanced := window, None, 0;
    }

    method Observe(timestamp: U32) returns (ok: bool)
      modifies this
      ensures (View(), ok) == Observed(old(View()), timestamp)
    {
      if latest.Some? {
        var forward := Minus(timestamp, latest.value);
        if forward > Half {
          return Minus(latest.value, timestamp) <= window;
        }
        advanced := advanced + forward;
      }
      latest := Some(timestamp);
      return true;
    }
  }

  // ---------------------------------------------------------------------------------------------
  // Against unbounded time
  // ---------------------------------------------------------------------------------------------

  /** The running maximum of true timestamps. */
  function Latest(ts: seq<int>): int
    requires ts != []
    decreases |ts|
  {
    if |ts| == 1 then ts[0] else Max(Latest(ts[..|ts| - 1]), ts[|ts| - 1])
  }

  /** Each timestamp is at most half a period ahead of the maximum before it, and less than that behind it. */
  predicate Near(ts: seq<int>) {
    forall i | 1 <= i < |ts| :: Latest(ts[..i]) - Half < ts[i] <= Latest(ts[..i]) + Half
  }

  /** The monitor after it has seen the wrapped timestamps. */
  function After(window: U32, ts: seq<int>): Health
    decreases |ts|
  {
    if ts == [] then Health(window, None, 0) else Observed(After(window, ts[..|ts| - 1]), ts[|ts| - 1] % Period).0
  }

  predicate Accepted(window: U32, ts: seq<int>, i: nat)
    requires i < |ts|
  {
    Observed(After(window, ts[..i]), ts[i] % Period).1
  }

  /** Serial subtraction of two wrapped values less than a period apart. */
  lemma MinusOfWrapped(a: int, b: int)
    requires -Period < a - b < Period
    ensures Minus(a % Period, b % Period) == if a >= b then a - b else a - b + Period
  {
    assert (a % Period - b % Period) % Period == (a - b) % Period by {
      assert a == Period * (a / Period) + a % Period && b == Period * (b / Period) + b % Period;
      assert a % Period - b % Period == (a - b) + Period * (b / Period - a / Period);
      ModPeriod(a - b, b / Period - a / Period);
    }
  }

  lemma ModPeriod(x: int, k: int)
    ensures (x + Period * k) % Period == x % Period
  {
  }

  lemma OneObservation(h: Health, latest: int, t: int)
    requires h.latest == Some(latest % Period) && latest - Half < t <= latest + Half
    ensures var (next, ok) := Observed(h, t % Period);
            && next.latest == Some(Max(latest, t) % Period)
            && next.advanced == h.advanced + Max(latest, t) - latest
            && next.window == h.window
            && (ok <==> t >= latest - h.window)
  {
    MinusOfWrapped(t, latest);
    MinusOfWrapped(latest, t);
  }

  /** The counter is the unbounded maximum minus the first timestamp, through any number of wraps. */
  lemma {:induction false} AdvancedIsTrueProgress(window: U32, ts: seq<int>)
    requires ts != [] && Near(ts)
    ensures var h := After(window, ts);
            h.window == window && h.latest == Some(Latest(ts) % Period) && h.advanced == Latest(ts) - ts[0]
    decreases |ts|
  {
    var front := ts[..|ts| - 1];
    if |ts| == 1 {
      assert After(window, front) == Health(window, None, 0);
    } else {
      forall i | 1 <= i < |front| ensures Latest(front[..i]) - Half < front[i] <= Latest(front[..i]) + Half { assert front[..i] == ts[..i]; }
      AdvancedIsTrueProgress(window, front);
      OneObservation(After(window, front), Latest(front), ts[|ts| - 1]);
    }
  }

  /** A timestamp is accepted exactly if it is no further behind the maximum than the reorder window. */
  lemma AcceptedIffInWindow(window: U32, ts: seq<int>, i: nat)
    requires Near(ts) && i < |ts|
    ensures Accepted(window, ts, i) <==> i == 0 || ts[i] >= Latest(ts[..i]) - window
  {
    if i > 0 {
      var before := ts[..i];
      forall k | 1 <= k < |before| ensures Latest(before[..k]) - Half < before[k] <= Latest(before[..k]) + Half { assert before[..k] == ts[..k]; }
      AdvancedIsTrueProgress(window, before);
      OneObservation(After(window, before), Latest(before), ts[i]);
    }
  }

  // ---------------------------------------------------------------------------------------------
  // RTP
  // ---------------------------------------------------------------------------------------------

  datatype Rtp = Rtp(window: U32, ssrc: Option<U32>, sequence: Option<U16>, timestamp: Health, previous: nat)

  function Advanced(r: Rtp): nat {
    r.previous + r.timestamp.advanced
  }

  predicate WellFormed(p: seq<Byte>) {
    |p| >= 12 && p[0] / 64 == 2
  }

  predicate Follows(a: U16, b: U16) {
    (a - b) % 0x1_0000 == 1
  }

  /** The SSRC of a new packet starts a new segment. */
  function Segment(r: Rtp, ssrc: U32): Rtp {
    if r.ssrc == Some(ssrc) then r
    else r.(ssrc := Some(ssrc), sequence := None, previous := r.previous + r.timestamp.advanced, timestamp := Health(r.window, None, 0))
  }

  function Received(r: Rtp, p: seq<Byte>): (Rtp, bool) {
    if !WellFormed(p) then (r, false)
    else
      var s := Segment(r, U32At(p, 8));
      var sequence := U16At(p, 2);
      if s.sequence.Some? && !Follows(sequence, s.sequence.value) then (s, false)
      else
        var (t, ok) := Observed(s.timestamp, U32At(p, 4));
        (s.(sequence := Some(sequence), timestamp := t), ok)
  }

  class RtpHealth {
    const window: U32
    var ssrc: Option<U32>
    var sequence: Option<U16>
    var timestamp: Health
    var previous: nat

    function View(): Rtp
      reads this
    {
      Rtp(window, ssrc, sequence, timestamp, previous)
    }

    constructor (window: U32)
      ensures View() == Fresh(window)
    {
      this.window, ssrc, sequence, timestamp, previous := window, None, None, Health(window, None, 0), 0;
    }

    method Observe(packet: seq<Byte>) returns (ok: bool)
      modifies this
      ensures (View(), ok) == Received(old(View()), packet)
    {
      if |packet| < 12 || packet[0] / 64 != 2 {
        return false;
      }
      var number := U16At(packet, 2);
      var source := U32At(packet, 8);
      if ssrc.None? || ssrc.value != source {
        ssrc, sequence := Some(source), None;
        previous := previous + timestamp.advanced;
        timestamp := Health(window, None, 0);
      }
      if sequence.Some? && (number - sequence.value) % 0x1_0000 != 1 {
        return false;
      }
      sequence := Some(number);
      var (next, accepted) := Observed(timestamp, U32At(packet, 4));
      timestamp := next;
      return accepted;
    }
  }

  function Fresh(window: U32): Rtp {
    Rtp(window, None, None, Health(window, None, 0), 0)
  }

  function Run(r: Rtp, ps: seq<seq<Byte>>): Rtp
    decreases |ps|
  {
    if ps == [] then r else Run(Received(r, ps[0]).0, ps[1..])
  }

  predicate AllAccepted(r: Rtp, ps: seq<seq<Byte>>)
    decreases |ps|
  {
    ps == [] || (Received(r, ps[0]).1 && AllAccepted(Received(r, ps[0]).0, ps[1..]))
  }

  /** Progress is never taken back, not even when the SSRC changes. */
  lemma {:induction false} AdvancedNeverDecreases(r: Rtp, ps: seq<seq<Byte>>)
    ensures Advanced(Run(r, ps)) >= Advanced(r)
    decreases |ps|
  {
    if ps != [] {
      AdvancedNeverDecreases(Received(r, ps[0]).0, ps[1..]);
    }
  }

  /** In a run without rejection, packets of one SSRC that follow each other are numbered consecutively modulo 2^16. */
  lemma {:induction false} AcceptedRunIsConsecutive(r: Rtp, ps: seq<seq<Byte>>, i: nat)
    requires AllAccepted(r, ps) && i + 1 < |ps|
    ensures WellFormed(ps[i]) && WellFormed(ps[i + 1])
    ensures U32At(ps[i], 8) == U32At(ps[i + 1], 8) ==> Follows(U16At(ps[i + 1], 2), U16At(ps[i], 2))
    decreases i
  {
    var next := Received(r, ps[0]).0;
    if i == 0 {
      assert Received(next, ps[1..][0]).1;
    } else {
      AcceptedRunIsConsecutive(next, ps[1..], i - 1);
    }
  }

  /** Packets of one source with true timestamps `ts`. */
  predicate OneSource(ps: seq<seq<Byte>>, ssrc: U32, ts: seq<int>) {
    |ps| == |ts| && AllWellFormed(ps) && forall i | 0 <= i < |ps| :: U32At(ps[i], 8) == ssrc && U32At(ps[i], 4) == ts[i] % Period
  }

  predicate AllWellFormed(ps: seq<seq<Byte>>) {
    forall i | 0 <= i < |ps| :: WellFormed(ps[i])
  }

  /** Numbered without a gap. */
  ghost predicate Consecutive(ps: seq<seq<Byte>>)
    requires AllWellFormed(ps)
  {
    forall i, j | 0 <= i < j < |ps| && j == i + 1 :: Follows(U16At(ps[j], 2), U16At(ps[i], 2))
  }

  /** Each timestamp is in the reorder window of the maximum before it. */
  predicate InWindow(ts: seq<int>, window: U32) {
    forall i | 1 <= i < |ts| :: ts[i] >= Latest(ts[..i]) - window
  }

  lemma {:induction false} RunSnoc(r: Rtp, ps: seq<seq<Byte>>, p: seq<Byte>)
    ensures Run(r, ps + [p]) == Received(Run(r, ps), p).0
    ensures AllAccepted(r, ps + [p]) <==> AllAccepted(r, ps) && Received(Run(r, ps), p).1
    decreases |ps|
  {
    if ps == [] {
      assert [p][1..] == [];
      assert [] + [p] == [p];
    } else {
      assert (ps + [p])[1..] == ps[1..] + [p];
      RunSnoc(Received(r, ps[0]).0, ps[1..], p);
    }
  }

  lemma FrontAndLast<T>(s: seq<T>)
    requires s != []
    ensures s == s[..|s| - 1] + [s[|s| - 1]]
  {
  }

  lemma NearPrefix(ts: seq<int>)
    requires Near(ts) && ts != []
    ensures Near(ts[..|ts| - 1])
  {
    var front := ts[..|ts| - 1];
    forall i | 1 <= i < |front| ensures Latest(front[..i]) - Half < front[i] <= Latest(front[..i]) + Half { assert front[..i] == ts[..i]; }
  }

  /** The monitor after a run of one source that it accepted. */
  function Tracking(window: U32, ssrc: U32, ps: seq<seq<Byte>>, ts: seq<int>): Rtp
    requires ps != [] ==> WellFormed(ps[|ps| - 1])
  {
    if ps == [] then Fresh(window)
    else Rtp(window, Some(ssrc), Some(U16At(ps[|ps| - 1], 2)), After(window, ts), 0)
  }

  /** One more packet of the source. */
  lemma OnePacket(window: U32, ssrc: U32, ps: seq<seq<Byte>>, ts: seq<int>, p: seq<Byte>, t: int)
    requires (ps != [] ==> WellFormed(ps[|ps| - 1])) && (ps == [] <==> ts == [])
    requires WellFormed(p) && U32At(p, 8) == ssrc && U32At(p, 4) == t % Period
    ensures var (next, ok) := Received(Tracking(window, ssrc, ps, ts), p);
            && (ok <==> (ps != [] ==> Follows(U16At(p, 2), U16At(ps[|ps| - 1], 2))) && Observed(After(window, ts), t % Period).1)
            && (ok ==> next == Tracking(window, ssrc, ps + [p], ts + [t]))
  {
    assert (ts + [t])[..|ts|] == ts;
  }

  /**
    * One source, any number of wraps: every packet is accepted exactly if the numbers have no gap and no timestamp
    * falls behind the reorder window, and then the monitor has seen exactly this stream.
    */
  lemma {:induction false} SourceAcceptedIffHealthy(window: U32, ps: seq<seq<Byte>>, ssrc: U32, ts: seq<int>)
    requires OneSource(ps, ssrc, ts) && Near(ts)
    ensures AllAccepted(Fresh(window), ps) <==> Consecutive(ps) && InWindow(ts, window)
    ensures AllAccepted(Fresh(window), ps) ==> Run(Fresh(window), ps) == Tracking(window, ssrc, ps, ts)
    decreases |ps|
  {
    if ps != [] {
      var n := |ps| - 1;
      var front, p, before := ps[..n], ps[n], ts[..n];
      FrontAndLast(ps);
      FrontAndLast(ts);
      NearPrefix(ts);
      SourceAcceptedIffHealthy(window, front, ssrc, before);
      RunSnoc(Fresh(window), front, p);
      AcceptedIffInWindow(window, ts, n);
      OnePacket(window, ssrc, front, before, p, ts[n]);
      ConsecutiveSnoc(front, p);
      InWindowSnoc(before, ts[n], window);
    }
  }

  /** And then the monitor's progress is the true one. */
  lemma AcceptedSourceProgress(window: U32, ps: seq<seq<Byte>>, ssrc: U32, ts: seq<int>)
    requires OneSource(ps, ssrc, ts) && Near(ts) && ps != [] && AllAccepted(Fresh(window), ps)
    ensures Advanced(Run(Fresh(window), ps)) == Latest(ts) - ts[0]
  {
    SourceAcceptedIffHealthy(window, ps, ssrc, ts);
    AdvancedIsTrueProgress(window, ts);
  }

  lemma ConsecutiveSnoc(ps: seq<seq<Byte>>, p: seq<Byte>)
    requires WellFormed(p) && AllWellFormed(ps)
    ensures Consecutive(ps + [p]) <==> Consecutive(ps) && (ps != [] ==> Follows(U16At(p, 2), U16At(ps[|ps| - 1], 2)))
  {
    var all := ps + [p];
    assert forall i | 0 <= i < |ps| :: all[i] == ps[i];
    if Consecutive(all) && ps != [] {
      assert all[|ps|] == p && all[|ps| - 1] == ps[|ps| - 1];
    }
  }

  lemma InWindowSnoc(ts: seq<int>, t: int, window: U32)
    ensures InWindow(ts + [t], window) <==> InWindow(ts, window) && (ts != [] ==> t >= Latest(ts) - window)
  {
    var all := ts + [t];
    assert forall i | 0 <= i <= |ts| :: all[..i] == ts[..i];
    assert all[..|ts|] == ts && all[|ts|] == t;
  }
}
