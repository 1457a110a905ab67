/** The cyclic SSRC allocator of signaling/ssrc.go: 9999 slots, a cursor, and the slots in use. */
module SsrcAllocator {
  import opened Options

  const Slots := 9999

  datatype Kind = LiveReceiver | PlaybackReceiver

  /** `prefix` is the five-digit domain part times 10000. */
  datatype Alloc = Alloc(prefix: nat, next: nat, active: set<nat>) {
    predicate Valid() {
      && prefix % 10000 == 0 && prefix <= 999_990_000
      && 1 <= next <= Slots
      && forall slot | slot in active :: 1 <= slot <= Slots
    }
  }

  /** The slot `k` places after `slot` on the ring 1..9999. */
  function At(slot: nat, k: nat): (r: nat)
    requires 1 <= slot <= Slots
    ensures 1 <= r <= Slots
  {
    (slot - 1 + k) % Slots + 1
  }

  function Ssrc(prefix: nat, slot: nat, kind: Kind): nat {
    prefix + slot + (if kind.PlaybackReceiver? then 1_000_000_000 else 0)
  }

  /** Least offset from `k` on whose slot is free. */
  function FirstFree(a: Alloc, k: nat): (r: Option<nat>)
    requires a.Valid() && k <= Slots
    ensures r.Some? ==> k <= r.value < Slots && At(a.next, r.value) !in a.active
    ensures forall j | k <= j < (if r.Some? then r.value else Slots) :: At(a.next, j) in a.active
    decreases Slots - k
  {
    if k == Slots then None else if At(a.next, k) !in a.active then Some(k) else FirstFree(a, k + 1)
  }

  /** What `acquire` does to the allocator, and the SSRC it returns. */
  function Acquired(a: Alloc, kind: Kind): (r: (Alloc, Option<nat>))
    requires a.Valid()
    ensures r.0.Valid()
  {
    match FirstFree(a, 0)
    case None => (a, None)
    case Some(k) =>
      var slot := At(a.next, k);
      (a.(next := At(slot, 1), active := a.active + {slot}), Some(Ssrc(a.prefix, slot, kind)))
  }

  function Released(a: Alloc, ssrc: nat): Alloc {
    a.(active := a.active - {ssrc % 10000})
  }

  lemma AtAdds(slot: nat, j: nat, k: nat)
    requires 1 <= slot <= Slots
    ensures At(At(slot, j), k) == At(slot, j + k)
  {
  }

  lemma AtNext(slot: nat)
    requires 1 <= slot <= Slots
    ensures At(slot, 0) == slot == At(slot, Slots)
  {
  }

  /** The cursor's increment and wrap, lines 32-35. */
  method Advanced(slot: nat) returns (r: nat)
    requires 1 <= slot <= Slots
    ensures r == At(slot, 1)
  {
    r := slot + 1;
    if r == 10000 {
      r := 1;
    }
  }

  class Allocator {
    const prefix: nat
    var next: nat
    var active: set<nat>

    function State(): Alloc
      reads this
    {
      Alloc(prefix, next, active)
    }

    constructor (domainPart: nat)
      requires domainPart <= 99_999
      ensures State() == Alloc(domainPart * 10000, 1, {}) && State().Valid()
    {
      prefix, next, active := domainPart * 10000, 1, {};
    }

    method Acquire(kind: Kind) returns (ssrc: Option<nat>)
      requires State().Valid()
      modifies this
      ensures (State(), ssrc) == Acquired(old(State()), kind)
    {
      ghost var before := State();
      AtNext(next);
      for k := 0 to Slots
        invariant State() == before.(next := At(before.next, k))
        invariant FirstFree(before, 0) == FirstFree(before, k)
      {
        var candidate := next;
        AtAdds(before.next, k, 1);
        next := Advanced(next);
        if candidate !in active {
          active := active + {candidate};
          ssrc := Some(prefix + candidate);
          if kind.PlaybackReceiver? {
            ssrc := Some(ssrc.value + 1_000_000_000);
          }
          return;
        }
      }
      ssrc := None;
    }

    method Release(ssrc: nat)
      modifies this
      ensures State() == Released(old(State()), ssrc)
    {
      active := active - {ssrc % 10000};
    }
  }

  // ---------------------------------------------------------------------------------------------
  // One call
  // ---------------------------------------------------------------------------------------------

  /** Every slot is some offset from the cursor. */
  lemma OffsetOf(next: nat, slot: nat) returns (k: nat)
    requires 1 <= next <= Slots && 1 <= slot <= Slots
    ensures k < Slots && At(next, k) == slot
  {
    k := (slot - next + Slots) % Slots;
  }

  /** Refusal means that all 9999 slots are taken, and then nothing has changed. */
  lemma AcquireFailsIffFull(a: Alloc, kind: Kind)
    requires a.Valid()
    ensures Acquired(a, kind).1.None? <==> forall slot | 1 <= slot <= Slots :: slot in a.active
    ensures Acquired(a, kind).1.None? ==> Acquired(a, kind).0 == a
  {
    if Acquired(a, kind).1.None? {
      forall slot | 1 <= slot <= Slots ensures slot in a.active {
        var k := OffsetOf(a.next, slot);
      }
    }
  }

  // ---------------------------------------------------------------------------------------------
  // Histories
  // ---------------------------------------------------------------------------------------------

  /**
    * `Release(g)` is a call by the holder of grant `g`, with the value it was granted, perhaps not its first one;
    * `Stray` is a call with a value that its caller was never granted.
    */
  datatype Event = Acquire(kind: Kind) | Release(g: nat) | Stray(ssrc: nat)

  /** One successful `acquire`; it is open until its holder has released it. */
  datatype Grant = Grant(ssrc: nat, open: bool)

  /** `ticks` counts the cursor's advances. */
  datatype History = History(alloc: Alloc, grants: seq<Grant>, ticks: nat)

  function Fresh(prefix: nat): History {
    History(Alloc(prefix, 1, {}), [], 0)
  }

  predicate Holds(h: History, g: nat, slot: nat) {
    g < |h.grants| && h.grants[g].open && h.grants[g].ssrc % 10000 == slot
  }

  /** Every open grant has its slot for itself, and every slot in use belongs to one. */
  ghost predicate Sound(h: History) {
    && h.alloc.Valid()
    && (forall g | 0 <= g < |h.grants| :: h.grants[g].open ==> h.grants[g].ssrc % 10000 in h.alloc.active)
    && (forall f, g | 0 <= f < g < |h.grants| :: h.grants[f].open && h.grants[g].open ==> h.grants[f].ssrc % 10000 != h.grants[g].ssrc % 10000)
    && (forall slot | slot in h.alloc.active :: exists g: nat :: Holds(h, g, slot))
  }

  /** Every value ever granted was composed of the prefix and a slot. */
  predicate Granted(h: History) {
    forall g | 0 <= g < |h.grants| ::
      var v := h.grants[g].ssrc; var slot := v % 10000;
      1 <= slot <= Slots && (v == Ssrc(h.alloc.prefix, slot, LiveReceiver) || v == Ssrc(h.alloc.prefix, slot, PlaybackReceiver))
  }

  function Ticks(a: Alloc): nat
    requires a.Valid()
  {
    match FirstFree(a, 0) case None => Slots case Some(k) => k + 1
  }

  function Step(h: History, e: Event): History
    requires h.alloc.Valid()
    ensures Step(h, e).alloc.Valid()
  {
    match e
    case Acquire(kind) =>
      var (a, r) := Acquired(h.alloc, kind);
      History(a, if r.Some? then h.grants + [Grant(r.value, true)] else h.grants, h.ticks + Ticks(h.alloc))
    case Release(g) =>
      if g < |h.grants| then
        h.(alloc := Released(h.alloc, h.grants[g].ssrc), grants := h.grants[g := h.grants[g].(open := false)])
      else h
    case Stray(v) => h.(alloc := Released(h.alloc, v))
  }

  function Run(h: History, es: seq<Event>): (r: History)
    requires h.alloc.Valid()
    ensures r.alloc.Valid()
    decreases |es|
  {
    if es == [] then h else Run(Step(h, es[0]), es[1..])
  }

  lemma SsrcSlot(prefix: nat, slot: nat, kind: Kind)
    requires prefix % 10000 == 0 && prefix <= 999_990_000 && 1 <= slot <= Slots
    ensures Ssrc(prefix, slot, kind) % 10000 == slot && Ssrc(prefix, slot, kind) < 0x1_0000_0000
  {
  }

  lemma AcquireKeepsSound(h: History, kind: Kind)
    requires Sound(h)
    ensures Sound(Step(h, Acquire(kind)))
  {
    var t := Step(h, Acquire(kind));
    var r := Acquired(h.alloc, kind).1;
    if r.Some? {
      var slot := At(h.alloc.next, FirstFree(h.alloc, 0).value);
      SsrcSlot(h.alloc.prefix, slot, kind);
      assert Holds(t, |h.grants|, slot);
      forall s | s in t.alloc.active && s != slot ensures exists g: nat :: Holds(t, g, s) {
        var g: nat :| Holds(h, g, s);
        assert Holds(t, g, s);
      }
    } else {
      forall s | s in t.alloc.active ensures exists g: nat :: Holds(t, g, s) {
        var g: nat :| Holds(h, g, s);
        assert Holds(t, g, s);
      }
    }
  }

  /** A release is harmless if and only if it is its holder's first one or the slot is free. */
  lemma ReleaseKeepsSoundIff(h: History, g: nat)
    requires Sound(h) && g < |h.grants|
    ensures Sound(Step(h, Release(g))) <==> h.grants[g].open || h.grants[g].ssrc % 10000 !in h.alloc.active
  {
    var t, slot := Step(h, Release(g)), h.grants[g].ssrc % 10000;
    if h.grants[g].open || slot !in h.alloc.active {
      forall s | s in t.alloc.active ensures exists k: nat :: Holds(t, k, s) {
        var k: nat :| Holds(h, k, s);
        assert Holds(t, k, s);
      }
    } else {
      var k: nat :| Holds(h, k, slot);
      assert t.grants[k] == h.grants[k] && slot !in t.alloc.active;
    }
  }

  /** A release of a value that was not granted to its caller is harmless if and only if the slot is free. */
  lemma StrayKeepsSoundIff(h: History, v: nat)
    requires Sound(h)
    ensures Sound(Step(h, Stray(v))) <==> v % 10000 !in h.alloc.active
  {
    var t := Step(h, Stray(v));
    if v % 10000 in h.alloc.active {
      var k: nat :| Holds(h, k, v % 10000);
      assert t.grants[k] == h.grants[k];
    } else {
      assert t == h;
    }
  }

  /** What the callers owe: each holder releases once, and nobody releases what was not granted to them. */
  predicate Harmless(h: History, e: Event) {
    match e
    case Acquire(_) => true
    case Release(g) => g < |h.grants| ==> h.grants[g].open || h.grants[g].ssrc % 10000 !in h.alloc.active
    case Stray(v) => v % 10000 !in h.alloc.active
  }

  predicate AllHarmless(h: History, es: seq<Event>)
    requires h.alloc.Valid()
    decreases |es|
  {
    es == [] || (Harmless(h, es[0]) && AllHarmless(Step(h, es[0]), es[1..]))
  }

  /** Sound now and after every event. */
  ghost predicate SoundThroughout(h: History, es: seq<Event>)
    requires h.alloc.Valid()
    decreases |es|
  {
    Sound(h) && (es == [] || SoundThroughout(Step(h, es[0]), es[1..]))
  }

  lemma StepKeepsSoundIff(h: History, e: Event)
    requires Sound(h)
    ensures Sound(Step(h, e)) <==> Harmless(h, e)
  {
    match e
    case Acquire(kind) => AcquireKeepsSound(h, kind);
    case Release(g) => if g < |h.grants| { ReleaseKeepsSoundIff(h, g); }
    case Stray(v) => StrayKeepsSoundIff(h, v);
  }

  /** A history stays sound throughout if and only if all its releases are harmless. */
  lemma {:induction false} RunStaysSoundIff(h: History, es: seq<Event>)
    requires Sound(h)
    ensures SoundThroughout(h, es) <==> AllHarmless(h, es)
    ensures AllHarmless(h, es) ==> Sound(Run(h, es))
    decreases |es|
  {
    if es != [] {
      StepKeepsSoundIff(h, es[0]);
      if Harmless(h, es[0]) {
        RunStaysSoundIff(Step(h, es[0]), es[1..]);
      }
    }
  }

  lemma {:induction false} RunKeepsGranted(h: History, es: seq<Event>)
    requires h.alloc.Valid() && Granted(h)
    ensures Granted(Run(h, es))
    decreases |es|
  {
    if es != [] {
      if es[0].Acquire? && FirstFree(h.alloc, 0).Some? {
        SsrcSlot(h.alloc.prefix, At(h.alloc.next, FirstFree(h.alloc, 0).value), es[0].kind);
      }
      RunKeepsGranted(Step(h, es[0]), es[1..]);
    }
  }

  /** Over every such history two open grants, of either kind, differ modulo 10000, and every grant fits 32 bits. */
  lemma OpenGrantsAreDistinct(prefix: nat, es: seq<Event>, f: nat, g: nat)
    requires prefix % 10000 == 0 && prefix <= 999_990_000 && AllHarmless(Fresh(prefix), es)
    requires var h := Run(Fresh(prefix), es); f < |h.grants| && g < |h.grants| && h.grants[f].open && h.grants[g].open
    ensures var h := Run(Fresh(prefix), es);
            h.grants[f].ssrc < 0x1_0000_0000 && (f != g ==> h.grants[f].ssrc % 10000 != h.grants[g].ssrc % 10000)
  {
    RunStaysSoundIff(Fresh(prefix), es);
    RunKeepsGranted(Fresh(prefix), es);
    PrefixStays(Fresh(prefix), es);
  }

  // ---------------------------------------------------------------------------------------------
  // A second release by the same holder
  // ---------------------------------------------------------------------------------------------

  function Range(lo: nat, hi: nat): (r: set<nat>)
    ensures forall slot: nat :: slot in r <==> lo <= slot <= hi
    decreases hi
  {
    if hi < lo then {} else if hi == 0 then {0} else Range(lo, hi - 1) + {hi}
  }

  /** All slots up to `n` granted in turn. */
  function Filled(prefix: nat, n: nat): History
    requires n <= Slots
  {
    History(Alloc(prefix, At(1, n), Range(1, n)), seq(n, i requires 0 <= i < n => Grant(prefix + i + 1, true)), n)
  }

  function Acquires(n: nat): seq<Event> {
    seq(n, _ => Acquire(LiveReceiver))
  }

  lemma {:induction false} RunSnoc(h: History, es: seq<Event>, e: Event)
    requires h.alloc.Valid()
    ensures Run(h, es + [e]) == Step(Run(h, es), e)
    decreases |es|
  {
    if es == [] {
      assert Run(h, [e]) == Run(Step(h, e), [e][1..]);
    } else {
      assert (es + [e])[1..] == es[1..] + [e];
      RunSnoc(Step(h, es[0]), es[1..], e);
    }
  }

  lemma FillOne(prefix: nat, n: nat)
    requires prefix % 10000 == 0 && prefix <= 999_990_000 && n < Slots
    ensures Filled(prefix, n).alloc.Valid() && Step(Filled(prefix, n), Acquire(LiveReceiver)) == Filled(prefix, n + 1)
  {
    var h := Filled(prefix, n);
    AtAdds(1, n, 0);
    AtAdds(1, n, 1);
    assert At(h.alloc.next, 0) == n + 1;
    assert FirstFree(h.alloc, 0) == Some(0);
    assert h.alloc.active + {n + 1} == Filled(prefix, n + 1).alloc.active;
    assert h.grants + [Grant(prefix + n + 1, true)] == Filled(prefix, n + 1).grants;
  }

  lemma {:induction false} FillAll(prefix: nat, n: nat)
    requires prefix % 10000 == 0 && prefix <= 999_990_000 && n <= Slots
    ensures Fresh(prefix).alloc.Valid() && Run(Fresh(prefix), Acquires(n)) == Filled(prefix, n)
  {
    if n > 0 {
      FillAll(prefix, n - 1);
      FillOne(prefix, n - 1);
      assert Acquires(n) == Acquires(n - 1) + [Acquire(LiveReceiver)];
      RunSnoc(Fresh(prefix), Acquires(n - 1), Acquire(LiveReceiver));
    }
  }

  /** With slot 1 alone free it is the slot that is granted. */
  lemma OnlyOneFree(a: Alloc, kind: Kind)
    requires a.Valid() && a.active == Range(2, Slots)
    ensures Acquired(a, kind) == (a.(next := 2, active := Range(1, Slots)), Some(Ssrc(a.prefix, 1, kind)))
  {
    AcquireFailsIffFull(a, kind);
    assert 1 !in a.active;
    var k := FirstFree(a, 0);
    assert k.Some?;
    assert At(a.next, k.value) == 1;
    assert a.active + {1} == Range(1, Slots);
  }

  /** All slots are in use, and grant 0 was one of slot 1. */
  predicate Full(h: History) {
    && h.alloc.Valid() && h.alloc.active == Range(1, Slots)
    && h.grants != [] && h.grants[0].ssrc == h.alloc.prefix + 1
  }

  /** When grant 0 releases, first or not, slot 1 is what the next `acquire` grants. */
  lemma ReleaseAndRegrant(h: History)
    requires Full(h)
    ensures var t := Step(Step(h, Release(0)), Acquire(LiveReceiver));
            Full(t) && t.alloc.prefix == h.alloc.prefix && t.grants == h.grants[0 := h.grants[0].(open := false)] + [Grant(h.alloc.prefix + 1, true)]
  {
    ReleaseFirst(h);
    RegrantFirst(Step(h, Release(0)));
  }

  lemma ReleaseFirst(h: History)
    requires Full(h)
    ensures var m := Step(h, Release(0));
            m.alloc == h.alloc.(active := Range(2, Slots)) && m.grants == h.grants[0 := h.grants[0].(open := false)]
  {
    SsrcSlot(h.alloc.prefix, 1, LiveReceiver);
    AllButOne();
  }

  lemma RegrantFirst(m: History)
    requires m.alloc.Valid() && m.alloc.active == Range(2, Slots)
    ensures var t := Step(m, Acquire(LiveReceiver));
            t.alloc == m.alloc.(next := 2, active := Range(1, Slots)) && t.grants == m.grants + [Grant(m.alloc.prefix + 1, true)]
  {
    OnlyOneFree(m.alloc, LiveReceiver);
  }

  lemma AllButOne()
    ensures Range(1, Slots) - {1} == Range(2, Slots)
  {
  }

  lemma FilledIsFull(prefix: nat)
    requires prefix % 10000 == 0 && prefix <= 999_990_000
    ensures Full(Filled(prefix, Slots)) && |Filled(prefix, Slots).grants| == Slots
  {
  }

  /** The holder of grant 0 releases and slot 1 is granted again, twice over. */
  function Twice(h: History): History
    requires h.alloc.Valid()
  {
    Step(Step(Step(Step(h, Release(0)), Acquire(LiveReceiver)), Release(0)), Acquire(LiveReceiver))
  }

  lemma RunsTwice(h: History, es: seq<Event>)
    requires h.alloc.Valid()
    ensures Run(h, es + [Release(0)] + [Acquire(LiveReceiver)] + [Release(0)] + [Acquire(LiveReceiver)]) == Twice(Run(h, es))
  {
    RunSnoc(h, es, Release(0));
    RunSnoc(h, es + [Release(0)], Acquire(LiveReceiver));
    RunSnoc(h, es + [Release(0)] + [Acquire(LiveReceiver)], Release(0));
    RunSnoc(h, es + [Release(0)] + [Acquire(LiveReceiver)] + [Release(0)], Acquire(LiveReceiver));
  }

  lemma TwiceShares(h: History)
    requires Full(h)
    ensures var t := Twice(h); var n := |h.grants|;
            |t.grants| == n + 2 && t.grants[n].open && t.grants[n + 1].open && t.grants[n].ssrc == t.grants[n + 1].ssrc
  {
    ReleaseAndRegrant(h);
    ReleaseAndRegrant(Step(Step(h, Release(0)), Acquire(LiveReceiver)));
  }

  /**
    * From the fresh allocator: all slots are granted, the holder of the first releases it, it is granted again, and
    * the first holder releases a second time. The slot in use is freed, and the next `acquire` grants its value to a
    * second holder while the other still has it.
    */
  lemma SecondReleaseSharesValue(prefix: nat)
    requires prefix % 10000 == 0 && prefix <= 999_990_000
    ensures var es := Acquires(Slots) + [Release(0)] + [Acquire(LiveReceiver)] + [Release(0)] + [Acquire(LiveReceiver)];
            var h := Run(Fresh(prefix), es);
            && |h.grants| == Slots + 2 && h.grants[Slots].open && h.grants[Slots + 1].open
            && h.grants[Slots].ssrc == h.grants[Slots + 1].ssrc
  {
    FillAll(prefix, Slots);
    FilledIsFull(prefix);
    TwiceShares(Filled(prefix, Slots));
    RunsTwice(Fresh(prefix), Acquires(Slots));
  }

  // ---------------------------------------------------------------------------------------------
  // The cursor
  // ---------------------------------------------------------------------------------------------

  lemma {:induction false} PrefixStays(h: History, es: seq<Event>)
    requires h.alloc.Valid()
    ensures Run(h, es).alloc.prefix == h.alloc.prefix
    decreases |es|
  {
    if es != [] {
      PrefixStays(Step(h, es[0]), es[1..]);
    }
  }

  /** The cursor is where its ticks have brought it. */
  lemma {:induction false} CursorFollowsTicks(h: History, es: seq<Event>)
    requires h.alloc.Valid()
    ensures Run(h, es).ticks >= h.ticks
    ensures Run(h, es).alloc.next == At(h.alloc.next, Run(h, es).ticks - h.ticks)
    decreases |es|
  {
    if es != [] {
      var t := Step(h, es[0]);
      CursorFollowsTicks(t, es[1..]);
      StepMovesCursor(h, es[0]);
      AtAdds(h.alloc.next, t.ticks - h.ticks, Run(h, es).ticks - t.ticks);
    }
  }

  lemma StepMovesCursor(h: History, e: Event)
    requires h.alloc.Valid()
    ensures Step(h, e).ticks >= h.ticks
    ensures Step(h, e).alloc.next == At(h.alloc.next, Step(h, e).ticks - h.ticks)
  {
    AtNext(h.alloc.next);
    if e.Acquire? && FirstFree(h.alloc, 0).Some? {
      AtAdds(h.alloc.next, FirstFree(h.alloc, 0).value, 1);
    }
  }

  /**
    * A slot comes round again only after whole laps: if `h` has just granted `slot`, and the last event of `es`
    * grants it again, the cursor has passed all 9999 slots some number of times, at least once.
    */
  lemma RegrantTakesFullLaps(h: History, es: seq<Event>, kind: Kind, slot: nat)
    requires h.alloc.Valid() && 1 <= slot <= Slots && h.alloc.next == At(slot, 1)
    requires Acquired(Run(h, es).alloc, kind).1 == Some(Ssrc(h.alloc.prefix, slot, kind))
    ensures var laps := Step(Run(h, es), Acquire(kind)).ticks - h.ticks;
            laps >= Slots && laps % Slots == 0
  {
    PrefixStays(h, es);
    CursorPassesGrant(Run(h, es).alloc, kind, slot);
    CursorReturns(h, es, kind);
    var laps := Step(Run(h, es), Acquire(kind)).ticks - h.ticks;
    FullLaps(h.alloc.next, laps);
  }

  /** If a grant brings the cursor back to where it was, its ticks do. */
  lemma CursorReturns(h: History, es: seq<Event>, kind: Kind)
    requires h.alloc.Valid() && Acquired(Run(h, es).alloc, kind).0.next == h.alloc.next && Ticks(Run(h, es).alloc) >= 1
    ensures var laps := Step(Run(h, es), Acquire(kind)).ticks - h.ticks; laps >= 1 && At(h.alloc.next, laps) == h.alloc.next
  {
    RunSnoc(h, es, Acquire(kind));
    assert Run(h, es).ticks >= h.ticks by { CursorFollowsTicks(h, es); }
    CursorFollowsTicks(h, es + [Acquire(kind)]);
  }

  /** After a grant the cursor stands right behind the slot. */
  lemma CursorPassesGrant(a: Alloc, kind: Kind, slot: nat)
    requires a.Valid() && 1 <= slot <= Slots && Acquired(a, kind).1 == Some(Ssrc(a.prefix, slot, kind))
    ensures Acquired(a, kind).0.next == At(slot, 1) && Ticks(a) >= 1
  {
    assert At(a.next, FirstFree(a, 0).value) == slot;
  }

  lemma FullLaps(slot: nat, t: nat)
    requires 1 <= slot <= Slots && t >= 1 && At(slot, t) == slot
    ensures t >= Slots && t % Slots == 0
  {
    assert (slot - 1 + t) % Slots == (slot - 1) % Slots;
  }
}
