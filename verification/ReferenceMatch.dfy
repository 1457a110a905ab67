/**
  * `compare_reference` of bench/gb_av_probe.py: does captured audio occur in a looped reference without a break?
  * Anchors are searched with windows of 100, 200, 400, ... units, then all units are compared in order.
  */
module ReferenceMatch {
  import opened Arithmetic
  import opened Bytes
  import opened Options

  const AnchorUnits := 100

  /** Element `i` after position `p` of the endlessly repeated reference. */
  function Cyclic<T>(ref: seq<T>, p: nat, i: nat): T
    requires |ref| > 0
  {
    ref[(p + i) % |ref|]
  }

  /** `s` is the part of the endlessly repeated reference that starts at `p`. */
  predicate CyclicAt<T(==)>(ref: seq<T>, p: nat, s: seq<T>)
    requires |ref| > 0
  {
    forall i | 0 <= i < |s| :: Cyclic(ref, p, i) == s[i]
  }

  /** The position `n` elements after `p`. */
  function Advance(p: nat, n: nat, size: nat): (r: nat)
    requires size > 0
    ensures r < size
  {
    (p + n) % size
  }

  /** AAC compares frames modulo the reference length; G.711 compares bytes with slices of a repeated reference. */
  datatype Matcher<T> = Frames(ref: seq<T>) | Ring(ref: seq<T>, ring: seq<T>)

  predicate Repeats<T(==)>(ring: seq<T>, ref: seq<T>) {
    |ref| > 0 && forall i | 0 <= i < |ring| :: ring[i] == ref[i % |ref|]
  }

  /** Frames come one to a unit; a ring must reach past its first lap by the length of all units. */
  predicate Fits<T(==)>(m: Matcher<T>, units: seq<seq<T>>) {
    && |m.ref| > 0
    && match m
       case Frames(_) => forall i | 0 <= i < |units| :: |units[i]| == 1
       case Ring(ref, ring) => Repeats(ring, ref) && |ring| >= |ref| + |Join(units)|
  }

  /** A Python slice of the ring, cut off at its end, compared with `s`. */
  predicate SliceEquals<T(==)>(ring: seq<T>, p: nat, s: seq<T>) {
    ring[Min(p, |ring|)..Min(p + |s|, |ring|)] == s
  }

  function Window<T>(units: seq<seq<T>>, first: nat, count: nat): seq<seq<T>>
    requires first <= |units|
  {
    units[first..Min(first + count, |units|)]
  }

  predicate WindowMatches<T(==)>(m: Matcher<T>, units: seq<seq<T>>, p: nat, first: nat, count: nat)
    requires |m.ref| > 0 && first <= |units|
  {
    match m
    case Frames(known) =>
      var w := Window(units, first, count);
      forall i | 0 <= i < |w| :: w[i] == [known[(p + i) % |known|]]
    case Ring(_, ring) => SliceEquals(ring, p, Join(Window(units, first, count)))
  }

  predicate UnitMatches<T(==)>(m: Matcher<T>, p: nat, unit: seq<T>)
    requires p < |m.ref|
  {
    match m
    case Frames(known) => [known[p]] == unit
    case Ring(_, ring) => SliceEquals(ring, p, unit)
  }

  // ---------------------------------------------------------------------------------------------
  // The two ways of comparing agree with the specification
  // ---------------------------------------------------------------------------------------------

  lemma RingSlice<T>(ring: seq<T>, ref: seq<T>, p: nat, s: seq<T>)
    requires Repeats(ring, ref) && p + |s| <= |ring|
    ensures SliceEquals(ring, p, s) <==> CyclicAt(ref, p, s)
  {
    var slice := ring[p..p + |s|];
    if SliceEquals(ring, p, s) {
      forall i | 0 <= i < |s| ensures Cyclic(ref, p, i) == s[i] { assert slice[i] == ring[p + i]; }
    }
    if CyclicAt(ref, p, s) {
      forall i | 0 <= i < |s| ensures slice[i] == s[i] { assert ring[p + i] == ref[(p + i) % |ref|]; }
      assert slice == s;
    }
  }

  lemma {:induction false} JoinSingletons<T>(units: seq<seq<T>>, i: nat)
    requires forall k | 0 <= k < |units| :: |units[k]| == 1
    ensures |Join(units)| == |units| && (i < |units| ==> Join(units)[i] == units[i][0])
    decreases |units|
  {
    if units != [] {
      JoinSingletons(units[1..], if i == 0 then 0 else i - 1);
    }
  }

  lemma WindowIsShort<T>(units: seq<seq<T>>, first: nat, count: nat)
    requires first <= |units|
    ensures |Join(Window(units, first, count))| <= |Join(units)|
  {
    var last := Min(first + count, |units|);
    JoinSplit(units, first);
    JoinSplit(units[first..], last - first);
    assert units[first..][..last - first] == units[first..last];
  }

  lemma WindowMatchesIff<T>(m: Matcher<T>, units: seq<seq<T>>, p: nat, first: nat, count: nat)
    requires Fits(m, units) && p < |m.ref| && first <= |units|
    ensures WindowMatches(m, units, p, first, count) <==> CyclicAt(m.ref, p, Join(Window(units, first, count)))
  {
    var w := Window(units, first, count);
    match m
    case Ring(ref, ring) =>
      WindowIsShort(units, first, count);
      RingSlice(ring, ref, p, Join(w));
    case Frames(known) =>
      forall i: nat | i < |w| ensures |Join(w)| == |w| && Join(w)[i] == w[i][0] { JoinSingletons(w, i); }
      JoinSingletons(w, 0);
      forall i | 0 <= i < |w| ensures w[i] == [w[i][0]] { assert |w[i]| == 1; }
  }

  lemma UnitIsShort<T>(units: seq<seq<T>>, i: nat)
    requires i < |units|
    ensures |units[i]| <= |Join(units)|
  {
    JoinSplit(units, i);
    assert Join(units[i..]) == units[i] + Join(units[i..][1..]);
  }

  lemma UnitMatchesIff<T>(m: Matcher<T>, units: seq<seq<T>>, p: nat, i: nat)
    requires Fits(m, units) && p < |m.ref| && i < |units|
    ensures UnitMatches(m, p, units[i]) <==> CyclicAt(m.ref, p, units[i])
  {
    match m
    case Ring(ref, ring) =>
      UnitIsShort(units, i);
      RingSlice(ring, ref, p, units[i]);
    case Frames(known) =>
      assert |units[i]| == 1 && (p + 0) % |known| == p;
  }

  lemma CyclicConcat<T>(ref: seq<T>, p: nat, a: seq<T>, b: seq<T>)
    requires |ref| > 0
    ensures CyclicAt(ref, p, a + b) <==> CyclicAt(ref, p, a) && CyclicAt(ref, (p + |a|) % |ref|, b)
  {
    CyclicSplit(ref, p, a, b);
    CyclicWraps(ref, p + |a|, b);
  }

  lemma CyclicSplit<T>(ref: seq<T>, p: nat, a: seq<T>, b: seq<T>)
    requires |ref| > 0
    ensures CyclicAt(ref, p, a + b) <==> CyclicAt(ref, p, a) && CyclicAt(ref, p + |a|, b)
  {
    if CyclicAt(ref, p, a + b) {
      forall i | 0 <= i < |a| ensures Cyclic(ref, p, i) == a[i] { assert (a + b)[i] == a[i]; }
      forall i | 0 <= i < |b| ensures Cyclic(ref, p + |a|, i) == b[i] { assert (a + b)[|a| + i] == b[i]; }
    }
    if CyclicAt(ref, p, a) && CyclicAt(ref, p + |a|, b) {
      forall i | 0 <= i < |a + b| ensures Cyclic(ref, p, i) == (a + b)[i] {
        assert i >= |a| ==> Cyclic(ref, p + |a|, i - |a|) == b[i - |a|];
      }
    }
  }

  lemma CyclicWraps<T>(ref: seq<T>, p: nat, s: seq<T>)
    requires |ref| > 0
    ensures CyclicAt(ref, p % |ref|, s) <==> CyclicAt(ref, p, s)
  {
    forall i: nat ensures Cyclic(ref, p % |ref|, i) == Cyclic(ref, p, i) { ModShift(p, i, |ref|); }
  }

  lemma ModShift(a: nat, i: nat, n: nat)
    requires n > 0
    ensures (a % n + i) % n == (a + i) % n
  {
    var x := a % n + i;
    assert a + i == n * (a / n) + x;
    assert n * (a / n) + n * (x / n) == n * (a / n + x / n);
    DivisionIsUnique(a + i, n, a / n + x / n, x % n);
  }

  // ---------------------------------------------------------------------------------------------
  // Anchors
  // ---------------------------------------------------------------------------------------------

  /** A position from which everything from unit `first` on matches. */
  predicate TrueAnchor<T(==)>(m: Matcher<T>, units: seq<seq<T>>, first: nat, p: nat)
    requires |m.ref| > 0 && first <= |units|
  {
    p < |m.ref| && CyclicAt(m.ref, p, Join(units[first..]))
  }

  /** A true anchor survives every window. */
  lemma AnchorMatchesWindow<T>(m: Matcher<T>, units: seq<seq<T>>, first: nat, count: nat, p: nat)
    requires Fits(m, units) && first <= |units| && TrueAnchor(m, units, first, p)
    ensures WindowMatches(m, units, p, first, count)
  {
    var rest := SplitAtWindow(units, first, count);
    CyclicConcat(m.ref, p, Join(Window(units, first, count)), rest);
    WindowMatchesIff(m, units, p, first, count);
  }

  lemma SplitAtWindow<T>(units: seq<seq<T>>, first: nat, count: nat) returns (rest: seq<T>)
    requires first <= |units|
    ensures Join(units[first..]) == Join(Window(units, first, count)) + rest
  {
    var k := Min(first + count, |units|) - first;
    rest := Join(units[first..][k..]);
    JoinSplit(units[first..], k);
    assert units[first..][..k] == Window(units, first, count);
  }

  /** A window that reaches the end leaves only true anchors. */
  lemma FullWindowIsAnchor<T>(m: Matcher<T>, units: seq<seq<T>>, first: nat, count: nat, p: nat)
    requires Fits(m, units) && first <= |units| <= first + count && p < |m.ref| && WindowMatches(m, units, p, first, count)
    ensures TrueAnchor(m, units, first, p)
  {
    WindowMatchesIff(m, units, p, first, count);
    assert Window(units, first, count) == units[first..];
  }

  predicate Ascending(s: seq<nat>) {
    forall i, j | 0 <= i < j < |s| :: s[i] < s[j]
  }

  lemma AscendingSnoc(s: seq<nat>, x: nat)
    requires Ascending(s) && forall q | q in s :: q < x
    ensures Ascending(s + [x])
  {
    forall i | 0 <= i < |s| ensures s[i] < x { assert s[i] in s; }
  }

  /** All starting positions of one unit in the first lap, in order; an empty G.711 unit has none. */
  method Candidates<T(==)>(m: Matcher<T>, units: seq<seq<T>>, first: nat) returns (found: seq<nat>)
    requires Fits(m, units) && first < |units|
    ensures Ascending(found) && forall p | p in found :: p < |m.ref|
    ensures units[first] == [] ==> found == []
    ensures forall p: nat | p < |m.ref| :: p in found <==> units[first] != [] && CyclicAt(m.ref, p, units[first])
  {
    found := [];
    if units[first] == [] {
      return;
    }
    var p := 0;
    while p < |m.ref|
      invariant 0 <= p <= |m.ref|
      invariant Ascending(found) && forall q | q in found :: q < p
      invariant forall q: nat | q < p :: q in found <==> CyclicAt(m.ref, q, units[first])
    {
      UnitMatchesIff(m, units, p, first);
      if UnitMatches(m, p, units[first]) {
        AscendingSnoc(found, p);
        found := found + [p];
      }
      p := p + 1;
    }
  }

  method Filter<T(==)>(m: Matcher<T>, units: seq<seq<T>>, positions: seq<nat>, first: nat, count: nat) returns (kept: seq<nat>)
    requires |m.ref| > 0 && first <= |units| && Ascending(positions)
    ensures |kept| <= |positions|
    ensures Ascending(kept) && forall p: nat :: p in kept <==> p in positions && WindowMatches(m, units, p, first, count)
  {
    kept := [];
    var i := 0;
    while i < |positions|
      invariant 0 <= |kept| <= i <= |positions|
      invariant Ascending(kept) && forall p: nat :: p in kept <==> p in positions[..i] && WindowMatches(m, units, p, first, count)
    {
      assert positions[..i + 1] == positions[..i] + [positions[i]];
      if WindowMatches(m, units, positions[i], first, count) {
        forall p | p in kept ensures p < positions[i] { assert p in positions[..i]; }
        AscendingSnoc(kept, positions[i]);
        kept := kept + [positions[i]];
      }
      i := i + 1;
    }
    assert positions[..i] == positions;
  }

  /** Doubling windows until one candidate is left or the window covers the rest: the least true anchor is never lost. */
  method Locate<T(==)>(m: Matcher<T>, units: seq<seq<T>>, first: nat) returns (r: Option<nat>)
    requires Fits(m, units) && first < |units|
    ensures r.Some? ==> r.value < |m.ref|
    ensures forall p: nat | units[first] != [] && TrueAnchor(m, units, first, p) :: r.Some? && r.value <= p
    ensures (exists p: nat :: units[first] != [] && TrueAnchor(m, units, first, p)) ==> r.Some? && TrueAnchor(m, units, first, r.value)
    ensures units[first] == [] ==> r.None?
  {
    var count := AnchorUnits;
    var found: seq<nat> := Candidates(m, units, first);
    forall p: nat | units[first] != [] && TrueAnchor(m, units, first, p) ensures p in found { AnchorStartsUnit(m, units, first, p); }
    found := Filter(m, units, found, first, count);
    forall p: nat | units[first] != [] && TrueAnchor(m, units, first, p) ensures p in found { AnchorMatchesWindow(m, units, first, count, p); }
    while |found| > 1 && first + count < |units|
      invariant Ascending(found) && count > 0 && forall p | p in found :: p < |m.ref| && WindowMatches(m, units, p, first, count)
      invariant forall p: nat | units[first] != [] && TrueAnchor(m, units, first, p) :: p in found
      invariant units[first] == [] ==> found == []
      decreases |units| - first - count
    {
      count := count * 2;
      found := Filter(m, units, found, first, count);
      forall p: nat | units[first] != [] && TrueAnchor(m, units, first, p) ensures p in found { AnchorMatchesWindow(m, units, first, count, p); }
    }
    if found == [] {
      return None;
    }
    r := Some(found[0]);
    assert found[0] in found;
    if first + count >= |units| {
      FullWindowIsAnchor(m, units, first, count, found[0]);
    } else {
      assert forall p | p in found :: p == found[0];
    }
  }

  lemma AnchorStartsUnit<T>(m: Matcher<T>, units: seq<seq<T>>, first: nat, p: nat)
    requires |m.ref| > 0 && first < |units| && TrueAnchor(m, units, first, p)
    ensures CyclicAt(m.ref, p, units[first])
  {
    assert units[first..][0] == units[first];
    CyclicConcat(m.ref, p, units[first], Join(units[first..][1..]));
  }

  // ---------------------------------------------------------------------------------------------
  // The verdict
  // ---------------------------------------------------------------------------------------------

  datatype Verdict = Verdict(located: bool, matched: nat, unmatched: nat, jumps: nat, ok: bool)

  /** The units are one unbroken stretch of the looped reference. */
  predicate Excerpt<T(==)>(ref: seq<T>, s: seq<T>)
    requires |ref| > 0
  {
    exists p | 0 <= p < |ref| :: CyclicAt(ref, p, s)
  }

  /**
    * Whatever jumps are found on the way, `ok` decides exactly one thing: all units together are an unbroken cyclic
    * excerpt, and the first of them is not empty.
    */
  method Compare<T(==)>(m: Matcher<T>, units: seq<seq<T>>) returns (v: Verdict)
    requires Fits(m, units)
    ensures v.ok <==> units != [] && units[0] != [] && Excerpt(m.ref, Join(units))
    ensures v.located ==> v.matched + v.unmatched == |units| && v.jumps <= v.matched
    ensures v.ok <==> v.located && v.unmatched == 0 && v.jumps == 0
  {
    var anchor: Option<nat> := None;
    if units != [] {
      anchor := Locate(m, units, 0);
      assert units[0..] == units;
    }
    if anchor.None? {
      LocatedOrNot(m, units);
      return Verdict(false, 0, 0, 0, false);
    }
    var matched, unmatched, jumps := Walk(m, units, anchor.value);
    v := Verdict(true, matched, unmatched, jumps, unmatched == 0 && jumps == 0 && matched > 0);
    Concludes(m, units, anchor.value, v.ok);
  }

  /** The comparison loop: nothing missed and no jump exactly if everything matches from the anchor on. */
  method Walk<T(==)>(m: Matcher<T>, units: seq<seq<T>>, anchor: nat) returns (matched: nat, unmatched: nat, jumps: nat)
    requires Fits(m, units) && anchor < |m.ref|
    ensures matched + unmatched == |units| && jumps <= matched
    ensures unmatched == 0 && jumps == 0 <==> CyclicAt(m.ref, anchor, Join(units))
  {
    var position: nat := anchor;
    matched, unmatched, jumps := 0, 0, 0;
    var i := 0;
    OnTrackFromAnchor(m.ref, units, anchor);
    while i < |units|
      invariant 0 <= i <= |units| && position < |m.ref| && matched + unmatched == i && jumps <= matched
      invariant Tracked(m.ref, units, i, anchor, position, unmatched == 0 && jumps == 0)
    {
      UnitMatchesIff(m, units, position, i);
      NextTracked(m.ref, units, i, anchor, position, unmatched == 0 && jumps == 0);
      if !UnitMatches(m, position, units[i]) {
        var found := Locate(m, units, i);
        if found.None? {
          unmatched := unmatched + 1;
          position := Advance(position, |units[i]|, |m.ref|);
          i := i + 1;
          continue;
        }
        jumps := jumps + 1;
        position := found.value;
      }
      matched := matched + 1;
      position := Advance(position, |units[i]|, |m.ref|);
      i := i + 1;
    }
    assert units[..i] == units;
  }

  /** The first `i` units are the stretch from `anchor` up to `position`. */
  predicate OnTrack<T(==)>(ref: seq<T>, units: seq<seq<T>>, i: nat, anchor: nat, position: nat)
    requires |ref| > 0 && i <= |units|
  {
    CyclicAt(ref, anchor, Join(units[..i])) && position == Advance(anchor, |Join(units[..i])|, |ref|)
  }

  lemma OnTrackFromAnchor<T>(ref: seq<T>, units: seq<seq<T>>, anchor: nat)
    requires |ref| > 0 && anchor < |ref|
    ensures OnTrack(ref, units, 0, anchor, anchor)
  {
  }

  /** As long as no unit was missed the units are on track; after that they are no excerpt from the anchor. */
  predicate Tracked<T(==)>(ref: seq<T>, units: seq<seq<T>>, i: nat, anchor: nat, position: nat, clean: bool)
    requires |ref| > 0 && i <= |units|
  {
    if clean then OnTrack(ref, units, i, anchor, position) else !CyclicAt(ref, anchor, Join(units))
  }

  lemma NextTracked<T>(ref: seq<T>, units: seq<seq<T>>, i: nat, anchor: nat, position: nat, clean: bool)
    requires |ref| > 0 && i < |units| && Tracked(ref, units, i, anchor, position, clean)
    ensures CyclicAt(ref, position, units[i]) ==> Tracked(ref, units, i + 1, anchor, Advance(position, |units[i]|, |ref|), clean)
    ensures !CyclicAt(ref, position, units[i]) ==> !CyclicAt(ref, anchor, Join(units))
  {
    if clean {
      NextUnit(ref, units, i, anchor, position);
    }
  }

  /** The located anchor decides for all positions. */
  lemma Concludes<T>(m: Matcher<T>, units: seq<seq<T>>, anchor: nat, ok: bool)
    requires Fits(m, units) && units != [] && units[0] != [] && anchor < |m.ref| && ok == CyclicAt(m.ref, anchor, Join(units))
    requires (exists p: nat :: TrueAnchor(m, units, 0, p)) ==> TrueAnchor(m, units, 0, anchor)
    ensures ok <==> Excerpt(m.ref, Join(units))
  {
    assert units[0..] == units;
    if Excerpt(m.ref, Join(units)) {
      var p :| 0 <= p < |m.ref| && CyclicAt(m.ref, p, Join(units));
      assert TrueAnchor(m, units, 0, p);
    }
  }

  /** Without a located first unit there is no excerpt. */
  lemma LocatedOrNot<T>(m: Matcher<T>, units: seq<seq<T>>)
    requires Fits(m, units)
    requires units != [] && units[0] != [] ==> forall p: nat :: !TrueAnchor(m, units, 0, p)
    ensures !(units != [] && units[0] != [] && Excerpt(m.ref, Join(units)))
  {
    if units != [] && units[0] != [] && Excerpt(m.ref, Join(units)) {
      var p :| 0 <= p < |m.ref| && CyclicAt(m.ref, p, Join(units));
      assert units[0..] == units;
      assert TrueAnchor(m, units, 0, p);
    }
  }

  /** Comparing one more unit at the running position decides whether the stretch goes on. */
  lemma NextUnit<T>(ref: seq<T>, units: seq<seq<T>>, i: nat, anchor: nat, position: nat)
    requires |ref| > 0 && i < |units| && OnTrack(ref, units, i, anchor, position)
    ensures CyclicAt(ref, position, units[i]) ==> OnTrack(ref, units, i + 1, anchor, Advance(position, |units[i]|, |ref|))
    ensures !CyclicAt(ref, position, units[i]) ==> !CyclicAt(ref, anchor, Join(units))
  {
    var before, unit := Join(units[..i]), units[i];
    assert units[..i + 1] == units[..i] + [unit];
    JoinSnoc(units[..i], unit);
    CyclicConcat(ref, anchor, before, unit);
    if CyclicAt(ref, position, unit) { AdvanceTwice(anchor, |before|, |unit|, |ref|); }
    else if CyclicAt(ref, anchor, Join(units)) { PrefixOnTrack(ref, units, i + 1, anchor); }
  }

  lemma AdvanceTwice(p: nat, a: nat, b: nat, size: nat)
    requires size > 0
    ensures Advance(Advance(p, a, size), b, size) == Advance(p, a + b, size)
  {
    ModShift(p + a, b, size);
  }

  lemma PrefixOnTrack<T>(ref: seq<T>, units: seq<seq<T>>, i: nat, anchor: nat)
    requires |ref| > 0 && i <= |units| && CyclicAt(ref, anchor, Join(units))
    ensures CyclicAt(ref, anchor, Join(units[..i]))
  {
    JoinSplit(units, i);
    CyclicConcat(ref, anchor, Join(units[..i]), Join(units[i..]));
  }

  // ---------------------------------------------------------------------------------------------
  // The two codecs
  // ---------------------------------------------------------------------------------------------

  /** AAC: captured and reference ADTS frames. */
  method CompareAac<T(==)>(frames: seq<T>, known: seq<T>) returns (v: Verdict)
    ensures v.ok <==> frames != [] && known != [] && Excerpt(known, frames)
  {
    if known == [] {
      return Verdict(false, 0, 0, 0, false);
    }
    var units := seq(|frames|, i requires 0 <= i < |frames| => [frames[i]]);
    JoinSingletons(units, 0);
    forall i: nat | i < |frames| ensures Join(units)[i] == frames[i] { JoinSingletons(units, i); }
    assert Join(units) == frames;
    v := Compare(Frames(known), units);
  }

  function Repeat<T>(s: seq<T>, k: nat): (r: seq<T>)
    ensures |r| == k * |s|
  {
    if k == 0 then [] else Repeat(s, k - 1) + s
  }

  lemma {:induction false} RepeatRepeats<T>(s: seq<T>, k: nat, i: nat)
    requires |s| > 0 && i < k * |s|
    ensures Repeat(s, k)[i] == s[i % |s|]
  {
    if i < (k - 1) * |s| {
      RepeatRepeats(s, k - 1, i);
    } else {
      DivisionIsUnique(i, |s|, k - 1, i - (k - 1) * |s|);
    }
  }

  /** Rows (offset, bytes) as the demuxer writes them: each starts where the one before ended. */
  predicate Tiled(rows: seq<(nat, nat)>, total: nat) {
    && (rows != [] ==> rows[0].0 == 0)
    && (forall i | 0 <= i < |rows| :: rows[i].0 + rows[i].1 <= total)
    && (forall i | 0 <= i < |rows| - 1 :: rows[i].0 + rows[i].1 == rows[i + 1].0)
  }

  function Unit<T>(es: seq<T>, row: (nat, nat)): seq<T>
    requires row.0 + row.1 <= |es|
  {
    es[row.0..row.0 + row.1]
  }

  /** The bytes the rows cover, joined again. */
  lemma {:induction false} UnitsJoin<T>(es: seq<T>, rows: seq<(nat, nat)>, units: seq<seq<T>>, k: nat)
    requires Tiled(rows, |es|) && |units| == |rows| && k <= |rows|
    requires forall i | 0 <= i < |rows| :: units[i] == Unit(es, rows[i])
    ensures Join(units[..k]) == es[..if k == 0 then 0 else rows[k - 1].0 + rows[k - 1].1]
  {
    if k > 0 {
      UnitsJoin(es, rows, units, k - 1);
      assert units[..k] == units[..k - 1] + [units[k - 1]];
      JoinSnoc(units[..k - 1], units[k - 1]);
      var from := rows[k - 1].0;
      assert k > 1 ==> rows[k - 2].0 + rows[k - 2].1 == from;
      assert es[..from] + es[from..from + rows[k - 1].1] == es[..from + rows[k - 1].1];
    }
  }

  /** G.711: the elementary stream cut by the demuxer's rows, against bytes; the ring is long enough for every slice. */
  method CompareG711<T(==)>(es: seq<T>, rows: seq<(nat, nat)>, reference: seq<T>) returns (v: Verdict)
    requires Tiled(rows, |es|)
    ensures v.ok <==> && rows != [] && rows[0].1 > 0 && reference != []
                      && Excerpt(reference, es[..rows[|rows| - 1].0 + rows[|rows| - 1].1])
  {
    if reference == [] {
      return Verdict(false, 0, 0, 0, false);
    }
    var units := seq(|rows|, i requires 0 <= i < |rows| => Unit(es, rows[i]));
    var laps := 2 + |es| / |reference|;
    var ring := Repeat(reference, laps);
    forall i: nat | i < |ring| ensures ring[i] == reference[i % |reference|] { RepeatRepeats(reference, laps, i); }
    UnitsJoin(es, rows, units, |rows|);
    assert units[..|rows|] == units;
    RingReaches(|es|, |reference|);
    v := Compare(Ring(reference, ring), units);
  }

  lemma RingReaches(length: nat, size: nat)
    requires size > 0
    ensures (2 + length / size) * size > size + length
  {
    assert length == size * (length / size) + length % size;
    assert (2 + length / size) * size == 2 * size + size * (length / size);
  }
}
