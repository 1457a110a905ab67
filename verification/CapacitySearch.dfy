/**
  * The capacity search of bench/perf_capacity.py: ascend until a load fails, bisect to one granularity, repeat both
  * sides. The oracle runs a real workload, so its answer may depend on how often it has been asked.
  */
module CapacitySearch {
  import opened Arithmetic
  import opened Options

  datatype Boundary = Healthy | Unstable | Saturated | Unconfirmed(reason: string)

  predicate Failed(b: Boundary) {
    b.Unstable? || b.Saturated?
  }

  /** A probe: the load and what came of it. */
  datatype Probe = Probe(count: int, boundary: Boundary)

  datatype Result =
    | Inconclusive(reason: string, healthy: Option<int>, failed: Option<int>)
    | Pass(capacity: int, firstFailed: int)

  function CeilLog2(n: nat): nat
  {
    if n <= 1 then 0 else 1 + CeilLog2((n + 1) / 2)
  }

  lemma {:induction false} CeilLog2Monotone(a: nat, b: nat)
    requires a <= b
    ensures CeilLog2(a) <= CeilLog2(b)
    decreases b
  {
    if a > 1 {
      CeilLog2Monotone((a + 1) / 2, (b + 1) / 2);
    }
  }

  function Power(k: nat): nat {
    if k == 0 then 1 else 2 * Power(k - 1)
  }

  /** It is the ceiling of the binary logarithm. */
  lemma {:induction false} CeilLog2IsCeiling(n: nat)
    requires n >= 1
    ensures var k := CeilLog2(n); n <= Power(k) && (k > 0 ==> Power(k - 1) < n)
  {
    if n > 1 {
      CeilLog2IsCeiling((n + 1) / 2);
    }
  }

  /** Lines 43-44. */
  function Middle(healthy: int, failed: int, granularity: int): int
    requires granularity > 0
  {
    var m := (healthy + failed) / (2 * granularity) * granularity;
    if m < healthy + granularity then healthy + granularity else m
  }

  predicate Aligned(x: int, granularity: int)
    requires granularity > 0
  {
    x % granularity == 0
  }

  /** A probe lies strictly between the bounds, whatever they are. */
  lemma MiddleIsBetween(healthy: int, failed: int, granularity: int)
    requires granularity > 0 && 0 <= healthy && failed - healthy > granularity
    ensures healthy < Middle(healthy, failed, granularity) < failed
  {
    var q := (healthy + failed) / (2 * granularity);
    assert q * (2 * granularity) <= healthy + failed;
    assert q * (2 * granularity) == 2 * (q * granularity);
  }

  /** With aligned bounds it is the lower of the middle grid points: both halves have at most half the steps, rounded up. */
  lemma MiddleHalves(a: int, b: int, granularity: int)
    requires granularity > 0 && 0 <= a && b - a > 1
    ensures Middle(a * granularity, b * granularity, granularity) == (a + b) / 2 * granularity
    ensures a < (a + b) / 2 < b && (a + b) / 2 - a <= (b - a + 1) / 2 && b - (a + b) / 2 <= (b - a + 1) / 2
  {
    var g, m := granularity, (a + b) / 2;
    assert a * g + b * g == (a + b) * g;
    QuotientOfGrid(a + b, g);
    assert a + 1 <= m;
    ProductMonotone(g, a + 1, m);
  }

  /** n*g / 2g == n/2. */
  lemma QuotientOfGrid(n: nat, g: int)
    requires g > 0
    ensures n * g / (2 * g) == n / 2
  {
    var q, r := n / 2, n % 2;
    assert n * g == q * (2 * g) + r * g;
    DivisionIsUnique(n * g, 2 * g, q, r * g);
  }

  /** Every probe at the final bounds agrees with its side. */
  predicate Agree(probes: seq<Probe>, healthy: int, failed: int) {
    forall i | 0 <= i < |probes| ::
      (probes[i].count == healthy ==> probes[i].boundary.Healthy?) && (probes[i].count == failed ==> Failed(probes[i].boundary))
  }

  /** Bounds that the probes so far support. */
  predicate Brackets(probes: seq<Probe>, healthy: int, failed: int) {
    && 0 <= healthy < failed
    && Agree(probes, healthy, failed)
    && (forall i | 0 <= i < |probes| :: probes[i].count <= healthy || probes[i].count >= failed)
    && (healthy > 0 ==> Probe(healthy, Healthy) in probes)
    && (exists i | 0 <= i < |probes| :: probes[i].count == failed && Failed(probes[i].boundary))
  }

  /** The probes are the oracle's answers, in the order in which it was asked. */
  predicate Faithful(oracle: (nat, int) -> Boundary, probes: seq<Probe>) {
    forall i | 0 <= i < |probes| :: probes[i].boundary == oracle(i, probes[i].count)
  }

  lemma FaithfulSnoc(oracle: (nat, int) -> Boundary, probes: seq<Probe>, count: int)
    requires Faithful(oracle, probes)
    ensures Faithful(oracle, probes + [Probe(count, oracle(|probes|, count))])
  {
  }

  /** The last answer was neither healthy nor a confirmed failure. */
  predicate StoppedBy(probes: seq<Probe>, reason: string) {
    probes != [] && probes[|probes| - 1].boundary == Unconfirmed(reason)
  }

  /** Load `k` of the ladder: start + k * step. */
  function Load(start: int, step: int, k: nat): int {
    if k == 0 then start else Load(start, step, k - 1) + step
  }

  /** Loads start, start + step, ..., all healthy. */
  predicate HealthyLadder(probes: seq<Probe>, start: int, step: int) {
    forall i | 0 <= i < |probes| :: probes[i] == Probe(Load(start, step, i), Healthy)
  }

  /** The ascent, lines 27-41: up the ladder to the first load that is not healthy, or past the maximum. */
  method Ascend(oracle: (nat, int) -> Boundary, start: int, step: int, maximum: int)
    returns (probes: seq<Probe>, healthy: int, failed: int, stopped: bool, reason: string)
    requires start > 0 && step > 0
    ensures Faithful(oracle, probes) && 0 <= healthy
    ensures stopped || Brackets(probes, healthy, failed)
    ensures !stopped ==> if healthy == 0 then failed == start else failed - healthy == step
    ensures !stopped ==> probes != [] && failed == Load(start, step, |probes| - 1) <= maximum
    ensures stopped ==> || (reason == "NO_FAILURE_BOUNDARY" && HealthyLadder(probes, start, step) && Load(start, step, |probes|) > maximum)
                        || (StoppedBy(probes, reason) && HealthyLadder(probes[..|probes| - 1], start, step))
    ensures stopped ==> healthy == 0 || Probe(healthy, Healthy) in probes
  {
    probes, healthy, failed, stopped, reason := [], 0, 0, true, "NO_FAILURE_BOUNDARY";
    var count := start;
    while count <= maximum
      invariant count == Load(start, step, |probes|)
      invariant healthy == (if probes == [] then 0 else count - step) && 0 <= healthy < count
      invariant Faithful(oracle, probes) && HealthyLadder(probes, start, step)
      invariant healthy > 0 ==> Probe(healthy, Healthy) in probes
      decreases maximum - count
    {
      var boundary := oracle(|probes|, count);
      ghost var before := probes;
      probes := probes + [Probe(count, boundary)];
      FaithfulSnoc(oracle, before, count);
      LadderSnoc(before, start, step);
      assert probes[|before|] == Probe(count, boundary) && probes[..|before|] == before;
      if boundary.Healthy? {
        healthy := count;
        count := count + step;
      } else if Failed(boundary) {
        failed := count;
        stopped := false;
        LadderBrackets(before, start, step, boundary);
        return;
      } else {
        reason := boundary.reason;
        return;
      }
    }
  }

  lemma LadderSnoc(probes: seq<Probe>, start: int, step: int)
    requires HealthyLadder(probes, start, step)
    ensures HealthyLadder(probes + [Probe(Load(start, step, |probes|), Healthy)], start, step)
  {
  }

  /** The first load that fails brackets the capacity with the last healthy one. */
  lemma LadderBrackets(probes: seq<Probe>, start: int, step: int, b: Boundary)
    requires start > 0 && step > 0 && HealthyLadder(probes, start, step) && Failed(b)
    ensures var n := |probes|; var failed := Load(start, step, n);
            Brackets(probes + [Probe(failed, b)], if n == 0 then 0 else failed - step, failed)
  {
    var n := |probes|;
    var more := probes + [Probe(Load(start, step, n), b)];
    assert more[n] == Probe(Load(start, step, n), b);
    forall i | 0 <= i < n ensures more[i].count <= Load(start, step, n) - step && more[i].boundary.Healthy? {
      LoadGrows(start, step, i, n - 1);
    }
    if n > 0 {
      assert more[n - 1] == Probe(Load(start, step, n) - step, Healthy);
      LoadGrows(start, step, 0, n - 1);
    }
  }

  lemma {:induction false} LoadGrows(start: int, step: int, i: nat, k: nat)
    requires i <= k && step > 0
    ensures Load(start, step, i) <= Load(start, step, k)
    decreases k
  {
    if i < k {
      LoadGrows(start, step, i, k - 1);
    }
  }

  lemma {:induction false} LoadIsProduct(start: int, step: int, k: nat)
    ensures Load(start, step, k) == start + k * step
  {
    if k > 0 {
      LoadIsProduct(start, step, k - 1);
    }
  }

  /** One more probe strictly between the bounds moves one of them. */
  lemma BracketsNarrow(probes: seq<Probe>, healthy: int, failed: int, p: Probe)
    requires Brackets(probes, healthy, failed) && healthy < p.count < failed
    ensures p.boundary.Healthy? ==> Brackets(probes + [p], p.count, failed)
    ensures Failed(p.boundary) ==> Brackets(probes + [p], healthy, p.count)
  {
    var more := probes + [p];
    assert more[|probes|] == p;
    var i :| 0 <= i < |probes| && probes[i].count == failed && Failed(probes[i].boundary);
    assert more[i] == probes[i];
    assert forall k | 0 <= k < |probes| :: more[k] == probes[k];
  }

  /** Multiples of the granularity, as grid points. */
  lemma GridPoint(x: int, granularity: int) returns (a: int)
    requires granularity > 0 && Aligned(x, granularity)
    ensures x == a * granularity
  {
    a := x / granularity;
  }

  lemma GridAligned(a: int, granularity: int)
    requires granularity > 0
    ensures Aligned(a * granularity, granularity)
  {
    DivisionIsUnique(a * granularity, granularity, a, 0);
  }

  /** The probes from index `from` on lie strictly inside the bounds and, if these are aligned, on the grid. */
  predicate Inside(probes: seq<Probe>, from: nat, lower: int, upper: int, granularity: int)
    requires granularity > 0
  {
    forall i | from <= i < |probes| ::
      lower < probes[i].count < upper
      && (Aligned(lower, granularity) && Aligned(upper, granularity) ==> Aligned(probes[i].count, granularity))
  }

  lemma InsideSnoc(probes: seq<Probe>, from: nat, lower: int, upper: int, granularity: int, p: Probe)
    requires granularity > 0 && Inside(probes, from, lower, upper, granularity) && Inside([p], 0, lower, upper, granularity)
    ensures Inside(probes + [p], from, lower, upper, granularity)
  {
    assert [p][0] == p;
  }

  /** Aligned bounds, with enough of the allowed probes left for the steps of the grid between them. */
  predicate WithinBudget(spent: int, healthy: int, failed: int, granularity: int, most: nat)
    requires granularity > 0
  {
    && 0 <= healthy < failed && Aligned(healthy, granularity) && Aligned(failed, granularity)
    && spent + CeilLog2(GridSteps(healthy, failed, granularity)) <= most
  }

  /**
    * The bisection, lines 42-51. It ends for every oracle. From aligned bounds every probe is aligned and strictly
    * inside them, and there are at most ceil(log2((failed - healthy) / granularity)).
    */
  method Bisect(oracle: (nat, int) -> Boundary, before: seq<Probe>, lower: int, upper: int, granularity: int)
    returns (probes: seq<Probe>, healthy: int, failed: int, stopped: bool, reason: string)
    requires granularity > 0 && Brackets(before, lower, upper) && Faithful(oracle, before)
    ensures before <= probes && (stopped || Brackets(probes, healthy, failed))
    ensures lower <= healthy < failed <= upper
    ensures !stopped ==> failed - healthy <= granularity
    ensures Inside(probes, |before|, lower, upper, granularity)
    ensures Faithful(oracle, probes)
    ensures stopped ==> StoppedBy(probes, reason) && |probes| > |before|
    ensures healthy == 0 || Probe(healthy, Healthy) in probes
    ensures Aligned(lower, granularity) && Aligned(upper, granularity) ==>
              && |probes| - |before| <= CeilLog2(GridSteps(lower, upper, granularity))
              && (!stopped ==> failed - healthy == granularity)
  {
    probes, healthy, failed, stopped, reason := before, lower, upper, false, "";
    ghost var aligned := Aligned(lower, granularity) && Aligned(upper, granularity);
    ghost var most := CeilLog2(GridSteps(lower, upper, granularity));
    while failed - healthy > granularity
      invariant Searching(oracle, before, probes, lower, upper, healthy, failed, granularity)
      invariant aligned ==> WithinBudget(|probes| - |before|, healthy, failed, granularity, most)
      decreases failed - healthy
    {
      var middle := Middle(healthy, failed, granularity);
      MiddleIsBetween(healthy, failed, granularity);
      var p := Probe(middle, oracle(|probes|, middle));
      if aligned {
        ProbeIsAfforded(|probes| - |before|, healthy, failed, granularity, most);
      }
      ProbeNarrows(oracle, before, probes, lower, upper, healthy, failed, granularity);
      probes := probes + [p];
      if p.boundary.Healthy? {
        healthy := middle;
      } else if Failed(p.boundary) {
        failed := middle;
      } else {
        stopped, reason := true, p.boundary.reason;
        return;
      }
    }
    if aligned {
      OneStepRemains(healthy, failed, granularity);
    }
  }

  /** One probe on the grid leaves enough for either half. */
  lemma ProbeIsAfforded(spent: int, healthy: int, failed: int, granularity: int, most: nat)
    requires granularity > 0 && failed - healthy > granularity && WithinBudget(spent, healthy, failed, granularity, most)
    ensures var middle := Middle(healthy, failed, granularity);
            && Aligned(middle, granularity) && spent + 1 <= most
            && WithinBudget(spent + 1, healthy, middle, granularity, most) && WithinBudget(spent + 1, middle, failed, granularity, most)
  {
    var a := GridPoint(healthy, granularity);
    var b := GridPoint(failed, granularity);
    var m := (a + b) / 2;
    GridDistance(a, b, granularity);
    HalvesOnGrid(healthy, failed, a, b, granularity);
    MiddleIsBetween(healthy, failed, granularity);
    GridDistance(a, m, granularity);
    GridDistance(m, b, granularity);
  }

  lemma OneStepRemains(healthy: int, failed: int, granularity: int)
    requires granularity > 0 && 0 <= healthy < failed <= healthy + granularity && Aligned(healthy, granularity) && Aligned(failed, granularity)
    ensures failed - healthy == granularity
  {
    var a := GridPoint(healthy, granularity);
    var b := GridPoint(failed, granularity);
    GridDistance(a, b, granularity);
    OneStepLeft(a, b, granularity);
  }

  /** The state of the bisection. */
  predicate Searching(oracle: (nat, int) -> Boundary, before: seq<Probe>, probes: seq<Probe>, lower: int, upper: int, healthy: int, failed: int, granularity: int)
    requires granularity > 0
  {
    && before <= probes && Faithful(oracle, probes) && Inside(probes, |before|, lower, upper, granularity)
    && Brackets(probes, healthy, failed) && lower <= healthy < failed <= upper
  }

  /** One probe at the middle keeps that state, whichever bound it moves. */
  lemma ProbeNarrows(oracle: (nat, int) -> Boundary, before: seq<Probe>, probes: seq<Probe>, lower: int, upper: int, healthy: int, failed: int, granularity: int)
    requires granularity > 0 && Searching(oracle, before, probes, lower, upper, healthy, failed, granularity)
    requires var middle := Middle(healthy, failed, granularity);
             healthy < middle < failed && (Aligned(lower, granularity) && Aligned(upper, granularity) ==> Aligned(middle, granularity))
    ensures var middle := Middle(healthy, failed, granularity); var p := Probe(middle, oracle(|probes|, middle)); var more := probes + [p];
            && before <= more && Faithful(oracle, more) && Inside(more, |before|, lower, upper, granularity)
            && (healthy == 0 || Probe(healthy, Healthy) in more)
            && (p.boundary.Healthy? ==> Searching(oracle, before, more, lower, upper, middle, failed, granularity))
            && (Failed(p.boundary) ==> Searching(oracle, before, more, lower, upper, healthy, middle, granularity))
  {
    var middle := Middle(healthy, failed, granularity);
    var p := Probe(middle, oracle(|probes|, middle));
    BracketsNarrow(probes, healthy, failed, p);
    InsideSnoc(probes, |before|, lower, upper, granularity, p);
    FaithfulSnoc(oracle, probes, middle);
  }

  function GridSteps(lower: int, upper: int, granularity: int): nat
    requires granularity > 0 && lower < upper
  {
    (upper - lower) / granularity
  }

  predicate OnGrid(healthy: int, failed: int, a: int, b: int, granularity: int) {
    0 <= a < b && healthy == a * granularity && failed == b * granularity
  }

  lemma GridDistance(a: int, b: int, granularity: int)
    requires granularity > 0 && 0 <= a * granularity < b * granularity
    ensures 0 <= a < b && (b * granularity - a * granularity) / granularity == b - a
  {
    assert b * granularity - a * granularity == (b - a) * granularity;
    DivisionIsUnique((b - a) * granularity, granularity, b - a, 0);
    if a < 0 { ProductMonotone(granularity, a, -1); }
    if b <= a { ProductMonotone(granularity, b, a); }
  }

  lemma HalvesOnGrid(healthy: int, failed: int, a: int, b: int, granularity: int)
    requires granularity > 0 && OnGrid(healthy, failed, a, b, granularity) && failed - healthy > granularity
    ensures var m := (a + b) / 2; var middle := Middle(healthy, failed, granularity);
            && a < m < b && middle == m * granularity && Aligned(middle, granularity)
            && CeilLog2(m - a) + 1 <= CeilLog2(b - a) && CeilLog2(b - m) + 1 <= CeilLog2(b - a)
  {
    var m := (a + b) / 2;
    MoreThanOneStep(a, b, granularity);
    MiddleHalves(a, b, granularity);
    GridAligned(m, granularity);
    CeilLog2Monotone(m - a, (b - a + 1) / 2);
    CeilLog2Monotone(b - m, (b - a + 1) / 2);
  }

  lemma MoreThanOneStep(a: int, b: int, granularity: int)
    requires granularity > 0 && b * granularity - a * granularity > granularity
    ensures b - a > 1
  {
    assert (b - a) * granularity == b * granularity - a * granularity;
    if b - a <= 1 {
      ProductMonotone(granularity, b - a, 1);
    }
  }

  lemma OneStepLeft(a: int, b: int, granularity: int)
    requires granularity > 0 && a < b && b * granularity - a * granularity <= granularity
    ensures b * granularity - a * granularity == granularity
  {
    assert b * granularity - a * granularity == (b - a) * granularity;
    ProductMonotone(granularity, 1, b - a);
  }

  /** Repeats one load and stops at the first answer from the other side. */
  method Repeat(oracle: (nat, int) -> Boundary, before: seq<Probe>, count: int, times: nat, expectHealthy: bool)
    returns (probes: seq<Probe>, agreed: bool)
    requires Faithful(oracle, before)
    ensures before <= probes
    ensures forall i | |before| <= i < |probes| :: probes[i].count == count
    ensures Faithful(oracle, probes)
    ensures |before| <= |probes| <= |before| + times && (agreed ==> |probes| == |before| + times)
    ensures !agreed ==> |probes| > |before| && !(if expectHealthy then probes[|probes| - 1].boundary.Healthy? else Failed(probes[|probes| - 1].boundary))
    ensures agreed ==> forall i | |before| <= i < |probes| :: if expectHealthy then probes[i].boundary.Healthy? else Failed(probes[i].boundary)
  {
    probes := before;
    for k := 0 to times
      invariant before <= probes && |probes| == |before| + k && Faithful(oracle, probes)
      invariant forall i | |before| <= i < |probes| :: probes[i].count == count
      invariant forall i | |before| <= i < |probes| :: if expectHealthy then probes[i].boundary.Healthy? else Failed(probes[i].boundary)
    {
      var p := Probe(count, oracle(|probes|, count));
      probes := probes + [p];
      if !(if expectHealthy then p.boundary.Healthy? else Failed(p.boundary)) {
        return probes, false;
      }
    }
    agreed := true;
  }

  /**
    * Why a search gave no boundary: no load up to the maximum failed; the last answer was not confirmed; no load that
    * was tried was healthy; or the last answer contradicts an earlier one at the same load.
    */
  predicate Explained(r: Result, probes: seq<Probe>, start: int, step: int, granularity: int, maximum: int)
    requires r.Inconclusive?
  {
    || (r.reason == "NO_FAILURE_BOUNDARY" && HealthyLadder(probes, start, step) && Load(start, step, |probes|) > maximum)
    || StoppedBy(probes, r.reason)
    || (r.reason == "NO_HEALTHY_BOUNDARY" && r.failed.Some? && r.failed.value <= granularity && Brackets(probes, 0, r.failed.value))
    || (r.reason == "BOUNDARY_NOT_REPEATABLE" && Contradicted(probes))
  }

  predicate Contradicted(probes: seq<Probe>) {
    probes != [] && exists i | 0 <= i < |probes| - 1 ::
      && probes[i].count == probes[|probes| - 1].count
      && (probes[i].boundary.Healthy? || Failed(probes[i].boundary))
      && (probes[i].boundary.Healthy? ==> !probes[|probes| - 1].boundary.Healthy?)
      && (Failed(probes[i].boundary) ==> !Failed(probes[|probes| - 1].boundary))
  }

  /**
    * A pass: loads at most one granularity apart, exactly one and on the grid if the schedule is aligned, at or below a
    * load of the ladder that failed, with every probe and every repeat at the two loads on its side.
    */
  ghost predicate Passed(r: Result, probes: seq<Probe>, start: int, step: int, granularity: int, maximum: int, healthyRepeats: nat, failedRepeats: nat)
    requires r.Pass? && granularity > 0
  {
    && 0 < r.capacity < r.firstFailed <= r.capacity + granularity
    && Agree(probes, r.capacity, r.firstFailed)
    && Count(probes, r.capacity) >= 1 + healthyRepeats && Count(probes, r.firstFailed) >= 1 + failedRepeats
    && (Aligned(start, granularity) && Aligned(step, granularity) ==> r.firstFailed == r.capacity + granularity && Aligned(r.capacity, granularity))
    && (exists k: nat :: r.firstFailed <= Load(start, step, k) <= maximum)
  }

  /** What a search reports and the probes that support it. */
  ghost predicate Outcome(oracle: (nat, int) -> Boundary, r: Result, probes: seq<Probe>,
                          start: int, step: int, granularity: int, maximum: int, healthyRepeats: nat, failedRepeats: nat)
    requires granularity > 0
  {
    && Faithful(oracle, probes)
    && match r
       case Pass(_, _) => Passed(r, probes, start, step, granularity, maximum, healthyRepeats, failedRepeats)
       case Inconclusive(_, _, _) => Explained(r, probes, start, step, granularity, maximum)
  }

  /** `search`. */
  method Search(oracle: (nat, int) -> Boundary, start: int, step: int, granularity: int, maximum: int, healthyRepeats: nat, failedRepeats: nat)
    returns (result: Result, probes: seq<Probe>)
    requires start > 0 && step > 0 && granularity > 0
    ensures Outcome(oracle, result, probes, start, step, granularity, maximum, healthyRepeats, failedRepeats)
  {
    var ascent, healthy, failed, stopped, reason := Ascend(oracle, start, step, maximum);
    probes := ascent;
    if stopped {
      return Inconclusive(reason, Some(healthy), None), probes;
    }
    if Aligned(start, granularity) && Aligned(step, granularity) {
      AscentStaysOnGrid(start, step, granularity, |ascent| - 1, healthy, failed);
    }
    probes, healthy, failed, stopped, reason := Bisect(oracle, ascent, healthy, failed, granularity);
    if stopped {
      return Inconclusive(reason, Some(healthy), Some(failed)), probes;
    }
    if healthy == 0 {
      return Inconclusive("NO_HEALTHY_BOUNDARY", None, Some(failed)), probes;
    }
    BracketsCounted(probes, healthy, failed);
    var more, agreed := Repeat(oracle, probes, healthy, healthyRepeats, true);
    AgreeAfter(probes, more, healthy, failed, healthy, agreed);
    CountGrows(probes, more, healthy);
    CountGrows(probes, more, failed);
    if !agreed {
      return Inconclusive("BOUNDARY_NOT_REPEATABLE", Some(healthy), Some(failed)), more;
    }
    var all, both := Repeat(oracle, more, failed, failedRepeats, false);
    AgreeAfter(more, all, healthy, failed, failed, both);
    CountGrows(more, all, healthy);
    CountGrows(more, all, failed);
    probes := all;
    if !both {
      return Inconclusive("BOUNDARY_NOT_REPEATABLE", Some(healthy), Some(failed)), probes;
    }
    result := Pass(healthy, failed);
    assert failed <= Load(start, step, |ascent| - 1) <= maximum;
  }

  function Count(probes: seq<Probe>, count: int): nat
    decreases |probes|
  {
    if probes == [] then 0
    else Count(probes[..|probes| - 1], count) + (if probes[|probes| - 1].count == count then 1 else 0)
  }

  /** New probes at a load are all counted, and old ones stay counted. */
  lemma {:induction false} CountGrows(earlier: seq<Probe>, probes: seq<Probe>, count: int)
    requires earlier <= probes
    ensures Count(probes, count) >= Count(earlier, count)
    ensures (forall i | |earlier| <= i < |probes| :: probes[i].count == count) ==> Count(probes, count) == Count(earlier, count) + |probes| - |earlier|
    decreases |probes|
  {
    if |probes| == |earlier| {
      assert probes == earlier;
    } else {
      CountGrows(earlier, probes[..|probes| - 1], count);
    }
  }

  lemma {:induction false} CountOf(probes: seq<Probe>, i: nat)
    requires i < |probes|
    ensures Count(probes, probes[i].count) >= 1
    decreases |probes|
  {
    if i < |probes| - 1 {
      CountOf(probes[..|probes| - 1], i);
    }
  }

  lemma BracketsCounted(probes: seq<Probe>, healthy: int, failed: int)
    requires Brackets(probes, healthy, failed) && healthy > 0
    ensures Count(probes, healthy) >= 1 && Count(probes, failed) >= 1
  {
    var i :| 0 <= i < |probes| && probes[i] == Probe(healthy, Healthy);
    CountOf(probes, i);
    var j :| 0 <= j < |probes| && probes[j].count == failed && Failed(probes[j].boundary);
    CountOf(probes, j);
  }

  lemma AgreeAfter(before: seq<Probe>, probes: seq<Probe>, healthy: int, failed: int, count: int, agreed: bool)
    requires before <= probes && healthy < failed && Agree(before, healthy, failed) && (count == healthy || count == failed)
    requires forall i | |before| <= i < |probes| :: probes[i].count == count
    requires agreed ==> forall i | |before| <= i < |probes| :: if count == healthy then probes[i].boundary.Healthy? else Failed(probes[i].boundary)
    ensures agreed ==> Agree(probes, healthy, failed)
  {
    assert forall i | 0 <= i < |before| :: probes[i] == before[i];
  }

  lemma AscentStaysOnGrid(start: int, step: int, granularity: int, k: nat, healthy: int, failed: int)
    requires granularity > 0 && Aligned(start, granularity) && Aligned(step, granularity)
    requires failed == Load(start, step, k)
    requires if healthy == 0 then failed == start else failed - healthy == step
    ensures Aligned(healthy, granularity) && Aligned(failed, granularity)
  {
    LoadIsProduct(start, step, k);
    var a := GridPoint(start, granularity);
    var b := GridPoint(step, granularity);
    assert failed == (a + k * b) * granularity;
    GridAligned(a + k * b, granularity);
    if healthy != 0 {
      assert healthy == (a + k * b - b) * granularity;
      GridAligned(a + k * b - b, granularity);
    }
  }

  // ---------------------------------------------------------------------------------------------
  // Against a fixed capacity
  // ---------------------------------------------------------------------------------------------

  /** Loads below the threshold are healthy and all others fail, whenever they are tried. */
  ghost predicate HasThreshold(oracle: (nat, int) -> Boundary, threshold: int) {
    forall k: nat, count: int :: if count < threshold then oracle(k, count).Healthy? else Failed(oracle(k, count))
  }

  /** The ladder meets a load that fails. */
  ghost predicate LadderFails(start: int, step: int, maximum: int, threshold: int) {
    exists k: nat :: threshold <= Load(start, step, k) <= maximum
  }

  lemma {:induction false} ProbeAt(probes: seq<Probe>, count: int) returns (i: nat)
    requires Count(probes, count) > 0
    ensures i < |probes| && probes[i].count == count
    decreases |probes|
  {
    if probes[|probes| - 1].count == count {
      i := |probes| - 1;
    } else {
      i := ProbeAt(probes[..|probes| - 1], count);
    }
  }

  /** A pass encloses the threshold, and the ladder met a failure. */
  lemma PassEnclosesThreshold(oracle: (nat, int) -> Boundary, r: Result, probes: seq<Probe>, start: int, step: int, granularity: int,
                              maximum: int, healthyRepeats: nat, failedRepeats: nat, threshold: int)
    requires granularity > 0 && HasThreshold(oracle, threshold) && r.Pass?
    requires Outcome(oracle, r, probes, start, step, granularity, maximum, healthyRepeats, failedRepeats)
    ensures r.capacity < threshold <= r.firstFailed && LadderFails(start, step, maximum, threshold)
  {
    var i := ProbeAt(probes, r.capacity);
    var j := ProbeAt(probes, r.firstFailed);
    assert probes[i].boundary.Healthy? && probes[i].boundary == oracle(i, r.capacity);
    assert Failed(probes[j].boundary) && probes[j].boundary == oracle(j, r.firstFailed);
    var k: nat :| r.firstFailed <= Load(start, step, k) <= maximum;
    assert threshold <= Load(start, step, k) <= maximum;
  }

  /** A search that finds nothing met no failing load, or no grid load is healthy. */
  lemma InconclusiveHasCause(oracle: (nat, int) -> Boundary, r: Result, probes: seq<Probe>, start: int, step: int, granularity: int,
                             maximum: int, healthyRepeats: nat, failedRepeats: nat, threshold: int)
    requires granularity > 0 && step > 0 && HasThreshold(oracle, threshold) && r.Inconclusive?
    requires Outcome(oracle, r, probes, start, step, granularity, maximum, healthyRepeats, failedRepeats)
    ensures !LadderFails(start, step, maximum, threshold) || threshold <= granularity
  {
    forall i | 0 <= i < |probes| ensures if probes[i].count < threshold then probes[i].boundary.Healthy? else Failed(probes[i].boundary) {
      assert probes[i].boundary == oracle(i, probes[i].count);
    }
    if HealthyLadder(probes, start, step) && Load(start, step, |probes|) > maximum {
      forall k: nat ensures !(threshold <= Load(start, step, k) <= maximum) {
        if k < |probes| { assert probes[k] == Probe(Load(start, step, k), Healthy); } else { LoadGrows(start, step, |probes|, k); }
      }
    }
  }

  lemma AlignedIsLarge(x: int, granularity: int)
    requires granularity > 0 && x > 0 && Aligned(x, granularity)
    ensures x >= granularity
  {
  }

  /**
    * Against a fixed threshold an aligned search passes if and only if its ladder meets a failing load and some positive
    * grid load is healthy, and then its capacity is the greatest grid load below the threshold.
    */
  lemma AlignedSearchFindsThreshold(oracle: (nat, int) -> Boundary, r: Result, probes: seq<Probe>, start: int, step: int, granularity: int,
                                    maximum: int, healthyRepeats: nat, failedRepeats: nat, threshold: int)
    requires granularity > 0 && step > 0 && Aligned(start, granularity) && Aligned(step, granularity) && HasThreshold(oracle, threshold)
    requires Outcome(oracle, r, probes, start, step, granularity, maximum, healthyRepeats, failedRepeats)
    ensures r.Pass? <==> LadderFails(start, step, maximum, threshold) && granularity < threshold
    ensures r.Pass? ==> Aligned(r.capacity, granularity) && r.capacity < threshold <= r.capacity + granularity == r.firstFailed
  {
    if r.Pass? {
      PassEnclosesThreshold(oracle, r, probes, start, step, granularity, maximum, healthyRepeats, failedRepeats, threshold);
      AlignedIsLarge(r.capacity, granularity);
    } else {
      InconclusiveHasCause(oracle, r, probes, start, step, granularity, maximum, healthyRepeats, failedRepeats, threshold);
    }
  }
}
