/**
  * The alarm log of signaling/alarm.go: the last 1000 alarms, read in pages of 200 by clients that hand back a
  * cursor "generation.sequence".
  */
module AlarmLog {
  import opened Arithmetic
  import opened Options
  import opened Decimal

  const Capacity := 1000
  const PageLimit := 200

  datatype Alarm = Alarm(seqNo: int, info: string)

  datatype Page = Page(alarms: seq<Alarm>, latest: int, nextCursor: string, reset: bool, gap: bool)

  // ---------------------------------------------------------------------------------------------
  // Specification over the whole history of added alarms
  // ---------------------------------------------------------------------------------------------

  /** The alarms numbered `from + 1` to `to` of a history. */
  function Numbered(all: seq<string>, from: nat, to: nat): (r: seq<Alarm>)
    requires from <= to <= |all|
  {
    seq(to - from, i requires 0 <= i < to - from => Alarm(from + i + 1, all[from + i]))
  }

  /** How many alarms have been evicted. */
  function Evicted(all: seq<string>): nat {
    Max(0, |all| - Capacity)
  }

  function Retained(all: seq<string>): seq<Alarm> {
    Numbered(all, Evicted(all), |all|)
  }

  /** Where reading resumes after `after`, and where the page ends. */
  function First(all: seq<string>, after: nat): nat {
    Min(|all|, Max(after, Evicted(all)))
  }

  function Next(all: seq<string>, after: nat): nat {
    Min(First(all, after) + PageLimit, |all|)
  }

  function PageAt(generation: string, all: seq<string>, after: nat, reset: bool): Page
    requires after <= |all|
  {
    Page(Numbered(all, First(all, after), Next(all, after)), |all|, Cursor(generation, Next(all, after)), reset, after < Evicted(all))
  }

  function Cursor(generation: string, after: nat): string {
    generation + "." + Format(after)
  }

  /** `strings.Cut(cursor, ".")`, the text after the dot being a canonical non-negative int64. */
  function Parse(cursor: string): Option<(string, nat)> {
    match IndexOfDot(cursor, 0)
    case None => None
    case Some(i) =>
      var sequence := cursor[i + 1..];
      match ParseInt(sequence)
      case None => None
      case Some(n) => if i == 0 || n < 0 || FormatInt(n) != sequence then None else Some((cursor[..i], n))
  }

  function IndexOfDot(s: string, i: nat): (r: Option<nat>)
    requires i <= |s|
    ensures r.Some? ==> i <= r.value < |s| && s[r.value] == '.' && forall j | i <= j < r.value :: s[j] != '.'
    ensures r.None? ==> forall j | i <= j < |s| :: s[j] != '.'
    decreases |s| - i
  {
    if i == |s| then None else if s[i] == '.' then Some(i) else IndexOfDot(s, i + 1)
  }

  /** What `since` answers: an error for a malformed cursor, a reset for a foreign or future one. */
  function Answer(generation: string, all: seq<string>, cursor: string): Option<Page> {
    if cursor == "0" then Some(PageAt(generation, all, 0, false))
    else match Parse(cursor)
      case None => None
      case Some((g, after)) =>
        if g != generation || after > |all| then Some(PageAt(generation, all, 0, true))
        else Some(PageAt(generation, all, after, false))
  }

  class Log {
    const generation: string
    var records: seq<Alarm>
    var latest: int
    ghost var all: seq<string>

    ghost predicate Valid()
      reads this
    {
      latest == |all| && records == Retained(all)
    }

    constructor (generation: string)
      ensures Valid() && all == [] && this.generation == generation
    {
      this.generation, records, latest, all := generation, [], 0, [];
    }

    method Add(info: string)
      requires Valid() && latest < MaxInt64
      modifies this
      ensures Valid() && all == old(all) + [info]
    {
      latest := latest + 1;
      records := records + [Alarm(latest, info)];
      all := all + [info];
      if |records| > Capacity {
        records := records[|records| - Capacity..];
      }
    }

    /** The loop of `since`. */
    method Collect(after: nat) returns (alarms: seq<Alarm>, gap: bool)
      requires Valid() && after <= |all|
      ensures alarms == Numbered(all, First(all, after), Next(all, after))
      ensures gap == (after < Evicted(all))
    {
      ghost var first := First(all, after);
      ghost var base := Evicted(all);
      alarms, gap := [], false;
      var i := 0;
      while i < |records|
        invariant 0 <= i <= |records|
        invariant base + i <= first ==> alarms == [] && !gap
        invariant base + i > first ==> alarms == Numbered(all, first, base + i) && gap == (after < base)
        invariant |alarms| <= PageLimit
      {
        var record := records[i];
        if record.seqNo <= after {
          i := i + 1;
          continue;
        }
        if |alarms| == 0 {
          gap := record.seqNo != after + 1;
        }
        if |alarms| == PageLimit {
          break;
        }
        alarms := alarms + [record];
        i := i + 1;
      }
    }

    method Since(cursor: string) returns (r: Option<Page>)
      requires Valid()
      ensures r == Answer(generation, all, cursor)
    {
      var after, reset := 0, false;
      if cursor != "0" {
        var parsed := Parse(cursor);
        if parsed.None? {
          return None;
        }
        after := parsed.value.1;
        if parsed.value.0 != generation || after > latest {
          reset, after := true, 0;
        }
      }
      var page := PageFrom(after, reset);
      r := Some(page);
    }

    /** The page at a position, lines 97-113. */
    method PageFrom(after: nat, reset: bool) returns (page: Page)
      requires Valid() && after <= |all|
      ensures page == PageAt(generation, all, after, reset)
    {
      var alarms, gap := Collect(after);
      var next := after;
      if |alarms| != 0 {
        next := alarms[|alarms| - 1].seqNo;
      }
      page := Page(alarms, latest, generation + "." + FormatInt(next), reset, gap);
    }
  }

  // ---------------------------------------------------------------------------------------------
  // Cursors
  // ---------------------------------------------------------------------------------------------

  predicate DotFree(generation: string) {
    generation != "" && forall i | 0 <= i < |generation| :: generation[i] != '.'
  }

  /** A cursor the log hands out is read back as the position it stands for. */
  lemma CursorRoundTrip(generation: string, after: nat)
    requires DotFree(generation) && after <= MaxInt64
    ensures Cursor(generation, after) != "0" && Parse(Cursor(generation, after)) == Some((generation, after))
  {
    var c := Cursor(generation, after);
    var i := IndexOfDot(c, 0);
    assert c[|generation|] == '.';
    assert i == Some(|generation|);
    assert c[|generation| + 1..] == Format(after);
    assert c[..|generation|] == generation;
    ParseOfFormat(after);
  }

  // ---------------------------------------------------------------------------------------------
  // One client over a whole run
  // ---------------------------------------------------------------------------------------------

  datatype Event = Added(info: string) | Polled

  /** A client that started at "0" and feeds back `next_cursor`, with everything it has received. */
  datatype Client = Client(all: seq<string>, cursor: string, received: seq<Alarm>, pages: seq<Page>, failed: bool)

  const Fresh := Client([], "0", [], [], false)

  function Step(generation: string, c: Client, e: Event): Client {
    match e
    case Added(info) => c.(all := c.all + [info])
    case Polled =>
      match Answer(generation, c.all, c.cursor)
      case None => c.(failed := true)
      case Some(page) => c.(cursor := page.nextCursor, received := c.received + page.alarms, pages := c.pages + [page])
  }

  function Run(generation: string, c: Client, es: seq<Event>): Client
    decreases |es|
  {
    if es == [] then c else Run(generation, Step(generation, c, es[0]), es[1..])
  }

  predicate Increasing(s: seq<Alarm>) {
    forall i, j | 0 <= i < j < |s| :: s[i].seqNo < s[j].seqNo
  }

  /** What the client received is true, in order and not past its position. */
  predicate InOrder(all: seq<string>, received: seq<Alarm>, after: nat) {
    && Increasing(received)
    && forall i | 0 <= i < |received| :: 1 <= received[i].seqNo <= after <= |all| && received[i].info == all[received[i].seqNo - 1]
  }

  /** No page was a reset, and without a gap everything up to the position has arrived. */
  predicate Complete(c: Client, after: nat)
    requires after <= |c.all|
  {
    && (forall i | 0 <= i < |c.pages| :: !c.pages[i].reset)
    && ((forall i | 0 <= i < |c.pages| :: !c.pages[i].gap) ==> c.received == Numbered(c.all, 0, after))
  }

  /** The client stands after alarm `after`. */
  predicate Inv(generation: string, c: Client, after: nat) {
    && after <= |c.all| && !c.failed
    && (c.cursor == Cursor(generation, after) || (c.cursor == "0" && after == 0))
    && InOrder(c.all, c.received, after)
    && Complete(c, after)
  }

  lemma AnswerAt(generation: string, c: Client, after: nat)
    requires DotFree(generation) && |c.all| <= MaxInt64 && Inv(generation, c, after)
    ensures Answer(generation, c.all, c.cursor) == Some(PageAt(generation, c.all, after, false))
  {
    CursorRoundTrip(generation, after);
  }

  lemma OrderGrows(all: seq<string>, received: seq<Alarm>, after: nat, from: nat, to: nat)
    requires InOrder(all, received, after) && after <= from <= to <= |all|
    ensures InOrder(all, received + Numbered(all, from, to), to)
  {
  }

  lemma CompleteGrows(c: Client, after: nat, page: Page)
    requires after <= |c.all| && Complete(c, after) && !page.reset
    requires page.gap == (after < Evicted(c.all)) && page.alarms == Numbered(c.all, First(c.all, after), Next(c.all, after))
    ensures Complete(c.(received := c.received + page.alarms, pages := c.pages + [page]), Next(c.all, after))
  {
    var pages := c.pages + [page];
    if forall i | 0 <= i < |pages| :: !pages[i].gap {
      forall i | 0 <= i < |c.pages| ensures !c.pages[i].gap { assert pages[i] == c.pages[i]; }
      assert pages[|c.pages|] == page;
      assert Numbered(c.all, 0, after) + Numbered(c.all, after, Next(c.all, after)) == Numbered(c.all, 0, Next(c.all, after));
    }
  }

  lemma PollKeepsInv(generation: string, c: Client, after: nat)
    requires DotFree(generation) && |c.all| <= MaxInt64 && Inv(generation, c, after)
    ensures Inv(generation, Step(generation, c, Polled), Next(c.all, after))
  {
    AnswerAt(generation, c, after);
    OrderGrows(c.all, c.received, after, First(c.all, after), Next(c.all, after));
    CompleteGrows(c, after, PageAt(generation, c.all, after, false));
  }

  lemma AddKeepsInv(generation: string, c: Client, after: nat, info: string)
    requires Inv(generation, c, after)
    ensures Inv(generation, Step(generation, c, Added(info)), after)
  {
    assert Numbered(c.all + [info], 0, after) == Numbered(c.all, 0, after);
  }

  function Adds(es: seq<Event>): nat
    decreases |es|
  {
    if es == [] then 0 else (if es[0].Added? then 1 else 0) + Adds(es[1..])
  }

  lemma {:induction false} RunKeepsInv(generation: string, c: Client, after: nat, es: seq<Event>) returns (end: nat)
    requires DotFree(generation) && |c.all| + Adds(es) <= MaxInt64 && Inv(generation, c, after)
    ensures Inv(generation, Run(generation, c, es), end)
    decreases |es|
  {
    end := after;
    if es != [] {
      var next := after;
      if es[0].Polled? {
        PollKeepsInv(generation, c, after);
        next := Next(c.all, after);
        AnswerAt(generation, c, after);
      } else {
        AddKeepsInv(generation, c, after, es[0].info);
      }
      end := RunKeepsInv(generation, Step(generation, c, es[0]), next, es[1..]);
    }
  }

  /**
    * However adds and polls interleave in one generation, the client is never refused or reset, receives true
    * alarms under strictly increasing numbers, and every alarm up to its position if no page reported a gap.
    */
  lemma PollingDelivers(generation: string, es: seq<Event>) returns (after: nat)
    requires DotFree(generation) && Adds(es) <= MaxInt64
    ensures var c := Run(generation, Fresh, es);
            && !c.failed && (forall i | 0 <= i < |c.pages| :: !c.pages[i].reset)
            && Increasing(c.received) && after <= |c.all|
            && (forall i | 0 <= i < |c.received| :: 1 <= c.received[i].seqNo <= after && c.received[i].info == c.all[c.received[i].seqNo - 1])
            && ((forall i | 0 <= i < |c.pages| :: !c.pages[i].gap) ==> c.received == Numbered(c.all, 0, after))
  {
    after := RunKeepsInv(generation, Fresh, 0, es);
  }

  /** A page reports a gap exactly if an alarm the client has not passed was evicted; else it starts right behind. */
  lemma GapIffEvicted(generation: string, es: seq<Event>, after: nat)
    requires DotFree(generation) && Inv(generation, Run(generation, Fresh, es), after) && |Run(generation, Fresh, es).all| <= MaxInt64
    ensures var c := Run(generation, Fresh, es);
            && Answer(generation, c.all, c.cursor).Some?
            && var page := Answer(generation, c.all, c.cursor).value;
            && (page.gap <==> after + 1 <= |c.all| - Capacity)
            && (page.gap ==> page.alarms != [] && page.alarms[0].seqNo == |c.all| - Capacity + 1)
            && (!page.gap && page.alarms != [] ==> page.alarms[0].seqNo == after + 1)
  {
    var c := Run(generation, Fresh, es);
    AnswerAt(generation, c, after);
  }

  // ---------------------------------------------------------------------------------------------
  // Draining
  // ---------------------------------------------------------------------------------------------

  function Unread(all: seq<string>, after: nat): nat {
    |all| - First(all, after)
  }

  /** Pages needed for `n` unread alarms. */
  function Pages(n: nat): nat {
    (n + PageLimit - 1) / PageLimit
  }

  function Polls(k: nat): seq<Event> {
    seq(k, _ => Polled)
  }

  lemma OnePageLess(n: nat)
    requires n > 0
    ensures Pages(n) >= 1 && Pages(if n <= PageLimit then 0 else n - PageLimit) == Pages(n) - 1
  {
  }

  /** From `c` to `t` all unread alarms have arrived, in the least number of pages, none of them empty. */
  predicate Drained(c: Client, t: Client, after: nat) {
    && |t.pages| == |c.pages| + Pages(Unread(c.all, after))
    && (forall i | 0 <= i < |t.pages| :: if i < |c.pages| then t.pages[i] == c.pages[i] else t.pages[i].alarms != [])
    && t.received == c.received + Numbered(c.all, First(c.all, after), |c.all|)
  }

  lemma DrainedFromNext(c: Client, d: Client, t: Client, after: nat, page: Page)
    requires after <= |c.all| && Unread(c.all, after) > 0
    requires page.alarms == Numbered(c.all, First(c.all, after), Next(c.all, after))
    requires d.all == c.all && d.pages == c.pages + [page] && d.received == c.received + page.alarms
    requires Drained(d, t, Next(c.all, after))
    ensures Drained(c, t, after)
  {
    OnePageLess(Unread(c.all, after));
    var first, next := First(c.all, after), Next(c.all, after);
    assert Numbered(c.all, first, next) + Numbered(c.all, next, |c.all|) == Numbered(c.all, first, |c.all|);
    forall i | 0 <= i < |t.pages| ensures if i < |c.pages| then t.pages[i] == c.pages[i] else t.pages[i].alarms != [] {
      assert i < |d.pages| ==> t.pages[i] == d.pages[i];
    }
  }

  lemma RunPolls(generation: string, c: Client, k: nat)
    ensures Run(generation, c, Polls(k + 1)) == Run(generation, Step(generation, c, Polled), Polls(k))
  {
    assert Polls(k + 1)[1..] == Polls(k);
  }

  lemma NextUnread(all: seq<string>, after: nat)
    requires after <= |all| && Unread(all, after) > 0
    ensures Next(all, after) <= |all| && Unread(all, Next(all, after)) < Unread(all, after)
    ensures Pages(Unread(all, after)) == Pages(Unread(all, Next(all, after))) + 1
  {
    OnePageLess(Unread(all, after));
  }

  /** Once adds stop, n retained unread alarms are drained by exactly ceil(n/200) nonempty pages. */
  lemma {:induction false} DrainTakes(generation: string, c: Client, after: nat)
    requires DotFree(generation) && |c.all| <= MaxInt64 && Inv(generation, c, after)
    ensures Drained(c, Run(generation, c, Polls(Pages(Unread(c.all, after)))), after)
    decreases Unread(c.all, after)
  {
    if Unread(c.all, after) == 0 {
      assert c.received + Numbered(c.all, First(c.all, after), |c.all|) == c.received;
    } else {
      var d, next := Step(generation, c, Polled), Next(c.all, after);
      AnswerAt(generation, c, after);
      PollKeepsInv(generation, c, after);
      NextUnread(c.all, after);
      DrainTakes(generation, d, next);
      RunPolls(generation, c, Pages(Unread(c.all, next)));
      DrainedFromNext(c, d, Run(generation, d, Polls(Pages(Unread(c.all, next)))), after, PageAt(generation, c.all, after, false));
    }
  }
}
