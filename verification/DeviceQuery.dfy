/**
  * Pending device queries of signaling/device_query.go: a record query collects RecordInfo fragments under its SN
  * and answers its HTTP handler once through a one-slot channel.
  */
module DeviceQuery {
  import opened Options

  const RecordLimit := 1000

  datatype Command = RecordInfo | PresetQuery | Other(name: string)

  datatype Record = Record(device: string, named: bool, secrecy: string, body: string)

  datatype RecordList = RecordList(num: Option<int>, items: seq<Record>)

  /** A decoded response message; `sender` is the SIP From user. */
  datatype Message = Message(
    command: Command, sn: int, sender: string, target: string, result: string, named: bool,
    sumNum: Option<int>, list: Option<RecordList>)

  datatype Reply = TooLarge | Records(sumNum: int, records: seq<Record>) | Plain(result: string)

  /** `records` is None while the source's slice is nil; `slot` is the channel. */
  datatype Pending = Pending(device: string, target: string, command: Command, expected: int, records: Option<seq<Record>>, slot: Option<Reply>)

  datatype Status = Ok | BadRequest | Forbidden

  function Normal(r: Record): Record {
    if r.secrecy == "" then r.(secrecy := "0") else r
  }

  /** Lines 209-228: the shape a RecordInfo response must have before the lock is taken. */
  predicate WellFormed(m: Message) {
    && m.result == "" && m.named && m.sumNum.Some? && m.sumNum.value >= 0
    && (m.list.None? ==> m.sumNum.value == 0)
    && (m.list.Some? ==>
          && m.list.value.num == Some(|m.list.value.items|)
          && |m.list.value.items| <= m.sumNum.value
          && forall i | 0 <= i < |m.list.value.items| :: m.list.value.items[i].device == m.target && m.list.value.items[i].named)
  }

  /** The records a message brings, normalised. */
  function Brought(m: Message): seq<Record> {
    if m.list.None? then []
    else seq(|m.list.value.items|, i requires 0 <= i < |m.list.value.items| => Normal(m.list.value.items[i]))
  }

  predicate Matches(p: Pending, m: Message) {
    p.device == m.sender && p.target == m.target && p.command == m.command
  }

  /** The non-blocking send: a full channel drops the reply. */
  function Offer(slot: Option<Reply>, reply: Reply): Option<Reply> {
    if slot.None? then Some(reply) else slot
  }

  /** Lines 280-312, for a matching well-formed fragment. */
  function Collected(p: Pending, m: Message): (Pending, Status)
    requires m.sumNum.Some?
  {
    var sum := m.sumNum.value;
    var held := if p.records.Some? then p.records.value else [];
    if (p.records.Some? && p.expected != sum) || |held| + |Brought(m)| > sum then (p, BadRequest)
    else if sum > RecordLimit then (p.(slot := Offer(p.slot, TooLarge)), Ok)
    else
      var all := held + Brought(m);
      var q := p.(expected := sum, records := Some(all));
      (if |all| == sum then q.(slot := Offer(p.slot, Records(sum, all))) else q, Ok)
  }

  /** What `handleDeviceQueryResponse` does; `admitted` says that the sender is registered there and not stopping. */
  function Handled(queries: map<int, Pending>, m: Message, admitted: bool): (map<int, Pending>, Status) {
    if m.command.RecordInfo? && !WellFormed(m) then (queries, BadRequest)
    else if !admitted then (queries, Forbidden)
    else if m.sn !in queries then (queries, Ok)
    else if (m.command.RecordInfo? || m.command.PresetQuery?) && queries[m.sn].device != m.sender then (queries, Forbidden)
    else if !Matches(queries[m.sn], m) then (queries, Ok)
    else if m.command.RecordInfo? then
      var (p, status) := Collected(queries[m.sn], m);
      (queries[m.sn := p], status)
    else (queries[m.sn := queries[m.sn].(slot := Offer(queries[m.sn].slot, Plain(m.result)))], Ok)
  }

  class Queries {
    var pending: map<int, Pending>
    var lastSn: int

    constructor ()
      ensures pending == map[] && lastSn == 0
    {
      pending, lastSn := map[], 0;
    }

    /** Lines 136-142: a fresh SN from the shared counter. */
    method Register(device: string, target: string, command: Command) returns (sn: int)
      modifies this
      ensures sn == old(lastSn) + 1 && lastSn == sn
      ensures pending == old(pending)[sn := Pending(device, target, command, 0, None, None)]
    {
      lastSn := lastSn + 1;
      sn := lastSn;
      pending := pending[sn := Pending(device, target, command, 0, None, None)];
    }

    method Forget(sn: int)
      modifies this
      ensures lastSn == old(lastSn) && pending == old(pending) - {sn}
    {
      pending := pending - {sn};
    }

    /** The validation loop, which also fills in missing secrecy marks. */
    method Normalise(items: seq<Record>, target: string) returns (r: Option<seq<Record>>)
      ensures r.Some? <==> forall i | 0 <= i < |items| :: items[i].device == target && items[i].named
      ensures r.Some? ==> r.value == seq(|items|, i requires 0 <= i < |items| => Normal(items[i]))
    {
      var out := [];
      for k := 0 to |items|
        invariant forall i | 0 <= i < k :: items[i].device == target && items[i].named
        invariant |out| == k && forall i | 0 <= i < k :: out[i] == Normal(items[i])
      {
        var record := items[k];
        if record.device != target || !record.named {
          return None;
        }
        if record.secrecy == "" {
          record := record.(secrecy := "0");
        }
        out := out + [record];
      }
      r := Some(out);
    }

    method HandleResponse(m: Message, admitted: bool) returns (status: Status)
      modifies this
      ensures (pending, status) == Handled(old(pending), m, admitted) && lastSn == old(lastSn)
    {
      var items := [];
      if m.command.RecordInfo? {
        if m.result != "" || !m.named || m.sumNum.None? || m.sumNum.value < 0 || (m.list.None? && m.sumNum.value != 0) {
          return BadRequest;
        }
        if m.list.Some? {
          var list := m.list.value;
          if list.num != Some(|list.items|) || |list.items| > m.sumNum.value {
            return BadRequest;
          }
          var checked := Normalise(list.items, m.target);
          if checked.None? {
            return BadRequest;
          }
          items := checked.value;
        }
        assert WellFormed(m) && items == Brought(m);
      }
      if !admitted {
        return Forbidden;
      }
      if m.sn !in pending {
        return Ok;
      }
      var p := pending[m.sn];
      if (m.command.RecordInfo? || m.command.PresetQuery?) && p.device != m.sender {
        return Forbidden;
      }
      if !Matches(p, m) {
        return Ok;
      }
      var reply := Plain(m.result);
      if m.command.RecordInfo? {
        status := Collect(m, items);
        return;
      }
      pending := pending[m.sn := p.(slot := Offer(p.slot, reply))];
      return Ok;
    }

    method Collect(m: Message, items: seq<Record>) returns (status: Status)
      requires m.sumNum.Some? && m.sn in pending && items == Brought(m)
      modifies this`pending
      ensures var (p, st) := Collected(old(pending)[m.sn], m); pending == old(pending)[m.sn := p] && status == st
    {
      var p := pending[m.sn];
      var sum := m.sumNum.value;
      var held := if p.records.Some? then p.records.value else [];
      if (p.records.Some? && p.expected != sum) || |held| + |items| > sum {
        return BadRequest;
      }
      if sum > RecordLimit {
        pending := pending[m.sn := p.(slot := Offer(p.slot, TooLarge))];
        return Ok;
      }
      if p.records.None? {
        p := p.(records := Some([]), expected := sum);
      }
      p := p.(records := Some(p.records.value + items));
      if |p.records.value| == p.expected {
        p := p.(slot := Offer(p.slot, Records(p.expected, p.records.value)));
      }
      pending := pending[m.sn := p];
      return Ok;
    }
  }

  // ---------------------------------------------------------------------------------------------
  // Histories
  // ---------------------------------------------------------------------------------------------

  datatype Event =
    | Register(device: string, target: string, command: Command)
    | Handle(m: Message, admitted: bool)
    | Receive(sn: int)            // the waiting handler takes the reply
    | Leave(sn: int)              // its deferred delete

  /** What a waiting handler received, with its query and the fragments stored for it by then. */
  datatype Answer = Answer(query: Pending, fragments: seq<Message>, reply: Reply)

  /** `kept` are the fragments stored under an SN, `oversized` the SNs that were announced more than 1000 records. */
  datatype History = History(
    pending: map<int, Pending>, lastSn: int, kept: map<int, seq<Message>>, oversized: set<int>, answers: map<int, Answer>)

  const Start := History(map[], 0, map[], {}, map[])

  function Kept(h: History, sn: int): seq<Message> {
    if sn in h.kept then h.kept[sn] else []
  }

  /** Whether this message is taken as a fragment of its query. */
  predicate Taken(h: History, m: Message, admitted: bool) {
    && admitted && m.command.RecordInfo? && WellFormed(m) && m.sn in h.pending && Matches(h.pending[m.sn], m)
    && Collected(h.pending[m.sn], m).1.Ok?
  }

  function Step(h: History, e: Event): History {
    match e
    case Register(device, target, command) =>
      var sn := h.lastSn + 1;
      h.(pending := h.pending[sn := Pending(device, target, command, 0, None, None)], lastSn := sn)
    case Handle(m, admitted) =>
      var next := h.(pending := Handled(h.pending, m, admitted).0);
      if !Taken(h, m, admitted) then next
      else if m.sumNum.value > RecordLimit then next.(oversized := h.oversized + {m.sn})
      else next.(kept := h.kept[m.sn := Kept(h, m.sn) + [m]])
    case Receive(sn) =>
      if sn in h.pending && h.pending[sn].slot.Some? && sn !in h.answers then
        var p := h.pending[sn];
        h.(pending := h.pending[sn := p.(slot := None)], answers := h.answers[sn := Answer(p, Kept(h, sn), p.slot.value)])
      else h
    case Leave(sn) => h.(pending := h.pending - {sn})
  }

  function Run(h: History, es: seq<Event>): History
    decreases |es|
  {
    if es == [] then h else Run(Step(h, es[0]), es[1..])
  }

  function Concat(ms: seq<Message>): seq<Record>
    decreases |ms|
  {
    if ms == [] then [] else Concat(ms[..|ms| - 1]) + Brought(ms[|ms| - 1])
  }

  /** All fragments are of this query and announce the same total. */
  predicate Uniform(ms: seq<Message>, p: Pending, sn: int) {
    forall i | 0 <= i < |ms| :: ms[i].sn == sn && Matches(p, ms[i]) && WellFormed(ms[i]) && ms[i].sumNum == Some(p.expected)
  }

  /** The kept fragments, in arrival order, are what the query holds. */
  predicate PendingInv(p: Pending, ms: seq<Message>, sn: int, oversized: bool) {
    p.command.RecordInfo? ==>
      && (p.records.None? <==> ms == [])
      && (p.records.Some? ==> p.records.value == Concat(ms) && Uniform(ms, p, sn) && |p.records.value| <= p.expected <= RecordLimit)
      && (p.slot.Some? ==> ReplyInv(p.slot.value, ms, p, sn, oversized))
  }

  /**
    * The answer a record query may get: the failure, if it was announced more than 1000 records, or a list of
    * exactly the announced length that is the arrival-order concatenation of its fragments.
    */
  predicate ReplyInv(reply: Reply, ms: seq<Message>, p: Pending, sn: int, oversized: bool) {
    match reply
    case TooLarge => oversized
    case Records(sum, records) => ms != [] && records == Concat(ms) && |records| == sum == p.expected <= RecordLimit && Uniform(ms, p, sn)
    case Plain(_) => false
  }

  predicate Inv(h: History) {
    && (forall sn | sn in h.pending :: sn <= h.lastSn && PendingInv(h.pending[sn], Kept(h, sn), sn, sn in h.oversized))
    && (forall sn | sn in h.kept :: sn <= h.lastSn)
    && (forall sn | sn in h.answers :: AnswerInv(h.answers[sn], sn, sn in h.oversized))
  }

  predicate AnswerInv(a: Answer, sn: int, oversized: bool) {
    a.query.command.RecordInfo? ==> ReplyInv(a.reply, a.fragments, a.query, sn, oversized)
  }

  lemma ConcatSnoc(ms: seq<Message>, m: Message)
    ensures Concat(ms + [m]) == Concat(ms) + Brought(m)
  {
    assert (ms + [m])[..|ms|] == ms;
  }

  /** A fragment accepted by a query that is already complete brings no record. */
  lemma FullTakesNothing(p: Pending, ms: seq<Message>, m: Message, oversized: bool)
    requires PendingInv(p, ms, m.sn, oversized) && p.command.RecordInfo? && WellFormed(m) && Collected(p, m).1.Ok?
    requires p.slot.Some? && p.slot.value.Records?
    ensures Brought(m) == [] && m.sumNum == Some(p.expected)
  {
  }

  lemma UniformSnoc(ms: seq<Message>, p: Pending, q: Pending, m: Message)
    requires Uniform(ms, p, m.sn) && Matches(p, m) && WellFormed(m) && m.sumNum == Some(p.expected)
    requires q.device == p.device && q.target == p.target && q.command == p.command && q.expected == p.expected
    ensures Uniform(ms + [m], q, m.sn)
  {
  }

  /** Taking one more fragment keeps the query's account of itself. */
  lemma CollectKeepsInv(p: Pending, ms: seq<Message>, m: Message, oversized: bool)
    requires PendingInv(p, ms, m.sn, oversized) && p.command.RecordInfo? && Matches(p, m) && WellFormed(m)
    requires Collected(p, m).1.Ok?
    ensures m.sumNum.value > RecordLimit ==> PendingInv(Collected(p, m).0, ms, m.sn, true)
    ensures m.sumNum.value <= RecordLimit ==> PendingInv(Collected(p, m).0, ms + [m], m.sn, oversized)
  {
    if m.sumNum.value <= RecordLimit {
      FragmentKeepsInv(p, ms, m, oversized);
    }
  }

  lemma FragmentKeepsInv(p: Pending, ms: seq<Message>, m: Message, oversized: bool)
    requires PendingInv(p, ms, m.sn, oversized) && p.command.RecordInfo? && Matches(p, m) && WellFormed(m)
    requires Collected(p, m).1.Ok? && m.sumNum.value <= RecordLimit
    ensures PendingInv(Collected(p, m).0, ms + [m], m.sn, oversized)
  {
    ConcatSnoc(ms, m);
    UniformSnoc(ms, if ms == [] then p.(expected := m.sumNum.value) else p, Collected(p, m).0, m);
    if p.slot.Some? && p.slot.value.Records? { FullTakesNothing(p, ms, m, oversized); }
  }

  lemma HandleKeepsInv(h: History, m: Message, admitted: bool)
    requires Inv(h)
    ensures Inv(Step(h, Handle(m, admitted)))
  {
    if Taken(h, m, admitted) { TakingKeepsInv(h, m, admitted); } else { OthersKeepInv(h, m, admitted); }
  }

  lemma TakingKeepsInv(h: History, m: Message, admitted: bool)
    requires Inv(h) && Taken(h, m, admitted)
    ensures Inv(Step(h, Handle(m, admitted)))
  {
    var p, ms := h.pending[m.sn], Kept(h, m.sn);
    CollectKeepsInv(p, ms, m, m.sn in h.oversized);
    if m.sumNum.value > RecordLimit {
      MarkingKeepsInv(h, m.sn, Collected(p, m).0);
    } else {
      KeepingKeepsInv(h, m.sn, Collected(p, m).0, ms + [m]);
    }
  }

  lemma MarkingKeepsInv(h: History, sn: int, p: Pending)
    requires Inv(h) && sn in h.pending && PendingInv(p, Kept(h, sn), sn, true)
    ensures Inv(h.(pending := h.pending[sn := p], oversized := h.oversized + {sn}))
  {
  }

  lemma KeepingKeepsInv(h: History, sn: int, p: Pending, ms: seq<Message>)
    requires Inv(h) && sn in h.pending && PendingInv(p, ms, sn, sn in h.oversized)
    ensures Inv(h.(pending := h.pending[sn := p], kept := h.kept[sn := ms]))
  {
  }

  /** A message that is not taken changes at most the slot of a query that is no record query. */
  lemma OthersKeepInv(h: History, m: Message, admitted: bool)
    requires Inv(h) && !Taken(h, m, admitted)
    ensures Inv(Step(h, Handle(m, admitted)))
  {
  }

  lemma StepKeepsInv(h: History, e: Event)
    requires Inv(h)
    ensures Inv(Step(h, e))
  {
    if e.Handle? { HandleKeepsInv(h, e.m, e.admitted); }
  }

  lemma {:induction false} RunKeepsInv(h: History, es: seq<Event>)
    requires Inv(h)
    ensures Inv(Run(h, es))
    decreases |es|
  {
    if es != [] {
      StepKeepsInv(h, es[0]);
      RunKeepsInv(Step(h, es[0]), es[1..]);
    }
  }

  /** Over every run, the one answer of a record query is the failure for an oversized total or the whole list. */
  lemma RecordQueryAnswer(es: seq<Event>, sn: int)
    requires sn in Run(Start, es).answers && Run(Start, es).answers[sn].query.command.RecordInfo?
    ensures var h := Run(Start, es); var a := h.answers[sn];
            ReplyInv(a.reply, a.fragments, a.query, sn, sn in h.oversized)
  {
    RunKeepsInv(Start, es);
  }

  // ---------------------------------------------------------------------------------------------
  // A complete query is answered
  // ---------------------------------------------------------------------------------------------

  /** All announced records have been collected. */
  predicate CompleteQuery(p: Pending) {
    p.command.RecordInfo? && p.records.Some? && |p.records.value| == p.expected
  }

  predicate AnsweredInv(h: History) {
    forall sn | sn in h.pending :: CompleteQuery(h.pending[sn]) ==> h.pending[sn].slot.Some? || sn in h.answers
  }

  /** A fragment that completes its query, or finds it complete, leaves an answer in the slot, or one was there. */
  lemma CompletionAnswers(p: Pending, m: Message)
    requires m.sumNum.Some? && (CompleteQuery(p) ==> p.slot.Some?)
    ensures CompleteQuery(Collected(p, m).0) ==> Collected(p, m).0.slot.Some?
  {
  }

  lemma HandleKeepsAnswered(h: History, m: Message, admitted: bool)
    requires AnsweredInv(h)
    ensures AnsweredInv(Step(h, Handle(m, admitted)))
  {
    if m.sn in h.pending && m.sumNum.Some? && m.sn !in h.answers {
      CompletionAnswers(h.pending[m.sn], m);
    }
  }

  lemma StepKeepsAnswered(h: History, e: Event)
    requires AnsweredInv(h)
    ensures AnsweredInv(Step(h, e))
  {
    if e.Handle? { HandleKeepsAnswered(h, e.m, e.admitted); }
  }

  lemma {:induction false} RunKeepsAnswered(h: History, es: seq<Event>)
    requires AnsweredInv(h)
    ensures AnsweredInv(Run(h, es))
    decreases |es|
  {
    if es != [] {
      StepKeepsAnswered(h, es[0]);
      RunKeepsAnswered(Step(h, es[0]), es[1..]);
    }
  }

  /** In every run a record query whose fragments add up to the total has its answer in the slot or has received it. */
  lemma CompleteQueryIsAnswered(es: seq<Event>, sn: int)
    requires sn in Run(Start, es).pending && Run(Start, es).pending[sn].command.RecordInfo?
    requires var h := Run(Start, es); Kept(h, sn) != [] && |Concat(Kept(h, sn))| == h.pending[sn].expected
    ensures Run(Start, es).pending[sn].slot.Some? || sn in Run(Start, es).answers
  {
    RunKeepsAnswered(Start, es);
    RunKeepsInv(Start, es);
  }

  /**
    * Records are not merged by identity. A fragment that is taken and comes again is taken again, and its records are
    * listed twice, if and only if they fit the announced total twice; otherwise the second is refused without effect.
    */
  lemma RetransmissionIsListedTwiceIff(p: Pending, m: Message)
    requires m.sumNum.Some? && m.sumNum.value <= RecordLimit && Collected(p, m).1.Ok?
    ensures var once := Collected(p, m).0; var (twice, status) := Collected(once, m); var brought := Brought(m);
            var held := if p.records.Some? then p.records.value else [];
            && (status.Ok? <==> |held| + 2 * |brought| <= m.sumNum.value)
            && (if status.Ok? then twice.records == Some(held + brought + brought) else twice == once)
  {
  }

  /** A message that is refused, or is not for a query, leaves every query as it was. */
  lemma RefusedChangesNothing(queries: map<int, Pending>, m: Message, admitted: bool)
    requires !Handled(queries, m, admitted).1.Ok? || m.sn !in queries || !Matches(queries[m.sn], m)
    ensures Handled(queries, m, admitted).0 == queries
  {
  }
}
