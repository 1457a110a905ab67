/**
  * The channel registry of signaling/channel_registry.go: catalogue responses arrive in fragments under one
  * (device, SN) and are published when their merge has as many channels as they announced.
  */
module ChannelRegistry {
  datatype Item = Item(id: string, name: string, parent: string, status: string)

  datatype Channel = Channel(device: string, id: string, name: string, parent: string, status: string)

  datatype Key = Key(device: string, sn: int)

  /** `expected == 0` is the source's "not yet known". */
  datatype Pending = Pending(expected: int, channels: map<string, Channel>, expiresAt: int)

  datatype Response = Response(device: string, sn: int, sumNum: int, num: int, items: seq<Item>)

  datatype State = State(channels: map<string, map<string, Channel>>, pending: map<Key, Pending>)

  datatype Outcome = Accepted | Invalid | Expired | Inconsistent | BadChannel | TooMany

  const Lifetime := 10_000_000_000

  predicate ValidId(id: string) {
    |id| == 20 && forall i | 0 <= i < 20 :: '0' <= id[i] <= '9'
  }

  function ChannelOf(device: string, item: Item): Channel {
    Channel(device, item.id, item.name, item.parent, if item.status == "ON" then "ON" else "OFF")
  }

  /** Later items win, as in the source's loop. */
  function Merge(m: map<string, Channel>, device: string, items: seq<Item>): map<string, Channel>
    decreases |items|
  {
    if items == [] then m
    else
      var last := items[|items| - 1];
      Merge(m, device, items[..|items| - 1])[last.id := ChannelOf(device, last)]
  }

  predicate AllValid(items: seq<Item>) {
    forall i | 0 <= i < |items| :: ValidId(items[i].id)
  }

  function KeyOf(r: Response): Key {
    Key(r.device, r.sn)
  }

  /** What `apply` does at time `now`. */
  function Applied(s: State, r: Response, now: int): (State, Outcome) {
    var key := KeyOf(r);
    if key !in s.pending || r.sumNum < 0 || r.num != |r.items| || r.sumNum < |r.items| then (s, Invalid)
    else
      var p := s.pending[key];
      if now >= p.expiresAt then (s.(pending := s.pending - {key}), Expired)
      else if p.expected != 0 && p.expected != r.sumNum then (s, Inconsistent)
      else if !AllValid(r.items) then (s, BadChannel)
      else
        var merged := Merge(p.channels, r.device, r.items);
        if |merged| > r.sumNum then (s, TooMany)
        else if |merged| == r.sumNum then
          (State(s.channels[r.device := merged], s.pending - {key}), Accepted)
        else (s.(pending := s.pending[key := Pending(r.sumNum, merged, p.expiresAt)]), Accepted)
  }

  /** The merge loop, lines 74-93. */
  method MergeItems(known: map<string, Channel>, device: string, items: seq<Item>) returns (valid: bool, merged: map<string, Channel>)
    ensures valid <==> AllValid(items)
    ensures valid ==> merged == Merge(known, device, items)
  {
    merged := known;
    for i := 0 to |items|
      invariant forall j | 0 <= j < i :: ValidId(items[j].id)
      invariant merged == Merge(known, device, items[..i])
    {
      var item := items[i];
      if !ValidId(item.id) {
        return false, merged;
      }
      merged := merged[item.id := ChannelOf(device, item)];
      assert items[..i + 1][..i] == items[..i];
    }
    assert items[..|items|] == items;
    valid := true;
  }

  class Registry {
    var channels: map<string, map<string, Channel>>
    var pending: map<Key, Pending>

    function View(): State
      reads this
    {
      State(channels, pending)
    }

    constructor ()
      ensures View() == State(map[], map[])
    {
      channels, pending := map[], map[];
    }

    method BeginQuery(device: string, sn: int, now: int)
      modifies this
      ensures View() == Begun(old(View()), Key(device, sn), now)
    {
      pending := pending[Key(device, sn) := Pending(0, map[], now + Lifetime)];
    }

    method CancelQuery(device: string, sn: int)
      modifies this
      ensures View() == old(View()).(pending := old(pending) - {Key(device, sn)})
    {
      pending := pending - {Key(device, sn)};
    }

    method Apply(r: Response, now: int) returns (outcome: Outcome)
      modifies this
      ensures (View(), outcome) == Applied(old(View()), r, now)
    {
      var key := KeyOf(r);
      if key !in pending || r.sumNum < 0 || r.num != |r.items| || r.sumNum < |r.items| {
        return Invalid;
      }
      var p := pending[key];
      if now >= p.expiresAt {
        pending := pending - {key};
        return Expired;
      }
      var expected := p.expected;
      if expected == 0 {
        expected := r.sumNum;
      } else if expected != r.sumNum {
        return Inconsistent;
      }
      var valid, merged := MergeItems(p.channels, r.device, r.items);
      if !valid {
        return BadChannel;
      }
      if |merged| > expected {
        return TooMany;
      }
      if |merged| == expected {
        channels := channels[r.device := merged];
        pending := pending - {key};
        return Accepted;
      }
      pending := pending[key := Pending(expected, merged, p.expiresAt)];
      return Accepted;
    }

    method RemoveDevice(device: string)
      modifies this
      ensures View() == Removed(old(View()), device)
    {
      channels := channels - {device};
      var keys := pending.Keys;
      while keys != {}
        invariant channels == old(channels) - {device} && keys <= old(pending).Keys
        invariant forall k :: k in pending <==> k in old(pending) && (k in keys || k.device != device)
        invariant forall k | k in pending :: pending[k] == old(pending)[k]
        decreases |keys|
      {
        var k :| k in keys;
        if k.device == device {
          pending := pending - {k};
        }
        keys := keys - {k};
      }
    }

    method Expire(now: int)
      modifies this
      ensures View() == Swept(old(View()), now)
    {
      var keys := pending.Keys;
      while keys != {}
        invariant channels == old(channels) && keys <= old(pending).Keys
        invariant forall k :: k in pending <==> k in old(pending) && (k in keys || now < old(pending)[k].expiresAt)
        invariant forall k | k in pending :: pending[k] == old(pending)[k]
        decreases |keys|
      {
        var k :| k in keys;
        if now >= pending[k].expiresAt {
          pending := pending - {k};
        }
        keys := keys - {k};
      }
    }
  }

  function Begun(s: State, key: Key, now: int): State {
    s.(pending := s.pending[key := Pending(0, map[], now + Lifetime)])
  }

  function Removed(s: State, device: string): State {
    State(s.channels - {device}, map k | k in s.pending && k.device != device :: s.pending[k])
  }

  function Swept(s: State, now: int): State {
    s.(pending := map k | k in s.pending && now < s.pending[k].expiresAt :: s.pending[k])
  }

  // ---------------------------------------------------------------------------------------------
  // Histories: what is published is a complete merge
  // ---------------------------------------------------------------------------------------------

  datatype Event =
    | Begin(key: Key, now: int)
    | Cancel(key: Key)
    | Apply(r: Response, now: int)
    | Remove(device: string)
    | Sweep(now: int)

  /** The fragments accepted since each query began, and those behind each published catalogue. */
  datatype History = History(state: State, accepted: map<Key, seq<Response>>, published: map<string, seq<Response>>)

  const Start := History(State(map[], map[]), map[], map[])

  function Items(fs: seq<Response>): seq<Item>
    decreases |fs|
  {
    if fs == [] then [] else Items(fs[..|fs| - 1]) + fs[|fs| - 1].items
  }

  function Fragments(h: History, key: Key): seq<Response> {
    if key in h.accepted then h.accepted[key] else []
  }

  function Step(h: History, e: Event): History {
    match e
    case Begin(key, now) => History(Begun(h.state, key, now), h.accepted[key := []], h.published)
    case Cancel(key) => h.(state := h.state.(pending := h.state.pending - {key}))
    case Apply(r, now) =>
      var (s, outcome) := Applied(h.state, r, now);
      if !outcome.Accepted? then h.(state := s)
      else
        var fs := Fragments(h, KeyOf(r)) + [r];
        History(s, h.accepted[KeyOf(r) := fs], if KeyOf(r) in s.pending then h.published else h.published[r.device := fs])
    case Remove(device) => h.(state := Removed(h.state, device), published := h.published - {device})
    case Sweep(now) => h.(state := Swept(h.state, now))
  }

  function Run(h: History, es: seq<Event>): History
    decreases |es|
  {
    if es == [] then h else Run(Step(h, es[0]), es[1..])
  }

  /** All fragments belong to the key and announce the same total. */
  predicate Uniform(fs: seq<Response>, key: Key, total: int) {
    forall i | 0 <= i < |fs| :: KeyOf(fs[i]) == key && fs[i].sumNum == total
  }

  /** A query in progress holds the merge of its fragments, incomplete; 0 means that none was accepted. */
  predicate PendingInv(p: Pending, fs: seq<Response>, key: Key) {
    && p.channels == Merge(map[], key.device, Items(fs))
    && Uniform(fs, key, p.expected)
    && (p.expected == 0 <==> fs == [])
    && (fs != [] ==> |p.channels| < p.expected)
  }

  /** A published catalogue is the merge of the fragments of one query, with as many channels as each announced. */
  predicate PublishedInv(catalogue: map<string, Channel>, fs: seq<Response>, device: string) {
    && fs != []
    && fs[0].device == device
    && catalogue == Merge(map[], device, Items(fs))
    && Uniform(fs, KeyOf(fs[0]), |catalogue|)
  }

  predicate Inv(h: History) {
    && (forall key | key in h.state.pending :: PendingInv(h.state.pending[key], Fragments(h, key), key))
    && h.published.Keys == h.state.channels.Keys
    && (forall d | d in h.state.channels :: PublishedInv(h.state.channels[d], h.published[d], d))
  }

  lemma {:induction false} MergeConcat(m: map<string, Channel>, device: string, a: seq<Item>, b: seq<Item>)
    ensures Merge(m, device, a + b) == Merge(Merge(m, device, a), device, b)
    decreases |b|
  {
    if b == [] {
      assert a + b == a;
    } else {
      assert (a + b)[..|a + b| - 1] == a + b[..|b| - 1];
      MergeConcat(m, device, a, b[..|b| - 1]);
    }
  }

  /** The merge that `apply` forms is the merge of all accepted fragments. */
  lemma MergeOneMore(key: Key, fs: seq<Response>, r: Response)
    ensures Items(fs + [r]) == Items(fs) + r.items
    ensures Merge(map[], key.device, Items(fs + [r])) == Merge(Merge(map[], key.device, Items(fs)), key.device, r.items)
  {
    assert (fs + [r])[..|fs|] == fs;
    MergeConcat(map[], key.device, Items(fs), r.items);
  }

  lemma AcceptedStaysPending(p: Pending, fs: seq<Response>, key: Key, r: Response)
    requires PendingInv(p, fs, key) && KeyOf(r) == key && (p.expected == 0 || p.expected == r.sumNum)
    requires |Merge(p.channels, key.device, r.items)| < r.sumNum
    ensures PendingInv(Pending(r.sumNum, Merge(p.channels, key.device, r.items), p.expiresAt), fs + [r], key)
  {
    MergeOneMore(key, fs, r);
  }

  lemma AcceptedIsPublished(p: Pending, fs: seq<Response>, key: Key, r: Response)
    requires PendingInv(p, fs, key) && KeyOf(r) == key && (p.expected == 0 || p.expected == r.sumNum)
    requires |Merge(p.channels, key.device, r.items)| == r.sumNum
    ensures PublishedInv(Merge(p.channels, key.device, r.items), fs + [r], key.device)
  {
    MergeOneMore(key, fs, r);
  }

  lemma WaitingKeepsInv(h: History, key: Key, p: Pending, fs: seq<Response>)
    requires Inv(h) && PendingInv(p, fs, key)
    ensures Inv(History(h.state.(pending := h.state.pending[key := p]), h.accepted[key := fs], h.published))
  {
  }

  lemma PublishingKeepsInv(h: History, key: Key, m: map<string, Channel>, fs: seq<Response>)
    requires Inv(h) && PublishedInv(m, fs, key.device)
    ensures Inv(History(State(h.state.channels[key.device := m], h.state.pending - {key}), h.accepted[key := fs], h.published[key.device := fs]))
  {
    var t := History(State(h.state.channels[key.device := m], h.state.pending - {key}), h.accepted[key := fs], h.published[key.device := fs]);
    forall d | d in t.state.channels ensures PublishedInv(t.state.channels[d], t.published[d], d) {
      assert d != key.device ==> t.state.channels[d] == h.state.channels[d] && t.published[d] == h.published[d];
    }
    forall k | k in t.state.pending ensures PendingInv(t.state.pending[k], Fragments(t, k), k) {
      assert t.state.pending[k] == h.state.pending[k] && Fragments(t, k) == Fragments(h, k);
    }
  }

  lemma DroppingKeepsInv(h: History, key: Key)
    requires Inv(h)
    ensures Inv(h.(state := h.state.(pending := h.state.pending - {key})))
  {
  }

  /** An accepted fragment is added to its query, and completes it exactly if the merge has the announced size. */
  lemma AcceptedStep(h: History, r: Response, now: int)
    requires Applied(h.state, r, now).1.Accepted?
    ensures KeyOf(r) in h.state.pending
    ensures var key := KeyOf(r); var p := h.state.pending[key]; var fs := Fragments(h, key) + [r];
            var merged := Merge(p.channels, key.device, r.items);
            && (p.expected == 0 || p.expected == r.sumNum) && |merged| <= r.sumNum
            && Step(h, Apply(r, now)) ==
                 if |merged| == r.sumNum
                 then History(State(h.state.channels[key.device := merged], h.state.pending - {key}), h.accepted[key := fs], h.published[key.device := fs])
                 else History(h.state.(pending := h.state.pending[key := Pending(r.sumNum, merged, p.expiresAt)]), h.accepted[key := fs], h.published)
  {
  }

  lemma AcceptingKeepsInv(h: History, r: Response, now: int)
    requires Inv(h) && Applied(h.state, r, now).1.Accepted?
    ensures Inv(Step(h, Apply(r, now)))
  {
    AcceptedStep(h, r, now);
    var key := KeyOf(r);
    var p, fs := h.state.pending[key], Fragments(h, key);
    var merged := Merge(p.channels, key.device, r.items);
    if |merged| == r.sumNum {
      AcceptedIsPublished(p, fs, key, r);
      PublishingKeepsInv(h, key, merged, fs + [r]);
    } else {
      AcceptedStaysPending(p, fs, key, r);
      WaitingKeepsInv(h, key, Pending(r.sumNum, merged, p.expiresAt), fs + [r]);
    }
  }

  lemma ApplyKeepsInv(h: History, r: Response, now: int)
    requires Inv(h)
    ensures Inv(Step(h, Apply(r, now)))
  {
    var key := KeyOf(r);
    match Applied(h.state, r, now).1
    case Accepted => AcceptingKeepsInv(h, r, now);
    case Expired => DroppingKeepsInv(h, key);
    case _ =>
  }

  lemma RemovingKeepsInv(h: History, device: string)
    requires Inv(h)
    ensures Inv(Step(h, Remove(device)))
  {
  }

  lemma SweepingKeepsInv(h: History, now: int)
    requires Inv(h)
    ensures Inv(Step(h, Sweep(now)))
  {
  }

  lemma StepKeepsInv(h: History, e: Event)
    requires Inv(h)
    ensures Inv(Step(h, e))
  {
    match e
    case Begin(key, now) => WaitingKeepsInv(h, key, Pending(0, map[], now + Lifetime), []);
    case Cancel(key) => DroppingKeepsInv(h, key);
    case Apply(r, now) => ApplyKeepsInv(h, r, now);
    case Remove(device) => RemovingKeepsInv(h, device);
    case Sweep(now) => SweepingKeepsInv(h, now);
  }

  lemma {:induction false} RunKeepsInv(h: History, es: seq<Event>)
    requires Inv(h)
    ensures Inv(Run(h, es))
    decreases |es|
  {
    if es != [] {
      StepKeepsInv(h, es[0]);
      RunKeepsInv(Step(h, es[0]), es[1..]);
    }
  }

  /** In every run each published catalogue is the complete merge of the fragments accepted under one (device, SN). */
  lemma PublishedIsCompleteMerge(es: seq<Event>, device: string)
    requires device in Run(Start, es).state.channels
    ensures var h := Run(Start, es);
            device in h.published && PublishedInv(h.state.channels[device], h.published[device], device)
  {
    RunKeepsInv(Start, es);
  }

  /** The sentinel is sound: a query that still waits knows its total exactly if it accepted a fragment. */
  lemma ZeroMeansNothingAccepted(es: seq<Event>, key: Key)
    requires key in Run(Start, es).state.pending
    ensures var h := Run(Start, es); h.state.pending[key].expected == 0 <==> Fragments(h, key) == []
  {
    RunKeepsInv(Start, es);
  }

  /** A fragment rejected before its query expires changes nothing. */
  lemma RejectionChangesNothing(s: State, r: Response, now: int)
    requires KeyOf(r) in s.pending ==> now < s.pending[KeyOf(r)].expiresAt
    ensures !Applied(s, r, now).1.Accepted? ==> Applied(s, r, now).0 == s
  {
  }
}
