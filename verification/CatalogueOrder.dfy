/** Fragments of one catalogue publish the same map in any arrival order and with any retransmission. */
module CatalogueOrder {
  import opened ChannelRegistry

  datatype Arrival = Arrival(fragment: Response, at: int)

  function ApplyAll(s: State, arrivals: seq<Arrival>): State
    decreases |arrivals|
  {
    if arrivals == [] then s
    else ApplyAll(Applied(s, arrivals[0].fragment, arrivals[0].at).0, arrivals[1..])
  }

  function ItemsOf(arrivals: seq<Arrival>): seq<Item>
    decreases |arrivals|
  {
    if arrivals == [] then [] else arrivals[0].fragment.items + ItemsOf(arrivals[1..])
  }

  function Fragments(arrivals: seq<Arrival>): set<Response> {
    set a | a in arrivals :: a.fragment
  }

  function Ids(items: seq<Item>): set<string> {
    set item | item in items :: item.id
  }

  /** Items that share an id describe the same channel. */
  predicate Consistent(device: string, items: seq<Item>) {
    forall a, b | a in items && b in items && a.id == b.id :: ChannelOf(device, a) == ChannelOf(device, b)
  }

  /** Well-formed fragments of one query that announce the same total and arrive before `deadline`. */
  predicate WellFormed(arrivals: seq<Arrival>, key: Key, total: int, deadline: int) {
    forall i | 0 <= i < |arrivals| ::
      var f := arrivals[i].fragment;
      KeyOf(f) == key && f.sumNum == total && f.num == |f.items| <= total && AllValid(f.items) && arrivals[i].at < deadline
  }

  lemma {:induction false} MergeKeys(m: map<string, Channel>, device: string, items: seq<Item>)
    ensures Merge(m, device, items).Keys == m.Keys + Ids(items)
    decreases |items|
  {
    if items == [] {
    } else {
      var front := items[..|items| - 1];
      MergeKeys(m, device, front);
      assert items == front + [items[|items| - 1]];
    }
  }

  lemma {:induction false} MergeValues(device: string, items: seq<Item>, item: Item)
    requires Consistent(device, items) && item in items
    ensures item.id in Merge(map[], device, items) && Merge(map[], device, items)[item.id] == ChannelOf(device, item)
    decreases |items|
  {
    var front := items[..|items| - 1];
    var last := items[|items| - 1];
    assert items == front + [last];
    if item.id != last.id {
      assert item in front;
      MergeValues(device, front, item);
    }
  }

  /** A merge is determined by the set of items, whatever their order and multiplicity. */
  lemma MergeIgnoresOrder(device: string, a: seq<Item>, b: seq<Item>)
    requires Consistent(device, b)
    requires forall item | item in a :: item in b
    requires Ids(a) == Ids(b)
    ensures Merge(map[], device, a) == Merge(map[], device, b)
  {
    MergeKeys(map[], device, a);
    MergeKeys(map[], device, b);
    forall id | id in Ids(a) ensures Merge(map[], device, a)[id] == Merge(map[], device, b)[id] {
      var item :| item in a && item.id == id;
      MergeValues(device, a, item);
      MergeValues(device, b, item);
    }
  }

  lemma {:induction false} ItemsConcat(a: seq<Arrival>, b: seq<Arrival>)
    ensures ItemsOf(a + b) == ItemsOf(a) + ItemsOf(b)
    decreases |a|
  {
    if a == [] {
      assert a + b == b;
    } else {
      assert (a + b)[1..] == a[1..] + b;
      ItemsConcat(a[1..], b);
    }
  }

  /** After publication the query is gone, and its late fragments change nothing. */
  lemma {:induction false} LateFragmentsChangeNothing(s: State, arrivals: seq<Arrival>, key: Key)
    requires key !in s.pending && forall i | 0 <= i < |arrivals| :: KeyOf(arrivals[i].fragment) == key
    ensures ApplyAll(s, arrivals) == s
    decreases |arrivals|
  {
    if arrivals != [] {
      LateFragmentsChangeNothing(s, arrivals[1..], key);
    }
  }

  lemma SubsetSize(a: set<string>, b: set<string>)
    requires a <= b
    ensures |a| <= |b| && (|a| == |b| ==> a == b)
  {
    assert b == a + (b - a);
    assert |b| == |a| + |b - a|;
  }

  /** The part of `all` that is merged so far: never too large, and complete only if nothing is missing. */
  lemma PartialMerge(device: string, part: seq<Item>, all: seq<Item>)
    requires Consistent(device, all) && forall item | item in part :: item in all
    ensures var m := Merge(map[], device, part);
            && |m| <= |Ids(all)|
            && (|m| == |Ids(all)| <==> Ids(part) == Ids(all))
            && (|m| == |Ids(all)| ==> m == Merge(map[], device, all))
  {
    MergeKeys(map[], device, part);
    assert Ids(part) <= Ids(all) by {
      forall id | id in Ids(part) ensures id in Ids(all) { var item :| item in part && item.id == id; }
    }
    SubsetSize(Ids(part), Ids(all));
    assert |Merge(map[], device, part)| == |Merge(map[], device, part).Keys|;
    if Ids(part) == Ids(all) {
      MergeIgnoresOrder(device, part, all);
    }
  }

  /** One well-formed fragment that does not exceed the total: it completes the catalogue or is kept. */
  lemma OneFragment(s: State, a: Arrival, key: Key, total: int)
    requires key in s.pending && WellFormed([a], key, total, s.pending[key].expiresAt)
    requires s.pending[key].expected == 0 || s.pending[key].expected == total
    requires |Merge(s.pending[key].channels, key.device, a.fragment.items)| <= total
    ensures var p := s.pending[key];
            var merged := Merge(p.channels, key.device, a.fragment.items);
            Applied(s, a.fragment, a.at).0 ==
              if |merged| == total then State(s.channels[key.device := merged], s.pending - {key})
              else s.(pending := s.pending[key := Pending(total, merged, p.expiresAt)])
  {
    assert [a][0] == a;
  }

  /** `done` has been merged without completing the catalogue; `todo` is still to come. */
  predicate Waiting(s: State, key: Key, total: int, done: seq<Arrival>) {
    && key in s.pending
    && s.pending[key].channels == Merge(map[], key.device, ItemsOf(done))
    && s.pending[key].expected == (if done == [] then 0 else total)
    && (done != [] ==> |s.pending[key].channels| < total)
  }

  predicate Covers(arrivals: seq<Arrival>, key: Key, total: int) {
    var all := ItemsOf(arrivals);
    arrivals != [] && Consistent(key.device, all) && |Ids(all)| == total
  }

  /** The state in which the last missing item leaves the registry. */
  function Completed(s: State, key: Key, all: seq<Item>): State {
    State(s.channels[key.device := Merge(map[], key.device, all)], s.pending - {key})
  }

  lemma PendingIsForgotten(s: State, key: Key, p: Pending, all: seq<Item>)
    ensures Completed(s.(pending := s.pending[key := p]), key, all) == Completed(s, key, all)
  {
    assert s.pending[key := p] - {key} == s.pending - {key};
  }

  /** `t` still waits, with one more fragment merged, and differs from `s` in this query alone. */
  predicate StillWaiting(s: State, t: State, key: Key, total: int, done: seq<Arrival>) {
    && Waiting(t, key, total, done)
    && key in s.pending
    && t == s.(pending := s.pending[key := t.pending[key]])
    && t.pending[key].expiresAt == s.pending[key].expiresAt
  }

  /** The next fragment either completes the catalogue, with the merge of all items, or leaves the query waiting. */
  lemma Advances(s: State, key: Key, total: int, done: seq<Arrival>, a: Arrival, all: seq<Item>)
    requires Waiting(s, key, total, done) && WellFormed([a], key, total, s.pending[key].expiresAt)
    requires Consistent(key.device, all) && |Ids(all)| == total && forall item | item in ItemsOf(done + [a]) :: item in all
    ensures var t := Applied(s, a.fragment, a.at).0;
            if Ids(ItemsOf(done + [a])) == Ids(all) then t == Completed(s, key, all)
            else StillWaiting(s, t, key, total, done + [a])
  {
    NextMerge(key, done, a);
    PartialMerge(key.device, ItemsOf(done + [a]), all);
    OneFragment(s, a, key, total);
  }

  lemma {:induction false} Continues(s: State, key: Key, total: int, done: seq<Arrival>, todo: seq<Arrival>)
    requires Waiting(s, key, total, done) && Covers(done + todo, key, total)
    requires WellFormed(done + todo, key, total, s.pending[key].expiresAt)
    ensures ApplyAll(s, todo) == Completed(s, key, ItemsOf(done + todo))
    decreases |todo|
  {
    var all := ItemsOf(done + todo);
    if todo == [] {
      assert done + todo == done;
      PartialMerge(key.device, ItemsOf(done), all);
    } else {
      var next, rest := done + [todo[0]], todo[1..];
      assert next + rest == done + todo;
      ItemsConcat(next, rest);
      assert (done + todo)[|done|] == todo[0];
      Advances(s, key, total, done, todo[0], all);
      var t := Applied(s, todo[0].fragment, todo[0].at).0;
      if Ids(ItemsOf(next)) == Ids(all) {
        forall i | 0 <= i < |rest| ensures KeyOf(rest[i].fragment) == key { assert rest[i] == (done + todo)[|done| + 1 + i]; }
        LateFragmentsChangeNothing(t, rest, key);
      } else {
        Continues(t, key, total, next, rest);
        PendingIsForgotten(s, key, t.pending[key], all);
      }
    }
  }

  lemma NextMerge(key: Key, done: seq<Arrival>, a: Arrival)
    ensures ItemsOf(done + [a]) == ItemsOf(done) + a.fragment.items
    ensures Merge(map[], key.device, ItemsOf(done + [a])) == Merge(Merge(map[], key.device, ItemsOf(done)), key.device, a.fragment.items)
  {
    ItemsConcat(done, [a]);
    assert ItemsOf([a]) == a.fragment.items + ItemsOf([a][1..]);
    MergeConcat(map[], key.device, ItemsOf(done), a.fragment.items);
  }

  /** Fragments that agree and cover exactly the announced total publish their merge, once, and end the query. */
  lemma FragmentsPublishTheirMerge(s: State, key: Key, now: int, total: int, arrivals: seq<Arrival>)
    requires WellFormed(arrivals, key, total, now + Lifetime) && Covers(arrivals, key, total)
    ensures ApplyAll(Begun(s, key, now), arrivals) == Completed(s, key, ItemsOf(arrivals))
  {
    assert [] + arrivals == arrivals;
    Continues(Begun(s, key, now), key, total, [], arrivals);
    PendingIsForgotten(s, key, Pending(0, map[], now + Lifetime), ItemsOf(arrivals));
  }

  /** Two arrival orders with the same fragments, each arriving once or often, leave the same registry. */
  lemma ArrivalOrderDoesNotMatter(s: State, key: Key, now: int, total: int, a: seq<Arrival>, b: seq<Arrival>)
    requires WellFormed(a, key, total, now + Lifetime) && WellFormed(b, key, total, now + Lifetime)
    requires Fragments(a) == Fragments(b)
    requires Covers(a, key, total)
    ensures ApplyAll(Begun(s, key, now), a) == ApplyAll(Begun(s, key, now), b)
  {
    assert a[0].fragment in Fragments(b);
    SameItems(a, b);
    SameItems(b, a);
    var p, q := ItemsOf(a), ItemsOf(b);
    assert Ids(p) == Ids(q) by {
      forall id | id in Ids(p) ensures id in Ids(q) { var item :| item in p && item.id == id; assert item in q; }
      forall id | id in Ids(q) ensures id in Ids(p) { var item :| item in q && item.id == id; assert item in p; }
    }
    MergeIgnoresOrder(key.device, q, p);
    FragmentsPublishTheirMerge(s, key, now, total, a);
    FragmentsPublishTheirMerge(s, key, now, total, b);
  }

  lemma SameItems(a: seq<Arrival>, b: seq<Arrival>)
    requires Fragments(a) <= Fragments(b)
    ensures forall item | item in ItemsOf(a) :: item in ItemsOf(b)
  {
    forall item | item in ItemsOf(a) ensures item in ItemsOf(b) {
      var i := Locate(a, item);
      var f := a[i].fragment;
      assert f in Fragments(a);
      var x :| x in b && x.fragment == f;
      Contains(b, x, item);
    }
  }

  lemma {:induction false} Locate(a: seq<Arrival>, item: Item) returns (i: nat)
    requires item in ItemsOf(a)
    ensures i < |a| && item in a[i].fragment.items
    decreases |a|
  {
    if item in a[0].fragment.items {
      i := 0;
    } else {
      i := Locate(a[1..], item);
      i := i + 1;
    }
  }

  lemma {:induction false} Contains(b: seq<Arrival>, x: Arrival, item: Item)
    requires x in b && item in x.fragment.items
    ensures item in ItemsOf(b)
    decreases |b|
  {
    if b[0] != x {
      Contains(b[1..], x, item);
    }
  }
}
