/**
  * Who may move a camera: the ownership protocol of `handlePTZ` in signaling/gb_ptz.go, as a transition system
  * over its critical sections, sends and cancellations. An owner entry is deleted by channel key alone.
  * As in `Broadcast`, an event that is not due changes nothing.
  */
module Ptz {
  datatype Key = Key(device: string, channel: string)

  datatype Command = Stop | Motion | Preset

  /** The last command attempted on a channel, or by one handler. */
  datatype Sent = Nothing | MotionStart | PresetCommand | StopCommand

  datatype Position =
    | Starting                // owner installed, start not attempted
    | Sending                 // start attempted, SIP reply outstanding
    | Holding                 // motion accepted, waiting for its time to run out or a cancellation
    | Settling(failed: bool)  // preset: before the section that decides between release and STOP
    | Halting                 // STOP is due
    | Releasing               // STOP attempted, the entry still stands
    | Finished

  datatype Handler = Handler(
    key: Key,
    command: Command,
    at: Position,
    cancelled: bool,
    stopAsked: bool,          // a stop request was answered 202 because of this owner
    sent: Sent)

  datatype State = State(owners: map<Key, nat>, handlers: seq<Handler>, last: map<Key, Sent>)

  const Init := State(map[], [], map[])

  datatype Event =
    | Request(key: Key, command: Command)     // lines 133-168; the admission checks belong to the caller
    | StartDue(h: nat, expired: bool)         // lines 182-186
    | StartReplied(h: nat, ok: bool)
    | HoldEnds(h: nat)
    | Settle(h: nat)                          // lines 193-205
    | HaltDue(h: nat)                         // lines 206-213
    | Release(h: nat)                         // lines 214-216
    | ContextEnds(h: nat)                     // the client went away
    | CancelDevice(device: string)            // beginDeviceStopLocked
    | CancelAll                               // server shutdown

  function Last(s: State, k: Key): Sent {
    if k in s.last then s.last[k] else Nothing
  }

  function StartOf(c: Command): Sent {
    if c.Motion? then MotionStart else PresetCommand
  }

  function Put(s: State, h: nat, x: Handler): State
    requires h < |s.handlers|
  {
    s.(handlers := s.handlers[h := x])
  }

  /** An owner's cancel function called for the handlers that `chosen` selects. */
  function CancelOwners(s: State, chosen: set<Key>): State {
    s.(handlers := seq(|s.handlers|, h requires 0 <= h < |s.handlers| =>
      var x := s.handlers[h];
      if x.key in chosen && x.key in s.owners && s.owners[x.key] == h then x.(cancelled := true) else x))
  }

  function Install(s: State, k: Key, c: Command): State {
    State(s.owners[k := |s.handlers|],
          s.handlers + [Handler(k, c, if c.Stop? then Halting else Starting, false, false, Nothing)],
          s.last)
  }

  /** A request that the caller admits: a stop reaches the owner, anything else finds the channel busy or takes it. */
  function Requested(s: State, k: Key, c: Command): State {
    if k !in s.owners then Install(s, k, c)
    else if c.Stop? && s.owners[k] < |s.handlers| then
      Put(s, s.owners[k], s.handlers[s.owners[k]].(cancelled := true, stopAsked := true))
    else s
  }

  function Step(s: State, e: Event): State {
    match e
    case Request(k, c) => Requested(s, k, c)
    case StartDue(h, expired) =>
      if !(h < |s.handlers| && s.handlers[h].at.Starting?) then s
      else
        var x := s.handlers[h];
        if x.cancelled || expired then Put(s, h, x.(at := if x.command.Preset? then Settling(true) else Halting))
        else Put(s, h, x.(at := Sending, sent := StartOf(x.command))).(last := s.last[x.key := StartOf(x.command)])
    case StartReplied(h, ok) =>
      if !(h < |s.handlers| && s.handlers[h].at.Sending?) then s
      else
        var x := s.handlers[h];
        Put(s, h, x.(at := if x.command.Preset? then Settling(!ok) else if ok then Holding else Halting))
    case HoldEnds(h) =>
      if h < |s.handlers| && s.handlers[h].at.Holding? then Put(s, h, s.handlers[h].(at := Halting)) else s
    case Settle(h) =>
      if !(h < |s.handlers| && s.handlers[h].at.Settling?) then s
      else
        var x := s.handlers[h];
        if x.at.failed || x.cancelled then Put(s, h, x.(at := Halting))
        else Put(s, h, x.(at := Finished)).(owners := s.owners - {x.key})
    case HaltDue(h) =>
      if !(h < |s.handlers| && s.handlers[h].at.Halting?) then s
      else
        var x := s.handlers[h];
        Put(s, h, x.(at := Releasing, sent := StopCommand)).(last := s.last[x.key := StopCommand])
    case Release(h) =>
      if !(h < |s.handlers| && s.handlers[h].at.Releasing?) then s
      else Put(s, h, s.handlers[h].(at := Finished)).(owners := s.owners - {s.handlers[h].key})
    case ContextEnds(h) =>
      if h < |s.handlers| then Put(s, h, s.handlers[h].(cancelled := true)) else s
    case CancelDevice(device) => CancelOwners(s, set k | k in s.owners && k.device == device)
    case CancelAll => CancelOwners(s, s.owners.Keys)
  }

  function Run(s: State, es: seq<Event>): State
    decreases |es|
  {
    if es == [] then s else Run(Step(s, es[0]), es[1..])
  }

  // ---------------------------------------------------------------------------------------------
  // Invariant
  // ---------------------------------------------------------------------------------------------

  predicate HandlerInv(x: Handler) {
    && (x.stopAsked ==> x.cancelled)
    && match x.at
       case Starting => x.sent.Nothing? && !x.command.Stop?
       case Sending => x.sent == StartOf(x.command) && !x.command.Stop?
       case Holding => x.sent.MotionStart? && x.command.Motion?
       case Settling(failed) => x.command.Preset? && !x.sent.StopCommand? && !x.sent.MotionStart? && (!failed ==> x.sent.PresetCommand?)
       case Halting => !x.sent.StopCommand?
       case Releasing => x.sent.StopCommand?
       case Finished => x.sent.StopCommand? || (x.command.Preset? && x.sent.PresetCommand? && !x.stopAsked)
  }

  /** The entries are exactly the handlers that have not finished, each under its own key. */
  predicate OwnersInv(s: State) {
    && (forall k | k in s.owners :: s.owners[k] < |s.handlers| && s.handlers[s.owners[k]].key == k && !s.handlers[s.owners[k]].at.Finished?)
    && (forall h | 0 <= h < |s.handlers| :: !s.handlers[h].at.Finished? ==> s.handlers[h].key in s.owners && s.owners[s.handlers[h].key] == h)
  }

  /** An unowned channel is at rest; on an owned one the owner has spoken last, or found it at rest. */
  predicate RestInv(s: State) {
    forall k | k in s.last ::
      if k in s.owners && s.owners[k] < |s.handlers| && !s.handlers[s.owners[k]].sent.Nothing?
      then s.last[k] == s.handlers[s.owners[k]].sent
      else !s.last[k].MotionStart?
  }

  predicate HandlersInv(s: State) {
    forall h | 0 <= h < |s.handlers| :: HandlerInv(s.handlers[h])
  }

  /** What an owner has attempted is on record. */
  predicate RecordedInv(s: State) {
    forall h | 0 <= h < |s.handlers| :: !s.handlers[h].sent.Nothing? ==> s.handlers[h].key in s.last
  }

  predicate Inv(s: State) {
    OwnersInv(s) && HandlersInv(s) && RestInv(s) && RecordedInv(s)
  }

  /** A handler that moves without sending or finishing. */
  lemma MoveKeepsInv(s: State, h: nat, x: Handler)
    requires Inv(s) && h < |s.handlers| && HandlerInv(x)
    requires x.key == s.handlers[h].key && x.sent == s.handlers[h].sent
    requires x.at.Finished? <==> s.handlers[h].at.Finished?
    ensures Inv(Put(s, h, x))
  {
  }

  /** The owner of a channel sends a command on it. */
  lemma SendKeepsInv(s: State, h: nat, x: Handler)
    requires Inv(s) && h < |s.handlers| && HandlerInv(x)
    requires x.key == s.handlers[h].key && !x.sent.Nothing?
    requires !x.at.Finished? && !s.handlers[h].at.Finished?
    ensures Inv(Put(s, h, x).(last := s.last[x.key := x.sent]))
  {
  }

  /** Deleting by key removes the handler's own entry, and the channel it leaves is at rest. */
  lemma LeaveKeepsInv(s: State, h: nat)
    requires Inv(s) && h < |s.handlers| && !s.handlers[h].at.Finished?
    requires HandlerInv(s.handlers[h].(at := Finished))
    ensures s.handlers[h].key in s.owners && s.owners[s.handlers[h].key] == h
    ensures Inv(Put(s, h, s.handlers[h].(at := Finished)).(owners := s.owners - {s.handlers[h].key}))
  {
  }

  lemma InstallKeepsInv(s: State, k: Key, c: Command)
    requires Inv(s) && k !in s.owners
    ensures Inv(Install(s, k, c))
  {
  }

  lemma CancelKeepsInv(s: State, chosen: set<Key>)
    requires Inv(s)
    ensures Inv(CancelOwners(s, chosen))
  {
    var t := CancelOwners(s, chosen);
    forall h | 0 <= h < |t.handlers| ensures HandlerInv(t.handlers[h]) && t.handlers[h].key == s.handlers[h].key {
      assert HandlerInv(s.handlers[h]);
    }
  }

  lemma RequestKeepsInv(s: State, k: Key, c: Command)
    requires Inv(s)
    ensures Inv(Step(s, Request(k, c)))
  {
    if k !in s.owners {
      InstallKeepsInv(s, k, c);
    } else if c.Stop? {
      MoveKeepsInv(s, s.owners[k], s.handlers[s.owners[k]].(cancelled := true, stopAsked := true));
    }
  }

  lemma StartKeepsInv(s: State, h: nat, expired: bool)
    requires Inv(s)
    ensures Inv(Step(s, StartDue(h, expired)))
  {
    if h < |s.handlers| && s.handlers[h].at.Starting? {
      var x := s.handlers[h];
      if x.cancelled || expired { MoveKeepsInv(s, h, x.(at := if x.command.Preset? then Settling(true) else Halting)); }
      else { SendKeepsInv(s, h, x.(at := Sending, sent := StartOf(x.command))); }
    }
  }

  lemma ReplyKeepsInv(s: State, h: nat, ok: bool)
    requires Inv(s)
    ensures Inv(Step(s, StartReplied(h, ok)))
  {
    if h < |s.handlers| && s.handlers[h].at.Sending? {
      var x := s.handlers[h];
      MoveKeepsInv(s, h, x.(at := if x.command.Preset? then Settling(!ok) else if ok then Holding else Halting));
    }
  }

  lemma SettleKeepsInv(s: State, h: nat)
    requires Inv(s)
    ensures Inv(Step(s, Settle(h)))
  {
    if h < |s.handlers| && s.handlers[h].at.Settling? {
      var x := s.handlers[h];
      if x.at.failed || x.cancelled { MoveKeepsInv(s, h, x.(at := Halting)); } else { LeaveKeepsInv(s, h); }
    }
  }

  lemma HoldKeepsInv(s: State, h: nat)
    requires Inv(s)
    ensures Inv(Step(s, HoldEnds(h)))
  {
    if h < |s.handlers| && s.handlers[h].at.Holding? { MoveKeepsInv(s, h, s.handlers[h].(at := Halting)); }
  }

  lemma HaltKeepsInv(s: State, h: nat)
    requires Inv(s)
    ensures Inv(Step(s, HaltDue(h)))
  {
    if h < |s.handlers| && s.handlers[h].at.Halting? { SendKeepsInv(s, h, s.handlers[h].(at := Releasing, sent := StopCommand)); }
  }

  lemma ReleaseKeepsInv(s: State, h: nat)
    requires Inv(s)
    ensures Inv(Step(s, Release(h)))
  {
    if h < |s.handlers| && s.handlers[h].at.Releasing? { LeaveKeepsInv(s, h); }
  }

  lemma ContextKeepsInv(s: State, h: nat)
    requires Inv(s)
    ensures Inv(Step(s, ContextEnds(h)))
  {
    if h < |s.handlers| { MoveKeepsInv(s, h, s.handlers[h].(cancelled := true)); }
  }

  lemma StepKeepsInv(s: State, e: Event)
    requires Inv(s)
    ensures Inv(Step(s, e))
  {
    match e
    case Request(k, c) => RequestKeepsInv(s, k, c);
    case StartDue(h, expired) => StartKeepsInv(s, h, expired);
    case StartReplied(h, ok) => ReplyKeepsInv(s, h, ok);
    case HoldEnds(h) => HoldKeepsInv(s, h);
    case Settle(h) => SettleKeepsInv(s, h);
    case HaltDue(h) => HaltKeepsInv(s, h);
    case Release(h) => ReleaseKeepsInv(s, h);
    case ContextEnds(h) => ContextKeepsInv(s, h);
    case CancelDevice(device) => CancelKeepsInv(s, set k | k in s.owners && k.device == device);
    case CancelAll => CancelKeepsInv(s, s.owners.Keys);
  }

  lemma {:induction false} RunKeepsInv(s: State, es: seq<Event>)
    requires Inv(s)
    ensures Inv(Run(s, es))
    decreases |es|
  {
    if es != [] {
      StepKeepsInv(s, es[0]);
      RunKeepsInv(Step(s, es[0]), es[1..]);
    }
  }

  // ---------------------------------------------------------------------------------------------
  // Whole runs
  // ---------------------------------------------------------------------------------------------

  /** An entry is never replaced, and only the handler that installed it takes it away. */
  lemma EntryLeavesByItsOwner(es: seq<Event>, e: Event, k: Key)
    requires k in Run(Init, es).owners
    ensures var s := Run(Init, es); var t := Step(s, e);
            if k in t.owners then t.owners[k] == s.owners[k] else e == Release(s.owners[k]) || e == Settle(s.owners[k])
  {
    RunKeepsInv(Init, es);
    var s := Run(Init, es);
    if e.Settle? || e.Release? { LeavingIsOwn(s, e, k); } else { OthersKeepEntry(s, e, k); }
  }

  lemma LeavingIsOwn(s: State, e: Event, k: Key)
    requires Inv(s) && k in s.owners && (e.Settle? || e.Release?)
    ensures var t := Step(s, e); if k in t.owners then t.owners[k] == s.owners[k] else e.h == s.owners[k]
  {
    if e.h < |s.handlers| && !s.handlers[e.h].at.Finished? {
      assert s.handlers[e.h].key in s.owners && s.owners[s.handlers[e.h].key] == e.h;
    }
  }

  lemma OthersKeepEntry(s: State, e: Event, k: Key)
    requires k in s.owners && !e.Settle? && !e.Release?
    ensures k in Step(s, e).owners && Step(s, e).owners[k] == s.owners[k]
  {
  }

  /** A channel nobody owns was not left moving: the last command attempted on it is no motion start. */
  lemma UnownedChannelIsAtRest(es: seq<Event>, k: Key)
    requires k !in Run(Init, es).owners
    ensures !Last(Run(Init, es), k).MotionStart?
  {
    RunKeepsInv(Init, es);
  }

  /** A stop request answered 202 ends in a STOP of the owner it reached, even if a preset was just succeeding. */
  lemma AcceptedStopIsSent(es: seq<Event>, h: nat)
    requires h < |Run(Init, es).handlers|
    requires Run(Init, es).handlers[h].stopAsked && Run(Init, es).handlers[h].at.Finished?
    ensures Run(Init, es).handlers[h].sent.StopCommand?
  {
    RunKeepsInv(Init, es);
    assert HandlerInv(Run(Init, es).handlers[h]);
  }

  /** The 202 answer is given only because of an owner, which it marks for good. */
  lemma StopRequestReachesOwner(s: State, es: seq<Event>, k: Key)
    requires Inv(s) && k in s.owners
    ensures var t := Run(Step(s, Request(k, Stop)), es);
            s.owners[k] < |t.handlers| && t.handlers[s.owners[k]].stopAsked
            && (t.handlers[s.owners[k]].at.Finished? ==> t.handlers[s.owners[k]].sent.StopCommand?)
  {
    var t := Step(s, Request(k, Stop));
    StepKeepsInv(s, Request(k, Stop));
    StopAskedStays(t, es, s.owners[k]);
    RunKeepsInv(t, es);
    assert HandlerInv(Run(t, es).handlers[s.owners[k]]);
  }

  lemma {:induction false} StopAskedStays(s: State, es: seq<Event>, h: nat)
    requires h < |s.handlers| && s.handlers[h].stopAsked
    ensures h < |Run(s, es).handlers| && Run(s, es).handlers[h].stopAsked
    decreases |es|
  {
    if es != [] {
      StopAskedStays(Step(s, es[0]), es[1..], h);
    }
  }
}
