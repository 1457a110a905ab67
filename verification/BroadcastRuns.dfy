/** What signaling/gb_broadcast.go promises over whole runs, for every interleaving of its goroutines. */
module BroadcastRuns {
  import opened Options
  import opened Broadcast

  lemma Reachable(es: seq<Event>)
    ensures Inv(Run(Init, es))
  {
    RunKeepsInv(Init, es);
  }

  /** No run blocks on `result` or `invited`, closes a channel twice or writes `cleanupErr` late. */
  lemma NoRunFaults(es: seq<Event>, i: nat)
    requires i < |Run(Init, es).sessions|
    ensures !Run(Init, es).sessions[i].fault
  {
    Reachable(es);
  }

  /** Two sessions of one device are never alive together, and the map shows the one that is. */
  lemma OneSessionPerDevice(es: seq<Event>, i: nat, j: nat)
    requires i < |Run(Init, es).sessions| && j < |Run(Init, es).sessions|
    requires !Run(Init, es).sessions[i].run.Ended? && !Run(Init, es).sessions[j].run.Ended?
    requires Run(Init, es).sessions[i].device == Run(Init, es).sessions[j].device
    ensures i == j && Listed(Run(Init, es), i)
  {
    Reachable(es);
    var s := Run(Init, es);
    assert Listed(s, i) && Listed(s, j);
  }

  /** A map entry is never overwritten and disappears only by the `Remove` of the session it names. */
  lemma EntryLeavesByItsOwnSession(s: State, e: Event, d: DeviceId)
    requires Inv(s) && d in s.broadcasts
    ensures d in Step(s, e).broadcasts ==> Step(s, e).broadcasts[d] == s.broadcasts[d]
    ensures d !in Step(s, e).broadcasts ==> e == Remove(s.broadcasts[d])
  {
    if e.Remove? && e.i < |s.sessions| && s.sessions[e.i].run.Removing? {
      RemovedKeepsInv(s, e.i);
    }
  }

  /** A ticket is returned only for a bound, accepted, answered, acknowledged and configured broadcast. */
  lemma TicketMeansEstablished(es: seq<Event>, i: nat)
    requires i < |Run(Init, es).sessions| && Run(Init, es).sessions[i].caller.ReturnedTicket?
    ensures var x := Run(Init, es).sessions[i];
            && x.progress.local.Some? && x.progress.local.value != 0 && x.progress.local.value % 2 == 0
            && x.progress.businessOk && x.progress.configured
            && x.dialog.Some? && x.dialog.value.answerDone && !x.dialog.value.answerErr && x.dialog.value.ackRead
            && x.progress.rounds == 4
  {
    Reachable(es);
  }

  /** The select loop of `prepareBroadcast` makes at most four productive iterations. */
  lemma SelectLoopIsBounded(es: seq<Event>, i: nat)
    requires i < |Run(Init, es).sessions|
    ensures Run(Init, es).sessions[i].progress.rounds <= 4
  {
    Reachable(es);
  }

  /** A failed start returns only once the session has closed `done`, closed its dialog and left the map. */
  lemma ErrorMeansCleanedUp(es: seq<Event>, i: nat)
    requires i < |Run(Init, es).sessions| && Run(Init, es).sessions[i].caller.ReturnedError?
    ensures var s := Run(Init, es);
            && s.sessions[i].done && !Listed(s, i)
            && DialogClosed(s.sessions[i].dialog)
  {
    Reachable(es);
  }

  /** After `done` the session is frozen for its waiters: `cleanupErr` and the cause stay as read. */
  lemma {:induction false} DoneIsFinal(s: State, es: seq<Event>, i: nat)
    requires Inv(s) && i < |s.sessions| && s.sessions[i].done
    ensures var t := Run(s, es);
            && i < |t.sessions| && t.sessions[i].done
            && t.sessions[i].cleanupFailed == s.sessions[i].cleanupFailed
            && t.sessions[i].cancelled == s.sessions[i].cancelled
            && !Listed(t, i)
    decreases |es|
  {
    if es == [] {
    } else {
      StepKeepsInv(s, es[0]);
      DoneSurvivesStep(s, es[0], i);
      DoneIsFinal(Step(s, es[0]), es[1..], i);
    }
  }

  lemma DoneSurvivesStep(s: State, e: Event, i: nat)
    requires Inv(s) && i < |s.sessions| && s.sessions[i].done
    ensures var t := Step(s, e);
            && i < |t.sessions| && t.sessions[i].done
            && t.sessions[i].cleanupFailed == s.sessions[i].cleanupFailed
            && t.sessions[i].cancelled == s.sessions[i].cancelled
  {
    assert SessionInv(s.sessions[i]);
  }

  // ---------------------------------------------------------------------------------------------
  // Every stop completes
  // ---------------------------------------------------------------------------------------------

  /**
    * Replies that end a setup at once, then the INVITE handler and the ACK loop running to their end, then the
    * cleanup. Actions a session is not waiting for change nothing, so one schedule serves every state.
    */
  function ShutdownAction(k: nat): Action
    requires k < 13
  {
    if k == 0 then CreateReplied(Failed)
    else if k == 1 then NotifyReplied(false)
    else if k == 2 then SetupExpires
    else if k == 3 then ConfigureReplied(false)
    else if k == 4 then ResultSent
    else if k == 5 then AnswerBuilt
    else if k == 6 then AnswerFinished(true)
    else if k == 7 then AckLoopEnds
    else if k == 8 then CancelSeen
    else if k == 9 then DeleteReplied(false)
    else if k == 10 then DialogRead
    else if k == 11 then AnswerSeen
    else AckLoopSeen
  }

  function Shutdown(i: nat, k: nat): seq<Event>
    requires k <= 13
    decreases 13 - k
  {
    if k == 13 then [Remove(i)] else [Local(i, ShutdownAction(k))] + Shutdown(i, k + 1)
  }

  lemma {:induction false} ShutdownInstallsNothing(i: nat, k: nat)
    requires k <= 13
    ensures forall n | 0 <= n < |Shutdown(i, k)| :: !Shutdown(i, k)[n].Install?
    decreases 13 - k
  {
    if k < 13 {
      ShutdownInstallsNothing(i, k + 1);
    }
  }

  /** What holds once the first `k` shutdown actions have been taken. */
  predicate Passed(k: nat, x: Session) {
    && x.cancelled.Some? && !x.run.Ended? && (x.dialog.Some? ==> DialogInv(x.dialog.value))
    && (k >= 1 ==> !x.run.Creating?)
    && (k >= 2 ==> !x.run.Notifying?)
    && (k >= 3 ==> !x.run.Waiting?)
    && (k >= 4 ==> !x.run.Configuring?)
    && (k >= 5 ==> !x.run.Publishing?)
    && (k >= 6 && x.dialog.Some? ==> !x.dialog.value.answer.Building?)
    && (k >= 7 && x.dialog.Some? ==> x.dialog.value.answerDone)
    && (k >= 8 ==> DialogClosed(x.dialog))
    && (k >= 9 ==> !x.run.Draining?)
    && (k >= 10 ==> !x.run.Deleting?)
    && (k >= 11 ==> !x.run.ReadingDialog?)
    && (k >= 12 ==> !x.run.AwaitingAnswer?)
    && (k >= 13 ==> x.run.Removing?)
    && (x.run.AwaitingAnswer? || x.run.AwaitingAckLoop? ==> x.dialog.Some?)
  }

  lemma PassedStep(k: nat, x: Session)
    requires k < 13 && Passed(k, x)
    ensures Passed(k + 1, Act(x, ShutdownAction(k))) && (Act(x, ShutdownAction(k)).cleanupFailed ==> x.cleanupFailed)
  {
    if k < 3 { SettleStep(k, x); } else if k < 5 { PublishStep(k, x); } else if k < 7 { AnswerStep(k, x); }
    else if k < 9 { DrainStep(k, x); } else if k < 11 { DeleteStep(k, x); } else { FinishStep(k, x); }
  }

  lemma SettleStep(k: nat, x: Session)
    requires 0 <= k < 3 && Passed(k, x)
    ensures Passed(k + 1, Act(x, ShutdownAction(k))) && (Act(x, ShutdownAction(k)).cleanupFailed ==> x.cleanupFailed)
  {
  }

  lemma PublishStep(k: nat, x: Session)
    requires 3 <= k < 5 && Passed(k, x)
    ensures Passed(k + 1, Act(x, ShutdownAction(k))) && (Act(x, ShutdownAction(k)).cleanupFailed ==> x.cleanupFailed)
  {
  }

  lemma AnswerStep(k: nat, x: Session)
    requires 5 <= k < 7 && Passed(k, x)
    ensures Passed(k + 1, Act(x, ShutdownAction(k))) && (Act(x, ShutdownAction(k)).cleanupFailed ==> x.cleanupFailed)
  {
  }

  lemma DrainStep(k: nat, x: Session)
    requires 7 <= k < 9 && Passed(k, x)
    ensures Passed(k + 1, Act(x, ShutdownAction(k))) && (Act(x, ShutdownAction(k)).cleanupFailed ==> x.cleanupFailed)
  {
  }

  lemma DeleteStep(k: nat, x: Session)
    requires 9 <= k < 11 && Passed(k, x)
    ensures Passed(k + 1, Act(x, ShutdownAction(k))) && (Act(x, ShutdownAction(k)).cleanupFailed ==> x.cleanupFailed)
  {
  }

  lemma FinishStep(k: nat, x: Session)
    requires 11 <= k < 13 && Passed(k, x)
    ensures Passed(k + 1, Act(x, ShutdownAction(k))) && (Act(x, ShutdownAction(k)).cleanupFailed ==> x.cleanupFailed)
  {
  }

  lemma RemoveEnds(s: State, i: nat)
    requires Inv(s) && i < |s.sessions| && s.sessions[i].run.Removing?
    ensures var t := Run(s, [Remove(i)]);
            && i < |t.sessions| && t.sessions[i].done && s.sessions[i].device !in t.broadcasts
            && t.sessions[i].cleanupFailed == s.sessions[i].cleanupFailed
  {
    RemovedKeepsInv(s, i);
    assert Run(s, [Remove(i)]) == Run(Step(s, Remove(i)), [Remove(i)][1..]);
  }

  lemma {:induction false} ShutdownRuns(s: State, i: nat, k: nat)
    requires Inv(s) && i < |s.sessions| && k <= 13 && Passed(k, s.sessions[i])
    ensures var t := Run(s, Shutdown(i, k));
            && i < |t.sessions| && t.sessions[i].done && s.sessions[i].device !in t.broadcasts
            && (t.sessions[i].cleanupFailed ==> s.sessions[i].cleanupFailed)
    decreases 13 - k
  {
    if k == 13 {
      RemoveEnds(s, i);
    } else {
      var e := Local(i, ShutdownAction(k));
      StepKeepsInv(s, e);
      PassedStep(k, s.sessions[i]);
      ShutdownRuns(Step(s, e), i, k + 1);
      assert Shutdown(i, k)[1..] == Shutdown(i, k + 1);
    }
  }

  /**
    * No deadlock: in every reachable state a cancelled session can be brought out of the map by steps of its
    * own goroutines alone, and then the device is free again.
    */
  lemma CancelledSessionCanLeave(es: seq<Event>, i: nat)
    requires i < |Run(Init, es).sessions|
    requires Run(Init, es).sessions[i].cancelled.Some? && !Run(Init, es).sessions[i].run.Ended?
    ensures var t := Run(Run(Init, es), Shutdown(i, 0));
            i < |t.sessions| && t.sessions[i].done && Run(Init, es).sessions[i].device !in t.broadcasts
  {
    Reachable(es);
    var s := Run(Init, es);
    assert SessionInv(s.sessions[i]);
    ShutdownRuns(s, i, 0);
  }

  // ---------------------------------------------------------------------------------------------
  // The endpoint in the SDP answer
  // ---------------------------------------------------------------------------------------------

  /** The answer of session `i` has been composed, with the given endpoint flag. */
  predicate Composed(s: State, i: nat, endpoint: bool) {
    && i < |s.sessions| && s.sessions[i].dialog.Some?
    && !s.sessions[i].dialog.value.answer.Building? && s.sessions[i].dialog.value.endpoint == endpoint
  }

  lemma ComposedSurvivesStep(s: State, e: Event, i: nat, endpoint: bool)
    requires Composed(s, i, endpoint)
    ensures Composed(Step(s, e), i, endpoint)
  {
  }

  lemma {:induction false} ComposedSurvives(s: State, es: seq<Event>, i: nat, endpoint: bool)
    requires Composed(s, i, endpoint)
    ensures Composed(Run(s, es), i, endpoint)
    decreases |es|
  {
    if es != [] {
      ComposedSurvivesStep(s, es[0], i, endpoint);
      ComposedSurvives(Step(s, es[0]), es[1..], i, endpoint);
    }
  }

  /** Event `k` of the run is a reply that binds the media port of session `i`. */
  predicate CreatedAt(es: seq<Event>, k: nat, i: nat) {
    && k < |es| && BindsPort(es[k], i)
    && var s := Run(Init, es[..k]); i < |s.sessions| && s.sessions[i].run.Creating?
  }

  predicate BindsPort(e: Event, i: nat) {
    e.Local? && e.i == i && e.action.CreateReplied? && e.action.reply.Created? && ValidPort(e.action.reply.port)
  }

  /** At event `k` the INVITE handler of session `i` composes its answer. */
  predicate BuiltAt(es: seq<Event>, k: nat, i: nat) {
    && k < |es| && es[k] == Local(i, AnswerBuilt)
    && var s := Run(Init, es[..k]); i < |s.sessions| && Composing(s.sessions[i])
  }

  predicate HasEndpoint(s: State, i: nat) {
    i < |s.sessions| && s.sessions[i].progress.local.Some?
  }

  lemma CreateSetsLocal(x: Session, reply: CreateReply)
    requires x.run.Creating? ==> x.progress.local.None?
    ensures OnCreate(x, reply).dialog == x.dialog
    ensures OnCreate(x, reply).progress.local.Some? <==>
              x.progress.local.Some? || (x.run.Creating? && reply.Created? && ValidPort(reply.port))
  {
  }

  lemma EndpointStep(s: State, e: Event, i: nat)
    requires Inv(s)
    ensures HasEndpoint(Step(s, e), i) <==> HasEndpoint(s, i) || (BindsPort(e, i) && i < |s.sessions| && s.sessions[i].run.Creating?)
  {
    match e
    case Local(j, a) =>
      if j < |s.sessions| {
        assert SessionInv(s.sessions[j]);
        if a.CreateReplied? { CreateSetsLocal(s.sessions[j], a.reply); }
      }
    case _ =>
  }

  /** In every run a session has its endpoint exactly if a binding reply has come. */
  lemma {:induction false} EndpointIffCreated(es: seq<Event>, i: nat)
    ensures HasEndpoint(Run(Init, es), i) <==> exists k: nat :: CreatedAt(es, k, i)
    decreases |es|
  {
    if es != [] {
      var n := |es| - 1;
      var front := es[..n];
      assert es == front + [es[n]];
      RunSnoc(Init, front, es[n]);
      Reachable(front);
      EndpointStep(Run(Init, front), es[n], i);
      EndpointIffCreated(front, i);
      PrefixCreates(es, n, i);
      assert CreatedAt(es, n, i) <==> BindsPort(es[n], i) && i < |Run(Init, front).sessions| && Run(Init, front).sessions[i].run.Creating?;
    }
  }

  lemma PrefixCreates(es: seq<Event>, n: nat, i: nat)
    requires n <= |es|
    ensures (exists k: nat :: CreatedAt(es[..n], k, i)) <==> exists k: nat :: k < n && CreatedAt(es, k, i)
  {
    forall k: nat | k < n ensures CreatedAt(es[..n], k, i) <==> CreatedAt(es, k, i) { assert es[..n][..k] == es[..k]; }
  }

  lemma ComposedStep(s: State, e: Event, i: nat)
    requires Inv(s) && i < |Step(s, e).sessions| && Answered(Step(s, e).sessions[i])
    ensures i < |s.sessions| && (Answered(s.sessions[i]) || (Composing(s.sessions[i]) && e == Local(i, AnswerBuilt)))
  {
    match e
    case Local(j, a) =>
      if j < |s.sessions| {
        assert SessionInv(s.sessions[j]);
        if a.CreateReplied? { CreateSetsLocal(s.sessions[j], a.reply); }
      }
    case _ =>
  }

  /** Every composed answer was composed at some event of the run. */
  lemma {:induction false} ComposedSince(es: seq<Event>, i: nat, endpoint: bool) returns (k: nat)
    requires Composed(Run(Init, es), i, endpoint)
    ensures BuiltAt(es, k, i)
    decreases |es|
  {
    var n := |es| - 1;
    var front := es[..n];
    assert es == front + [es[n]];
    RunSnoc(Init, front, es[n]);
    Reachable(front);
    var s := Run(Init, front);
    ComposedStep(s, es[n], i);
    if Answered(s.sessions[i]) {
      k := ComposedSince(front, i, s.sessions[i].dialog.value.endpoint);
      assert front[..k] == es[..k];
    } else {
      k := n;
    }
  }

  lemma {:induction false} RunSplit(s: State, es: seq<Event>, k: nat)
    requires k <= |es|
    ensures Run(s, es) == Run(Run(s, es[..k]), es[k..])
    decreases k
  {
    if k > 0 {
      RunSplit(Step(s, es[0]), es[1..], k - 1);
      assert es[..k][1..] == es[1..][..k - 1] && es[1..][k - 1..] == es[k..];
    }
  }

  /**
    * The INVITE handler does not wait for `session.local`. In every run, a composed answer names the bound endpoint if
    * and only if a binding reply to audio/create came before the event that composed it.
    */
  lemma AnswerCarriesEndpointIff(es: seq<Event>, i: nat, endpoint: bool) returns (k: nat)
    requires Composed(Run(Init, es), i, endpoint)
    ensures BuiltAt(es, k, i) && (endpoint <==> exists c: nat :: c < k && CreatedAt(es, c, i))
  {
    k := ComposedSince(es, i, endpoint);
    var s := Run(Init, es[..k]);
    var bound := s.sessions[i].progress.local.Some?;
    EndpointIffCreated(es[..k], i);
    PrefixCreates(es, k, i);
    ComposedSurvives(Step(s, es[k]), es[k..][1..], i, bound);
    RunSplit(Init, es, k);
  }

  // ---------------------------------------------------------------------------------------------
  // When an INVITE is safe
  // ---------------------------------------------------------------------------------------------

  /** The handler will accept an INVITE of this device for session `i`. */
  predicate Invitable(s: State, device: DeviceId, i: nat) {
    && device in s.broadcasts && s.broadcasts[device] == i < |s.sessions|
    && s.sessions[i].cancelled.None? && s.sessions[i].dialog.None?
  }

  /** The dialog's answer is not composed yet, or names the endpoint. */
  predicate NamesEndpoint(s: State, i: nat) {
    && i < |s.sessions| && s.sessions[i].dialog.Some?
    && (!s.sessions[i].dialog.value.answer.Building? ==> s.sessions[i].dialog.value.endpoint)
  }

  lemma NamesEndpointStep(s: State, e: Event, i: nat)
    requires Inv(s) && HasEndpoint(s, i) && NamesEndpoint(s, i)
    ensures HasEndpoint(Step(s, e), i) && NamesEndpoint(Step(s, e), i)
  {
    assert SessionInv(s.sessions[i]);
  }

  lemma {:induction false} NamesEndpointAlways(s: State, es: seq<Event>, i: nat)
    requires Inv(s) && HasEndpoint(s, i) && NamesEndpoint(s, i)
    ensures NamesEndpoint(Run(s, es), i)
    decreases |es|
  {
    if es != [] {
      StepKeepsInv(s, es[0]);
      NamesEndpointStep(s, es[0], i);
      NamesEndpointAlways(Step(s, es[0]), es[1..], i);
    }
  }

  /**
    * An INVITE that is accepted in any reachable state is answered with the endpoint in every continuation if and only
    * if `runBroadcast` has left audio/create by then. The device can tell: the Notify it answers is sent after that.
    */
  lemma InviteIsSafeIff(es: seq<Event>, device: DeviceId, i: nat)
    requires Invitable(Run(Init, es), device, i)
    ensures var s := Run(Init, es); var t := Step(s, Handler(device, Invite(i, true)));
            (forall more :: NamesEndpoint(Run(t, more), i)) <==> !s.sessions[i].run.Creating?
  {
    Reachable(es);
    var s := Run(Init, es);
    var e := Handler(device, Invite(i, true));
    var t := Step(s, e);
    StepKeepsInv(s, e);
    assert SessionInv(s.sessions[i]);
    if s.sessions[i].run.Creating? {
      var more := [Local(i, AnswerBuilt)];
      assert Run(t, more) == Run(Step(t, more[0]), more[1..]);
      assert !NamesEndpoint(Run(t, more), i);
    } else {
      forall more ensures NamesEndpoint(Run(t, more), i) { NamesEndpointAlways(t, more, i); }
    }
  }

  /** The service with this one session. */
  function Solo(x: Session): State {
    State(map[x.device := 0], [x])
  }

  lemma SoloActs(x: Session, a: Action)
    ensures Step(Solo(x), Local(0, a)) == Solo(Act(x, a))
  {
  }

  lemma SoloHandles(x: Session, q: Request)
    ensures Step(Solo(x), Handler(x.device, q)) == Solo(Handle(x, 0, q))
  {
  }

  lemma RunSnoc(s: State, es: seq<Event>, e: Event)
    ensures Run(s, es + [e]) == Step(Run(s, es), e)
    decreases |es|
  {
    if es == [] {
      assert Run(s, [e]) == Run(Step(s, e), [e][1..]);
    } else {
      assert (es + [e])[1..] == es[1..] + [e];
      RunSnoc(Step(s, es[0]), es[1..], e);
    }
  }

  /** An INVITE that arrives before audio/create has replied, and the setup that follows it. */
  function EarlyInvite(device: DeviceId, k: nat): seq<Event>
    requires k <= 15
  {
    if k == 0 then [] else EarlyInvite(device, k - 1) + [EarlyInviteEvent(device, k - 1)]
  }

  function EarlyInviteEvent(device: DeviceId, k: nat): Event
    requires k < 15
  {
    if k == 0 then Install(device)
    else if k == 1 then Handler(device, Invite(0, true))
    else if k == 2 then Local(0, AnswerBuilt)
    else if k == 3 then Local(0, AnswerFinished(false))
    else if k == 4 then Handler(device, Ack(true))
    else if k == 5 then Local(0, CreateReplied(Created(40000)))
    else if k == 6 then Local(0, NotifyReplied(true))
    else if k == 7 then Handler(device, Response(0, true))
    else if k == 8 then Local(0, BusinessTaken)
    else if k == 9 then Local(0, InvitedTaken)
    else if k == 10 then Local(0, AckedTaken)
    else if k == 11 then Local(0, AnsweredTaken)
    else if k == 12 then Local(0, ConfigureReplied(true))
    else if k == 13 then Local(0, ResultSent)
    else Local(0, ResultReceived(false))
  }

  /** The session after `k` of those events. */
  function EarlyInviteSession(device: DeviceId, k: nat): Session
    requires 1 <= k <= 15
  {
    Session(
      device,
      Progress(if k >= 6 then Some(40000) else None, k >= 9, if k < 9 then 0 else if k < 12 then k - 8 else 4, k >= 13),
      false, None, if k == 8 then Some(true) else None,
      if k == 1 then None else
        Some(Dialog(if k == 2 then Building else if k == 3 then Responding else Finished, k >= 4, false, false,
                    5 <= k < 11, k >= 5, true, false)),
      2 <= k < 10, if k == 14 then Some(true) else None, false, false,
      if k < 6 then Creating else if k == 6 then Notifying
      else if k < 9 then Waiting(true, true, false, false) else if k == 9 then Waiting(false, true, false, false)
      else if k == 10 then Waiting(false, false, true, true) else if k == 11 then Waiting(false, false, false, true)
      else if k == 12 then Configuring else if k == 13 then Publishing(true) else Draining(true),
      if k == 15 then ReturnedTicket else Selecting, false)
  }

  lemma EarlyInviteOpens(device: DeviceId, k: nat)
    requires 1 <= k < 4
    ensures Step(Solo(EarlyInviteSession(device, k)), EarlyInviteEvent(device, k)) == Solo(EarlyInviteSession(device, k + 1))
  {
    var x := EarlyInviteSession(device, k);
    match EarlyInviteEvent(device, k)
    case Local(_, a) => SoloActs(x, a);
    case Handler(_, q) => SoloHandles(x, q);
    case _ =>
  }

  lemma EarlyInviteIsAcked(device: DeviceId, k: nat)
    requires 4 <= k < 8
    ensures Step(Solo(EarlyInviteSession(device, k)), EarlyInviteEvent(device, k)) == Solo(EarlyInviteSession(device, k + 1))
  {
    var x := EarlyInviteSession(device, k);
    match EarlyInviteEvent(device, k)
    case Local(_, a) => SoloActs(x, a);
    case Handler(_, q) => SoloHandles(x, q);
    case _ =>
  }

  lemma EarlyInviteIsSelected(device: DeviceId, k: nat)
    requires 8 <= k < 12
    ensures Step(Solo(EarlyInviteSession(device, k)), EarlyInviteEvent(device, k)) == Solo(EarlyInviteSession(device, k + 1))
  {
    SoloActs(EarlyInviteSession(device, k), EarlyInviteEvent(device, k).action);
  }

  lemma EarlyInviteCompletes(device: DeviceId, k: nat)
    requires 12 <= k < 15
    ensures Step(Solo(EarlyInviteSession(device, k)), EarlyInviteEvent(device, k)) == Solo(EarlyInviteSession(device, k + 1))
  {
    SoloActs(EarlyInviteSession(device, k), EarlyInviteEvent(device, k).action);
  }

  lemma {:induction false} EarlyInviteRuns(device: DeviceId, k: nat)
    requires 1 <= k <= 15
    ensures Run(Init, EarlyInvite(device, k)) == Solo(EarlyInviteSession(device, k))
  {
    RunSnoc(Init, EarlyInvite(device, k - 1), EarlyInviteEvent(device, k - 1));
    if k > 1 {
      EarlyInviteRuns(device, k - 1);
      if k <= 4 { EarlyInviteOpens(device, k - 1); } else if k <= 8 { EarlyInviteIsAcked(device, k - 1); }
      else if k <= 12 { EarlyInviteIsSelected(device, k - 1); } else { EarlyInviteCompletes(device, k - 1); }
    }
  }

  /** That setup returns a ticket although its SDP answer named no endpoint. */
  lemma EarlyInviteIsTicketed(device: DeviceId)
    ensures var s := Run(Init, EarlyInvite(device, 15));
            |s.sessions| == 1 && s.sessions[0].caller.ReturnedTicket? && Composed(s, 0, false)
  {
    EarlyInviteRuns(device, 15);
  }
}
