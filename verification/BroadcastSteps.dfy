/**
  * How many steps a broadcast takes: bounds that hold for every interleaving, so that no fair scheduler can keep a
  * session of signaling/gb_broadcast.go busy for ever.
  */
module BroadcastSteps {
  import opened Options
  import opened Broadcast
  import opened BroadcastRuns

  /** Steps of the goroutines that belong to session `i`, its removal included. */
  predicate Own(e: Event, i: nat) {
    (e.Local? || e.Remove?) && e.i == i
  }

  /** Such a step that does something. */
  predicate OwnStep(s: State, e: Event, i: nat) {
    Own(e, i) && i < |s.sessions| && i < |Step(s, e).sessions| && Step(s, e).sessions[i] != s.sessions[i]
  }

  /** A step of the setup of session `i`. */
  predicate SetupStep(s: State, e: Event, i: nat) {
    && i < |s.sessions| && i < |Step(s, e).sessions|
    && SetupLeft(s.sessions[i].run) > 0 && Step(s, e).sessions[i].run != s.sessions[i].run
  }

  function OwnSteps(es: seq<Event>, i: nat): nat
    decreases |es|
  {
    if es == [] then 0
    else OwnSteps(es[..|es| - 1], i) + (if OwnStep(Run(Init, es[..|es| - 1]), es[|es| - 1], i) then 1 else 0)
  }

  function SetupSteps(es: seq<Event>, i: nat): nat
    decreases |es|
  {
    if es == [] then 0
    else SetupSteps(es[..|es| - 1], i) + (if SetupStep(Run(Init, es[..|es| - 1]), es[|es| - 1], i) then 1 else 0)
  }

  /** No event raises what a session has left, and each effective step of its own lowers it. */
  lemma StepSpends(s: State, e: Event, i: nat)
    requires Inv(s) && i < |s.sessions|
    ensures i < |Step(s, e).sessions|
    ensures StepsLeft(Step(s, e).sessions[i]) <= StepsLeft(s.sessions[i])
    ensures OwnStep(s, e, i) ==> StepsLeft(Step(s, e).sessions[i]) < StepsLeft(s.sessions[i])
  {
    assert SessionInv(s.sessions[i]);
  }

  /** No event raises what a setup needs; whatever moves it takes it one step on or fails it. */
  lemma SetupStepGoesOn(s: State, e: Event, i: nat)
    requires Inv(s) && i < |s.sessions|
    ensures i < |Step(s, e).sessions| && SetupGoesOn(s.sessions[i], Step(s, e).sessions[i])
    ensures Step(s, e).sessions[i].progress.configured ==>
              s.sessions[i].progress.configured || (s.sessions[i].run.Configuring? && Step(s, e).sessions[i].run == Publishing(true))
  {
    assert SessionInv(s.sessions[i]);
  }

  lemma InstalledIsNew(s: State, e: Event, i: nat)
    requires i >= |s.sessions| && i < |Step(s, e).sessions|
    ensures e.Install? && Step(s, e).sessions[i] == NewSession(e.device)
  {
  }

  /** In every run the goroutines of one session take at most nineteen effective steps. */
  lemma {:induction false} SessionStepsAreBounded(es: seq<Event>, i: nat)
    ensures var s := Run(Init, es);
            if i < |s.sessions| then OwnSteps(es, i) + StepsLeft(s.sessions[i]) <= 19 else OwnSteps(es, i) == 0
    decreases |es|
  {
    if es != [] {
      var n := |es| - 1;
      var front := es[..n];
      assert es == front + [es[n]];
      RunSnoc(Init, front, es[n]);
      SessionStepsAreBounded(front, i);
      Reachable(front);
      var s := Run(Init, front);
      if i < |s.sessions| { StepSpends(s, es[n], i); } else if i < |Step(s, es[n]).sessions| { InstalledIsNew(s, es[n], i); }
    }
  }

  /** How far a setup is after `n` of its steps. */
  predicate SetupAccount(x: Session, n: nat) {
    && n + SetupLeft(x.run) <= 7
    && (SetupLeft(x.run) > 0 ==> n + SetupLeft(x.run) == 7)
    && (x.progress.configured ==> n == 7)
  }

  /**
    * In every run a setup takes at most seven steps, knows how many are still to come, and has taken all seven when the
    * peer is configured.
    */
  lemma {:induction false} SetupTakesSevenSteps(es: seq<Event>, i: nat)
    ensures var s := Run(Init, es);
            if i < |s.sessions| then SetupAccount(s.sessions[i], SetupSteps(es, i)) else SetupSteps(es, i) == 0
    decreases |es|
  {
    if es != [] {
      var n := |es| - 1;
      var front := es[..n];
      assert es == front + [es[n]];
      RunSnoc(Init, front, es[n]);
      SetupTakesSevenSteps(front, i);
      Reachable(front);
      var s := Run(Init, front);
      if i < |s.sessions| { SetupStepGoesOn(s, es[n], i); } else if i < |Step(s, es[n]).sessions| { InstalledIsNew(s, es[n], i); }
    }
  }

  /** A ticket is the reward of exactly seven. */
  lemma TicketTookSevenSteps(es: seq<Event>, i: nat)
    requires i < |Run(Init, es).sessions| && Run(Init, es).sessions[i].caller.ReturnedTicket?
    ensures SetupSteps(es, i) == 7
  {
    SetupTakesSevenSteps(es, i);
    Reachable(es);
    assert SessionInv(Run(Init, es).sessions[i]);
  }

  // ---------------------------------------------------------------------------------------------
  // A cancelled session is never stuck
  // ---------------------------------------------------------------------------------------------

  /** The step that brings a cancelled session nearer to its end. */
  function NextStep(x: Session): Action {
    match x.run
    case Creating => CreateReplied(Failed)
    case Notifying => NotifyReplied(false)
    case Waiting(_, _, _, _) => SetupExpires
    case Configuring => ConfigureReplied(false)
    case Publishing(_) => ResultSent
    case Draining(_) => CancelSeen
    case Deleting => DeleteReplied(false)
    case ReadingDialog => DialogRead
    case AwaitingAnswer => if x.dialog.None? || x.dialog.value.answerDone then AnswerSeen else if Composing(x) then AnswerBuilt else AnswerFinished(true)
    case _ => if x.dialog.None? || x.dialog.value.ackDone then AckLoopSeen else AckLoopEnds
  }

  lemma NextStepActs(x: Session)
    requires SessionInv(x) && x.cancelled.Some? && !x.run.Removing? && !x.run.Ended?
    ensures Act(x, NextStep(x)) != x
  {
  }

  /**
    * In every reachable state a cancelled session that is still listed has an effective step of its own. With the bound
    * above, every run in which its goroutines go on stepping removes it.
    */
  lemma CancelledSessionHasStep(es: seq<Event>, i: nat) returns (e: Event)
    requires i < |Run(Init, es).sessions|
    requires Run(Init, es).sessions[i].cancelled.Some? && !Run(Init, es).sessions[i].run.Ended?
    ensures OwnStep(Run(Init, es), e, i)
  {
    Reachable(es);
    var x := Run(Init, es).sessions[i];
    assert SessionInv(x);
    if x.run.Removing? {
      e := Remove(i);
    } else {
      e := Local(i, NextStep(x));
      NextStepActs(x);
    }
  }
}
