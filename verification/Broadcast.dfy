/**
  * The audio broadcast protocol of signaling/gb_broadcast.go as a transition system.
  *
  * Goroutines share `liveService.mu`; every critical section, channel operation and remote reply is one
  * event. `Step` is total: an event whose goroutine is not at that point, or whose guard the handler
  * rejects, changes nothing, so a run is an arbitrary sequence of events. What Go would punish at run time
  * (a send that blocks, a second close, a write to `cleanupErr` after `done`) raises the session's `fault`.
  */
module Broadcast {
  import opened Options

  type DeviceId = string

  /** First cancellation wins, as with `context.WithCancelCause`. */
  datatype Cause = SetupFailed | DeviceRejected | RemoteBye | Stopped | DeviceOffline | CallerGone

  datatype AnswerPhase = Building | Responding | Finished

  /** `broadcastDialog`: the accepted INVITE, its answering handler and its ACK loop. */
  datatype Dialog = Dialog(
    answer: AnswerPhase,     // the INVITE handler's own position
    answerDone: bool,        // channel closed
    answerErr: bool,
    endpoint: bool,          // the SDP answer carried the bound RTP endpoint
    ackSlot: bool,           // `acked`, one slot
    ackRead: bool,           // some ACK was accepted
    ackLoop: bool,           // the ACK goroutine is alive
    ackDone: bool)           // channel closed

  /** Where `runBroadcast` stands. `Waiting` holds the four channel variables of `prepareBroadcast`. */
  datatype Runner =
    | Creating
    | Notifying
    | Waiting(business: bool, invited: bool, acked: bool, answered: bool)
    | Configuring
    | Publishing(ok: bool)
    | Draining(ok: bool)
    | Deleting
    | ReadingDialog
    | AwaitingAnswer
    | AwaitingAckLoop
    | Removing
    | Ended

  /** Where the `startBroadcast` call that installed the session stands. */
  datatype Caller = Selecting | AwaitingDone | ReturnedTicket | ReturnedError

  /** What the setup has achieved so far. */
  datatype Progress = Progress(
    local: Option<nat>,          // session.local, with the port bound by audio/create
    businessOk: bool,            // a nil business error was consumed
    rounds: nat,                 // productive iterations of the select loop
    configured: bool)

  datatype Session = Session(
    device: DeviceId,
    progress: Progress,
    createRejected: bool,        // the media server answered with a rejection
    cancelled: Option<Cause>,
    business: Option<bool>,      // one-slot channel: was the device's result OK
    dialog: Option<Dialog>,
    invited: bool,               // one-slot channel holds the dialog
    result: Option<bool>,        // one-slot channel: err == nil
    done: bool,                  // channel closed
    cleanupFailed: bool,
    run: Runner,
    caller: Caller,
    fault: bool)

  function NewSession(device: DeviceId): Session {
    Session(device, Progress(None, false, 0, false), false, None, None, None, false, None, false, false, Creating, Selecting, false)
  }

  // ---------------------------------------------------------------------------------------------
  // What every reachable session satisfies
  // ---------------------------------------------------------------------------------------------

  predicate ValidPort(port: nat) {
    port != 0 && port % 2 == 0
  }

  predicate Bound(p: Progress) {
    p.local.Some? && ValidPort(p.local.value)
  }

  /** How much of the select loop is left: an INVITE still brings two more channels to wait for. */
  function Remaining(w: Runner): nat
    requires w.Waiting?
  {
    (if w.business then 1 else 0) + (if w.invited then 3 else (if w.acked then 1 else 0) + (if w.answered then 1 else 0))
  }

  /** One INVITE accepted, answered without error and acknowledged, after an OK business response. */
  predicate Established(p: Progress, dialog: Option<Dialog>) {
    && Bound(p) && p.businessOk && p.rounds == 4
    && dialog.Some? && dialog.value.answerDone && !dialog.value.answerErr && dialog.value.ackRead
  }

  predicate DialogInv(d: Dialog) {
    && (d.answerDone <==> d.answer.Finished?)
    && (d.ackDone <==> !d.ackLoop)
    && (d.ackSlot ==> d.ackRead)
  }

  predicate SelectInv(w: Runner, p: Progress, dialog: Option<Dialog>)
    requires w.Waiting?
  {
    && Bound(p)
    && w != Waiting(false, false, false, false)
    && p.rounds + Remaining(w) == 4
    && (!w.business ==> p.businessOk)
    && (w.invited ==> !w.acked && !w.answered)
    && (!w.invited ==>
          && dialog.Some?
          && (!w.acked ==> dialog.value.ackRead)
          && (!w.answered ==> dialog.value.answerDone && !dialog.value.answerErr))
  }

  /** What the position of `runBroadcast` says about the setup and the dialog. */
  predicate RunnerInv(r: Runner, p: Progress, dialog: Option<Dialog>) {
    match r
    case Creating => p.rounds == 0 && p.local.None?
    case Notifying => p.rounds == 0 && Bound(p)
    case Waiting(_, _, _, _) => SelectInv(r, p, dialog)
    case Configuring => Established(p, dialog)
    case Publishing(ok) => ok ==> Established(p, dialog) && p.configured
    case Draining(ok) => ok ==> Established(p, dialog) && p.configured
    case AwaitingAnswer => dialog.Some?
    case AwaitingAckLoop => dialog.Some? && dialog.value.answerDone
    case Removing => DialogClosed(dialog)
    case Ended => DialogClosed(dialog)
    case _ => true
  }

  predicate DialogClosed(dialog: Option<Dialog>) {
    dialog.Some? ==> dialog.value.answerDone && dialog.value.ackDone
  }

  predicate Unpublished(r: Runner) {
    r.Creating? || r.Notifying? || r.Waiting? || r.Configuring? || r.Publishing?
  }

  /** A failed setup has cancelled its session, and cleanup runs only after cancellation. */
  predicate NeedsCancel(r: Runner) {
    !(r.Creating? || r.Notifying? || r.Waiting? || r.Configuring? || r == Publishing(true) || r == Draining(true))
  }

  predicate SessionInv(x: Session) {
    && !x.fault
    && (x.done <==> x.run.Ended?)
    && (x.dialog.None? ==> !x.invited)
    && (x.dialog.Some? ==> DialogInv(x.dialog.value))
    && RunnerInv(x.run, x.progress, x.dialog)
    && (NeedsCancel(x.run) || x.caller.AwaitingDone? ==> x.cancelled.Some?)
    && (Unpublished(x.run) ==> x.result.None?)
    && (x.result == Some(true) || x.caller.ReturnedTicket? ==> Established(x.progress, x.dialog) && x.progress.configured)
    && (x.caller.ReturnedError? ==> x.done)
    && x.progress.rounds <= 4
    && (x.cleanupFailed ==> RunnerLeft(x.run) <= 4)
  }

  /** What a step of one session promises: it keeps a sound session sound, alive or ended as it was. */
  predicate Keeps(x: Session, r: Session) {
    && (SessionInv(x) ==> SessionInv(r))
    && r.device == x.device
    && r.run.Ended? == x.run.Ended?
    && (x.cancelled.Some? ==> r.cancelled == x.cancelled)
    && (SessionInv(x) && x.progress.local.Some? ==> r.progress.local == x.progress.local)
    && (x.dialog.Some? ==> r.dialog.Some? && DialogKeeps(x.dialog.value, r.dialog.value, x.progress.local.Some?))
    && (SessionInv(x) && x.done ==> r.cleanupFailed == x.cleanupFailed)
    && (SessionInv(x) && x.cleanupFailed ==> r.cleanupFailed)
  }

  /** An SDP answer names the endpoint if it is bound when the answer is composed, and stays as it was composed. */
  predicate DialogKeeps(d: Dialog, r: Dialog, bound: bool) {
    && (!d.answer.Building? ==> !r.answer.Building? && r.endpoint == d.endpoint)
    && (d.answer.Building? && !r.answer.Building? ==> r.endpoint == bound)
  }

  predicate Composing(x: Session) {
    x.dialog.Some? && x.dialog.value.answer.Building?
  }

  predicate Answered(x: Session) {
    x.dialog.Some? && !x.dialog.value.answer.Building?
  }

  /** Neither `session.local` nor the composition of the answer is touched. */
  predicate SameAnswer(x: Session, r: Session) {
    r.progress.local == x.progress.local && Composing(r) == Composing(x) && Answered(r) == Answered(x)
  }

  /** The setup has failed: the session is cancelled and a failure will be published. */
  predicate Failing(x: Session) {
    x.run == Publishing(false) && x.cancelled.Some?
  }

  /** Steps that a setup still needs: create, notify, four iterations of the select loop, configure. */
  function SetupLeft(r: Runner): nat {
    match r
    case Creating => 7
    case Notifying => 6
    case Waiting(_, _, _, _) => 1 + Remaining(r)
    case Configuring => 1
    case _ => 0
  }

  /** Steps that `runBroadcast` has left at most. */
  function RunnerLeft(r: Runner): nat {
    match r
    case Publishing(_) => 7
    case Draining(_) => 6
    case Deleting => 5
    case ReadingDialog => 4
    case AwaitingAnswer => 3
    case AwaitingAckLoop => 2
    case Removing => 1
    case Ended => 0
    case _ => 7 + SetupLeft(r)
  }

  /** Steps that the INVITE handler and its ACK loop have left, or would have if an INVITE still came. */
  function DialogLeft(dialog: Option<Dialog>): nat {
    match dialog
    case None => 3
    case Some(d) => (if d.answer.Building? then 2 else if d.answer.Responding? then 1 else 0) + (if d.ackLoop then 1 else 0)
  }

  function CallerLeft(c: Caller): nat {
    if c.Selecting? then 2 else if c.AwaitingDone? then 1 else 0
  }

  /** Steps that the goroutines of a session have left at most. */
  function StepsLeft(x: Session): nat {
    RunnerLeft(x.run) + DialogLeft(x.dialog) + CallerLeft(x.caller)
  }

  /** The setup stands where it stood, goes one step on, or fails. */
  predicate SetupGoesOn(x: Session, r: Session) {
    r.run == x.run || (SetupLeft(x.run) == 0 && SetupLeft(r.run) == 0) || Failing(r) || SetupLeft(r.run) + 1 == SetupLeft(x.run)
  }

  /** A step of a session's own goroutines: if it does anything, fewer are left. */
  predicate Spends(x: Session, r: Session) {
    && (r == x || StepsLeft(r) < StepsLeft(x))
    && SetupGoesOn(x, r)
    && (r.progress.configured ==> x.progress.configured || (x.run.Configuring? && r.run == Publishing(true)))
  }

  /** A step of a handler leaves the goroutines what they had left. */
  predicate Spares(x: Session, r: Session) {
    StepsLeft(r) == StepsLeft(x) && r.run == x.run && r.progress.configured == x.progress.configured
  }

  // ---------------------------------------------------------------------------------------------
  // Steps of one session
  // ---------------------------------------------------------------------------------------------

  datatype CreateReply = Created(port: nat) | Rejected | Failed

  function Cancelled(x: Session, cause: Cause): Session {
    x.(cancelled := FirstCause(x.cancelled, cause))
  }

  function FirstCause(c: Option<Cause>, cause: Cause): Option<Cause> {
    if c.None? then Some(cause) else c
  }

  /** `if err != nil { session.cancel(err) }`, after which the failed result is sent. */
  function SetupFails(x: Session): (r: Session)
    ensures Unpublished(x.run) ==> Keeps(x, r)
    ensures SameAnswer(x, r)
  {
    x.(cancelled := FirstCause(x.cancelled, SetupFailed), run := Publishing(false))
  }

  function PortBound(x: Session, port: nat): (r: Session)
    requires x.run.Creating? && ValidPort(port)
    ensures Keeps(x, r)
    ensures SessionInv(x) ==> Spends(x, r)
  {
    x.(progress := x.progress.(local := Some(port)), run := Notifying)
  }

  function CreateFails(x: Session, rejected: bool): (r: Session)
    requires x.run.Creating?
    ensures Keeps(x, r)
    ensures SessionInv(x) ==> Spends(x, r)
  {
    x.(createRejected := x.createRejected || rejected, cancelled := FirstCause(x.cancelled, SetupFailed), run := Publishing(false))
  }

  function OnCreate(x: Session, reply: CreateReply): (r: Session)
    ensures Keeps(x, r)
    ensures x.run.Creating? ==> if reply.Created? && ValidPort(reply.port) then r.run.Notifying? && r.progress.local == Some(reply.port) else Failing(r)
    ensures r.dialog == x.dialog
    ensures SessionInv(x) ==> Spends(x, r)
  {
    if !x.run.Creating? then x
    else if reply.Created? && ValidPort(reply.port) then PortBound(x, reply.port)
    else CreateFails(x, reply.Rejected?)
  }

  function OnNotify(x: Session, ok: bool): (r: Session)
    ensures Keeps(x, r)
    ensures x.run.Notifying? ==> if ok then r.run == Waiting(true, true, false, false) else Failing(r)
    ensures SameAnswer(x, r)
    ensures SessionInv(x) ==> Spends(x, r)
  {
    if !x.run.Notifying? then x
    else if ok then x.(run := Waiting(true, true, false, false)) else SetupFails(x)
  }

  /** One productive iteration: the select loop ends when all four channel variables are nil. */
  function Selected(x: Session, w: Runner): Session
    requires w.Waiting?
  {
    x.(run := if w == Waiting(false, false, false, false) then Configuring else w, progress := x.progress.(rounds := x.progress.rounds + 1))
  }

  function BusinessAccepted(x: Session): (r: Session)
    requires x.run.Waiting? && x.run.business
    ensures Keeps(x, r)
    ensures r.business.None? && !Failing(r)
    ensures SameAnswer(x, r)
    ensures SessionInv(x) ==> Spends(x, r)
  {
    Selected(x.(business := None, progress := x.progress.(businessOk := true)), x.run.(business := false))
  }

  function BusinessRejected(x: Session): (r: Session)
    requires x.run.Waiting?
    ensures Keeps(x, r)
    ensures r.business.None? && Failing(r)
    ensures SameAnswer(x, r)
    ensures SessionInv(x) ==> Spends(x, r)
  {
    x.(business := None, cancelled := FirstCause(x.cancelled, SetupFailed), run := Publishing(false))
  }

  function TakeBusiness(x: Session): (r: Session)
    ensures Keeps(x, r)
    ensures x.run.Waiting? && x.run.business && x.business.Some? ==> r.business.None? && (Failing(r) <==> !x.business.value)
    ensures SameAnswer(x, r)
    ensures SessionInv(x) ==> Spends(x, r)
  {
    if !(x.run.Waiting? && x.run.business && x.business.Some?) then x
    else if x.business.value then BusinessAccepted(x) else BusinessRejected(x)
  }

  function TakeInvited(x: Session): (r: Session)
    ensures Keeps(x, r)
    ensures x.run.Waiting? && x.run.invited && x.invited ==> !r.invited && r.run.Waiting? && r.run.acked && r.run.answered
    ensures SameAnswer(x, r)
    ensures SessionInv(x) ==> Spends(x, r)
  {
    if !(x.run.Waiting? && x.run.invited && x.invited) then x
    else Selected(x.(invited := false), x.run.(invited := false, acked := true, answered := true))
  }

  function AckAccepted(x: Session): (r: Session)
    requires x.run.Waiting? && x.run.acked && x.dialog.Some? && x.dialog.value.ackSlot
    ensures Keeps(x, r)
    ensures r.dialog.Some? && !r.dialog.value.ackSlot && !Failing(r)
    ensures SameAnswer(x, r)
    ensures SessionInv(x) ==> Spends(x, r)
  {
    Selected(x.(dialog := Some(x.dialog.value.(ackSlot := false))), x.run.(acked := false))
  }

  function TakeAcked(x: Session): (r: Session)
    ensures Keeps(x, r)
    ensures x.run.Waiting? && x.run.acked && x.dialog.Some? && x.dialog.value.ackSlot ==> r.dialog.Some? && !r.dialog.value.ackSlot
    ensures SameAnswer(x, r)
    ensures SessionInv(x) ==> Spends(x, r)
  {
    if !(x.run.Waiting? && x.run.acked && x.dialog.Some? && x.dialog.value.ackSlot) then x
    else AckAccepted(x)
  }

  function AnswerAccepted(x: Session): (r: Session)
    requires x.run.Waiting? && x.run.answered && x.dialog.Some? && x.dialog.value.answerDone && !x.dialog.value.answerErr
    ensures Keeps(x, r)
    ensures !Failing(r)
    ensures SameAnswer(x, r)
    ensures SessionInv(x) ==> Spends(x, r)
  {
    Selected(x, x.run.(answered := false))
  }

  function TakeAnswered(x: Session): (r: Session)
    ensures Keeps(x, r)
    ensures x.run.Waiting? && x.run.answered && x.dialog.Some? && x.dialog.value.answerDone ==> (Failing(r) <==> x.dialog.value.answerErr)
    ensures SameAnswer(x, r)
    ensures SessionInv(x) ==> Spends(x, r)
  {
    if !(x.run.Waiting? && x.run.answered && x.dialog.Some? && x.dialog.value.answerDone) then x
    else if x.dialog.value.answerErr then SetupFails(x)
    else AnswerAccepted(x)
  }

  /** The setup context ends the select loop: its timeout, or the session's own cancellation. */
  function OnSetupExpired(x: Session): (r: Session)
    ensures Keeps(x, r)
    ensures x.run.Waiting? ==> Failing(r)
    ensures SameAnswer(x, r)
    ensures SessionInv(x) ==> Spends(x, r)
  {
    if x.run.Waiting? then SetupFails(x) else x
  }

  function OnConfigure(x: Session, ok: bool): (r: Session)
    ensures Keeps(x, r)
    ensures x.run.Configuring? ==> if ok then r.run == Publishing(true) && r.progress.configured else Failing(r)
    ensures SameAnswer(x, r)
    ensures SessionInv(x) ==> Spends(x, r)
  {
    if !x.run.Configuring? then x
    else if ok then x.(progress := x.progress.(configured := true), run := Publishing(true)) else SetupFails(x)
  }

  /** `session.result <- ...`: a full channel would block `runBroadcast` for ever. */
  function Publish(x: Session): (r: Session)
    ensures Keeps(x, r)
    ensures SameAnswer(x, r)
    ensures SessionInv(x) ==> Spends(x, r)
  {
    if !x.run.Publishing? then x
    else x.(result := Some(x.run.ok), run := Draining(x.run.ok), fault := x.fault || x.result.Some?)
  }

  function ObserveCancel(x: Session): (r: Session)
    ensures Keeps(x, r)
    ensures SameAnswer(x, r)
    ensures SessionInv(x) ==> Spends(x, r)
  {
    if x.run.Draining? && x.cancelled.Some? then x.(run := if x.createRejected then ReadingDialog else Deleting) else x
  }

  function OnDelete(x: Session, failed: bool): (r: Session)
    ensures Keeps(x, r)
    ensures SameAnswer(x, r)
    ensures SessionInv(x) ==> Spends(x, r)
  {
    if !x.run.Deleting? then x
    else x.(cleanupFailed := failed, run := ReadingDialog, fault := x.fault || x.done)
  }

  function ReadDialog(x: Session): (r: Session)
    ensures Keeps(x, r)
    ensures SameAnswer(x, r)
    ensures SessionInv(x) ==> Spends(x, r)
  {
    if x.run.ReadingDialog? then x.(run := if x.dialog.Some? then AwaitingAnswer else Removing) else x
  }

  function ObserveAnswer(x: Session): (r: Session)
    ensures Keeps(x, r)
    ensures SameAnswer(x, r)
    ensures SessionInv(x) ==> Spends(x, r)
  {
    if x.run.AwaitingAnswer? && x.dialog.Some? && x.dialog.value.answerDone then x.(run := AwaitingAckLoop) else x
  }

  function ObserveAckLoop(x: Session): (r: Session)
    ensures Keeps(x, r)
    ensures SameAnswer(x, r)
    ensures SessionInv(x) ==> Spends(x, r)
  {
    if x.run.AwaitingAckLoop? && x.dialog.Some? && x.dialog.value.ackDone then x.(run := Removing) else x
  }

  /** The `startBroadcast` select picked the result; `gone` says whether its own context had ended. */
  function CallerResult(x: Session, gone: bool): (r: Session)
    ensures Keeps(x, r)
    ensures r.caller.ReturnedTicket? && !x.caller.ReturnedTicket? ==> x.result == Some(true) && !gone && x.cancelled.None?
    ensures x.caller.Selecting? && x.result.Some? && !r.caller.ReturnedTicket? ==> r.caller.AwaitingDone? && r.cancelled.Some?
    ensures SameAnswer(x, r)
    ensures SessionInv(x) ==> Spends(x, r)
  {
    if !(x.caller.Selecting? && x.result.Some?) then x
    else if x.result.value && !gone && x.cancelled.None? then x.(result := None, caller := ReturnedTicket)
    else x.(cancelled := FirstCause(x.cancelled, if gone then CallerGone else SetupFailed), result := None, caller := AwaitingDone)
  }

  function CallerLeaves(x: Session): (r: Session)
    ensures Keeps(x, r)
    ensures SameAnswer(x, r)
    ensures SessionInv(x) ==> Spends(x, r)
  {
    if x.caller.Selecting? then x.(cancelled := FirstCause(x.cancelled, CallerGone), caller := AwaitingDone) else x
  }

  function CallerDone(x: Session): (r: Session)
    ensures Keeps(x, r)
    ensures SameAnswer(x, r)
    ensures SessionInv(x) ==> Spends(x, r)
  {
    if x.caller.AwaitingDone? && x.done then x.(caller := ReturnedError) else x
  }

  /** The INVITE handler reads `session.local` after it has released the mutex. */
  function BuildAnswer(x: Session): (r: Session)
    ensures Keeps(x, r)
    ensures r.progress.local == x.progress.local
    ensures Answered(r) <==> Answered(x) || Composing(x)
    ensures SessionInv(x) ==> Spends(x, r)
  {
    if x.dialog.Some? && x.dialog.value.answer.Building? then
      x.(dialog := Some(x.dialog.value.(answer := Responding, endpoint := x.progress.local.Some?)))
    else x
  }

  function FinishAnswer(x: Session, err: bool): (r: Session)
    ensures Keeps(x, r)
    ensures SameAnswer(x, r)
    ensures SessionInv(x) ==> Spends(x, r)
  {
    if !(x.dialog.Some? && x.dialog.value.answer.Responding?) then x
    else
      var d := x.dialog.value;
      x.(dialog := Some(d.(answer := Finished, answerDone := true, answerErr := err)), fault := x.fault || d.answerDone)
  }

  function AckLoopExits(x: Session): (r: Session)
    ensures Keeps(x, r)
    ensures SameAnswer(x, r)
    ensures SessionInv(x) ==> Spends(x, r)
  {
    if !(x.dialog.Some? && x.dialog.value.ackLoop) then x
    else
      var d := x.dialog.value;
      x.(dialog := Some(d.(ackLoop := false, ackDone := true)), fault := x.fault || d.ackDone)
  }

  function ResponseRecorded(x: Session, ok: bool): (r: Session)
    requires x.cancelled.None?
    ensures Keeps(x, r)
    ensures SameAnswer(x, r)
    ensures Spares(x, r)
  {
    x.(cancelled := if ok then None else Some(DeviceRejected), business := if x.business.None? then Some(ok) else x.business)
  }

  /** `handleBroadcastResponse`, once the session matched: the send on `business` never blocks by itself. */
  function OnResponse(x: Session, ok: bool): (r: Session)
    ensures Keeps(x, r)
    ensures x.cancelled.None? ==> r.business.Some? && r.cancelled == (if ok then None else Some(DeviceRejected))
    ensures SameAnswer(x, r)
    ensures Spares(x, r)
  {
    if x.cancelled.Some? then x else ResponseRecorded(x, ok)
  }

  /** `handleBroadcastInvite`, once the session matched: the send on `invited` is made under the mutex. */
  function OnInvite(x: Session, offerOk: bool): (r: Session)
    ensures Keeps(x, r)
    ensures r.progress.local == x.progress.local && Answered(r) == Answered(x)
    ensures Spares(x, r)
  {
    if x.cancelled.Some? || x.dialog.Some? || !offerOk then x
    else
      x.(dialog := Some(Dialog(Building, false, false, false, false, false, true, false)), invited := true, fault := x.fault || x.invited)
  }

  function AckRecorded(x: Session): (r: Session)
    requires x.dialog.Some?
    ensures Keeps(x, r)
    ensures SameAnswer(x, r)
    ensures Spares(x, r)
  {
    x.(dialog := Some(x.dialog.value.(ackSlot := true, ackRead := true)))
  }

  function OnAck(x: Session, accepted: bool): (r: Session)
    ensures Keeps(x, r)
    ensures x.dialog.Some? && accepted ==> r.dialog.value.ackSlot && r.dialog.value.ackRead
    ensures x.dialog.None? || !accepted ==> r == x
    ensures SameAnswer(x, r)
    ensures Spares(x, r)
  {
    if x.dialog.Some? && accepted then AckRecorded(x) else x
  }

  function OnCancel(x: Session, cause: Cause): (r: Session)
    ensures Keeps(x, r) && r.cancelled.Some?
    ensures SameAnswer(x, r)
    ensures Spares(x, r)
  {
    Cancelled(x, cause)
  }

  function OnBye(x: Session): (r: Session)
    ensures Keeps(x, r)
    ensures if x.dialog.None? then r == x else r.cancelled.Some? && (x.cancelled.None? ==> r.cancelled == Some(RemoteBye))
    ensures SameAnswer(x, r)
    ensures Spares(x, r)
  {
    if x.dialog.Some? then Cancelled(x, RemoteBye) else x
  }

  // ---------------------------------------------------------------------------------------------
  // The whole service
  // ---------------------------------------------------------------------------------------------

  /** Steps of the goroutines that hold a session. */
  datatype Action =
    | CreateReplied(reply: CreateReply) | NotifyReplied(ok: bool)
    | BusinessTaken | InvitedTaken | AckedTaken | AnsweredTaken | SetupExpires | ConfigureReplied(ok: bool)
    | ResultSent | CancelSeen | DeleteReplied(failed: bool) | DialogRead | AnswerSeen | AckLoopSeen
    | ResultReceived(gone: bool) | CallerContextEnds | DoneSeen
    | AnswerBuilt | AnswerFinished(err: bool) | AckLoopEnds

  /** Steps of the handlers that look the session up in the device map. */
  datatype Request = Response(sn: nat, ok: bool) | Invite(source: nat, offerOk: bool) | Ack(accepted: bool) | Bye | Cancel(cause: Cause)

  datatype Event = Install(device: DeviceId) | Local(i: nat, action: Action) | Handler(device: DeviceId, request: Request) | Remove(i: nat)

  datatype State = State(broadcasts: map<DeviceId, nat>, sessions: seq<Session>)

  const Init := State(map[], [])

  function Act(x: Session, a: Action): (r: Session)
    ensures Keeps(x, r)
    ensures !a.CreateReplied? && !a.AnswerBuilt? ==> SameAnswer(x, r)
    ensures a.AnswerBuilt? ==> r.progress.local == x.progress.local && (Answered(r) <==> Answered(x) || Composing(x))
    ensures SessionInv(x) ==> Spends(x, r)
  {
    match a
    case CreateReplied(reply) => OnCreate(x, reply)
    case NotifyReplied(ok) => OnNotify(x, ok)
    case BusinessTaken => TakeBusiness(x)
    case InvitedTaken => TakeInvited(x)
    case AckedTaken => TakeAcked(x)
    case AnsweredTaken => TakeAnswered(x)
    case SetupExpires => OnSetupExpired(x)
    case ConfigureReplied(ok) => OnConfigure(x, ok)
    case ResultSent => Publish(x)
    case CancelSeen => ObserveCancel(x)
    case DeleteReplied(failed) => OnDelete(x, failed)
    case DialogRead => ReadDialog(x)
    case AnswerSeen => ObserveAnswer(x)
    case AckLoopSeen => ObserveAckLoop(x)
    case ResultReceived(gone) => CallerResult(x, gone)
    case CallerContextEnds => CallerLeaves(x)
    case DoneSeen => CallerDone(x)
    case AnswerBuilt => BuildAnswer(x)
    case AnswerFinished(err) => FinishAnswer(x, err)
    case AckLoopEnds => AckLoopExits(x)
  }

  /** SN and SourceID are drawn afresh per session; the session's own index stands for both. */
  function Handle(x: Session, i: nat, q: Request): (r: Session)
    ensures Keeps(x, r)
    ensures r.progress.local == x.progress.local && Answered(r) == Answered(x)
    ensures Spares(x, r)
  {
    match q
    case Response(sn, ok) => if sn == i then OnResponse(x, ok) else x
    case Invite(source, offerOk) => if source == i then OnInvite(x, offerOk) else x
    case Ack(accepted) => OnAck(x, accepted)
    case Bye => OnBye(x)
    case Cancel(cause) => OnCancel(x, cause)
  }

  predicate Listed(s: State, i: nat) {
    && i < |s.sessions|
    && s.sessions[i].device in s.broadcasts
    && s.broadcasts[s.sessions[i].device] == i
  }

  function Update(s: State, i: nat, x: Session): State
    requires i < |s.sessions|
  {
    s.(sessions := s.sessions[i := x])
  }

  /** Lines 186-191: the map entry is deleted only if it is this session, then `done` is closed. */
  function Removed(s: State, i: nat): State
    requires i < |s.sessions|
  {
    var x := s.sessions[i];
    State(if Listed(s, i) then s.broadcasts - {x.device} else s.broadcasts,
          s.sessions[i := x.(done := true, run := Ended, fault := x.fault || x.done)])
  }

  function Step(s: State, e: Event): State {
    match e
    case Install(device) =>
      if device in s.broadcasts then s
      else State(s.broadcasts[device := |s.sessions|], s.sessions + [NewSession(device)])
    case Local(i, action) =>
      if i < |s.sessions| then Update(s, i, Act(s.sessions[i], action)) else s
    case Handler(device, request) =>
      if device in s.broadcasts && s.broadcasts[device] < |s.sessions| then
        Update(s, s.broadcasts[device], Handle(s.sessions[s.broadcasts[device]], s.broadcasts[device], request))
      else s
    case Remove(i) =>
      if i < |s.sessions| && s.sessions[i].run.Removing? then Removed(s, i) else s
  }

  function Run(s: State, es: seq<Event>): State
    decreases |es|
  {
    if es == [] then s else Run(Step(s, es[0]), es[1..])
  }

  /** The device map lists exactly the sessions whose `runBroadcast` has not removed them. */
  predicate MapInv(s: State) {
    && (forall d | d in s.broadcasts :: s.broadcasts[d] < |s.sessions| && s.sessions[s.broadcasts[d]].device == d && !s.sessions[s.broadcasts[d]].run.Ended?)
    && (forall i | 0 <= i < |s.sessions| :: !s.sessions[i].run.Ended? ==> Listed(s, i))
  }

  predicate AllSound(s: State) {
    forall i | 0 <= i < |s.sessions| :: SessionInv(s.sessions[i])
  }

  predicate Inv(s: State) {
    MapInv(s) && AllSound(s)
  }

  lemma UpdateKeepsInv(s: State, i: nat, x: Session)
    requires Inv(s) && i < |s.sessions| && Keeps(s.sessions[i], x)
    ensures Inv(Update(s, i, x))
  {
    var t := Update(s, i, x);
    forall k | 0 <= k < |t.sessions| && !t.sessions[k].run.Ended? ensures Listed(t, k) {
      assert Listed(s, k);
    }
  }

  /** The identity check of line 187 always succeeds: a session that removes itself is still the listed one. */
  lemma RemovedKeepsInv(s: State, i: nat)
    requires Inv(s) && i < |s.sessions| && s.sessions[i].run.Removing?
    ensures Listed(s, i)
    ensures Inv(Removed(s, i))
    ensures s.sessions[i].device !in Removed(s, i).broadcasts
  {
    assert Listed(s, i);
    var t := Removed(s, i);
    assert SessionInv(t.sessions[i]);
    forall k | 0 <= k < |t.sessions| && !t.sessions[k].run.Ended? ensures Listed(t, k) {
      assert k != i && Listed(s, k);
    }
  }

  lemma InstalledKeepsInv(s: State, device: DeviceId)
    requires Inv(s)
    ensures Inv(Step(s, Install(device)))
  {
    var t := Step(s, Install(device));
    assert SessionInv(NewSession(device));
    forall k | 0 <= k < |t.sessions| && !t.sessions[k].run.Ended? ensures Listed(t, k) {
      assert k < |s.sessions| ==> Listed(s, k);
    }
  }

  lemma StepKeepsInv(s: State, e: Event)
    requires Inv(s)
    ensures Inv(Step(s, e))
  {
    match e
    case Install(device) => InstalledKeepsInv(s, device);
    case Local(i, action) =>
      if i < |s.sessions| { UpdateKeepsInv(s, i, Act(s.sessions[i], action)); }
    case Handler(device, request) =>
      if device in s.broadcasts {
        var i := s.broadcasts[device];
        UpdateKeepsInv(s, i, Handle(s.sessions[i], i, request));
      }
    case Remove(i) =>
      if i < |s.sessions| && s.sessions[i].run.Removing? { RemovedKeepsInv(s, i); }
  }

  /** Once cancelled, a session stays so, with the same cause. */
  lemma CancelSurvivesStep(s: State, e: Event, i: nat)
    requires i < |s.sessions| && s.sessions[i].cancelled.Some?
    ensures i < |Step(s, e).sessions| && Step(s, e).sessions[i].cancelled == s.sessions[i].cancelled
  {
  }

  lemma {:induction false} RunKeepsInv(s: State, es: seq<Event>)
    requires Inv(s)
    ensures Inv(Run(s, es))
    decreases |es|
  {
    if es != [] {
      StepKeepsInv(s, es[0]);
      RunKeepsInv(Step(s, es[0]), es[1..]);
    }
  }
}
