/** Whole stops of signaling/device_lifecycle.go: that they can end, in how many steps, and what they leave behind. */
module LifecycleRuns {
  import opened Options
  import opened Lifecycle
  import B = Broadcast
  import P = Ptz
  import R = BroadcastRuns

  // ---------------------------------------------------------------------------------------------
  // Every stop can end
  // ---------------------------------------------------------------------------------------------

  lemma {:induction false} RunConcat(s: State, a: seq<Event>, b: seq<Event>)
    requires s.ssrcs.alloc.Valid()
    ensures Run(s, a + b) == Run(Run(s, a), b)
    decreases |a|
  {
    if a == [] {
      assert a + b == b;
    } else {
      assert (a + b)[1..] == a[1..] + b;
      RunConcat(Step(s, a[0]), a[1..], b);
    }
  }

  lemma RunOne(s: State, e: Event)
    requires s.ssrcs.alloc.Valid()
    ensures Run(s, [e]) == Step(s, e)
  {
    assert [e][1..] == [];
  }

  /** `r` differs from `s` in sessions, their SSRCs and stop `t` alone. */
  predicate OnlyStop(s: State, r: State, t: nat, x: Stop) {
    t < |r.stops| && r.stops[t] == x && r.ptz == s.ptz && r.broadcast == s.broadcast
  }

  lemma RemovedIsGone(s: State, l: nat)
    requires s.ssrcs.alloc.Valid()
    ensures var r := AfterRemove(s, l); !Listed(r, l) && r.stops == s.stops && r.ptz == s.ptz && r.broadcast == s.broadcast
  {
  }

  lemma SeeSession(s: State, t: nat, l: nat)
    requires s.ssrcs.alloc.Valid() && t < |s.stops| && s.stops[t].phase.Stopping? && l in s.stops[t].sessions && !Listed(s, l)
    ensures OnlyStop(s, Step(s, SessionStopped(t, l, false)), t, s.stops[t].(sessions := s.stops[t].sessions - {l}))
  {
  }

  /** The session `l` is removed and the stop sees it. */
  lemma CrossOff(s: State, t: nat, l: nat) returns (es: seq<Event>)
    requires Inv(s) && t < |s.stops| && s.stops[t].phase.Stopping? && l in s.stops[t].sessions
    ensures Inv(Run(s, es)) && OnlyStop(s, Run(s, es), t, s.stops[t].(sessions := s.stops[t].sessions - {l}))
  {
    var gone := AfterRemove(s, l);
    RemoveStepKeepsInv(s, l);
    RemovedIsGone(s, l);
    SeeSession(gone, t, l);
    SessionStoppedKeepsInv(gone, t, l, false);
    es := [RemoveSession(l)] + [SessionStopped(t, l, false)];
    RunConcat(s, [RemoveSession(l)], [SessionStopped(t, l, false)]);
    RunOne(s, RemoveSession(l));
    RunOne(gone, SessionStopped(t, l, false));
  }

  lemma {:induction false} ClearSessions(s: State, t: nat) returns (es: seq<Event>)
    requires Inv(s) && t < |s.stops| && s.stops[t].phase.Stopping?
    ensures Inv(Run(s, es)) && OnlyStop(s, Run(s, es), t, s.stops[t].(sessions := {}))
    decreases |s.stops[t].sessions|
  {
    if s.stops[t].sessions == {} {
      es := [];
    } else {
      var l :| l in s.stops[t].sessions;
      var first := CrossOff(s, t, l);
      var rest := ClearSessions(Run(s, first), t);
      RunConcat(s, first, rest);
      es := first + rest;
    }
  }

  function Lifted(es: seq<B.Event>): seq<Event> {
    seq(|es|, i requires 0 <= i < |es| => OnBroadcast(es[i]))
  }

  /** A run of the broadcast protocol without installs is a run of the service. */
  lemma {:induction false} LiftedRun(s: State, es: seq<B.Event>)
    requires s.ssrcs.alloc.Valid() && forall i | 0 <= i < |es| :: !es[i].Install?
    ensures Run(s, Lifted(es)) == s.(broadcast := B.Run(s.broadcast, es))
    decreases |es|
  {
    if es != [] {
      assert Lifted(es)[1..] == Lifted(es[1..]);
      LiftedRun(Step(s, OnBroadcast(es[0])), es[1..]);
    }
  }

  /** The broadcast that stop `t` waits for, if any, has ended. */
  predicate BroadcastOver(s: State, t: nat) {
    t < |s.stops| && (s.stops[t].broadcast.Some? ==>
      s.stops[t].broadcast.value < |s.broadcast.sessions| && s.broadcast.sessions[s.stops[t].broadcast.value].done)
  }

  /** That broadcast has recorded a cleanup error. */
  predicate BroadcastFailed(s: State, t: nat) {
    && t < |s.stops| && s.stops[t].broadcast.Some? && s.stops[t].broadcast.value < |s.broadcast.sessions|
    && s.broadcast.sessions[s.stops[t].broadcast.value].cleanupFailed
  }

  /** The cancelled broadcast of a stop runs to its end, with no more cleanup errors than it had. */
  lemma EndBroadcast(s: State, t: nat) returns (es: seq<Event>)
    requires Inv(s) && t < |s.stops| && Active(s.stops[t])
    ensures Inv(Run(s, es)) && Run(s, es).stops == s.stops && Run(s, es).ptz == s.ptz && BroadcastOver(Run(s, es), t)
    ensures BroadcastFailed(Run(s, es), t) ==> BroadcastFailed(s, t)
  {
    es := [];
    var b := s.stops[t].broadcast;
    if b.Some? {
      assert B.SessionInv(s.broadcast.sessions[b.value]);
      if !s.broadcast.sessions[b.value].run.Ended? {
        es := Lifted(R.Shutdown(b.value, 0));
        ShutdownLifts(s, b.value);
        RunKeepsInv(s, es);
      }
    }
  }

  lemma ShutdownLifts(s: State, i: nat)
    requires s.ssrcs.alloc.Valid() && B.Inv(s.broadcast) && i < |s.broadcast.sessions|
    requires s.broadcast.sessions[i].cancelled.Some? && !s.broadcast.sessions[i].run.Ended?
    ensures var r := Run(s, Lifted(R.Shutdown(i, 0)));
            && r == s.(broadcast := r.broadcast) && i < |r.broadcast.sessions| && r.broadcast.sessions[i].done
            && (r.broadcast.sessions[i].cleanupFailed ==> s.broadcast.sessions[i].cleanupFailed)
  {
    assert B.SessionInv(s.broadcast.sessions[i]);
    R.ShutdownRuns(s.broadcast, i, 0);
    R.ShutdownInstallsNothing(i, 0);
    LiftedRun(s, R.Shutdown(i, 0));
  }

  lemma SeeBroadcast(s: State, t: nat)
    requires BroadcastOver(s, t) && s.stops[t].phase.Stopping? && s.stops[t].sessions == {}
    ensures OnlyStop(s, AfterBroadcast(s, t), t, s.stops[t].(phase := Finishing, failed := s.stops[t].failed || BroadcastFailed(s, t)))
  {
  }

  /** Stop `t` is about to finish, with an error only if it had one or its broadcast had. */
  predicate AboutToFinish(s: State, r: State, t: nat) {
    && t < |s.stops| && t < |r.stops| && r.ptz == s.ptz
    && r.stops[t].phase.Finishing? && r.stops[t].device == s.stops[t].device && r.stops[t].kind == s.stops[t].kind
    && (r.stops[t].failed ==> s.stops[t].failed || BroadcastFailed(s, t))
  }

  lemma AwaitBroadcast(s: State, t: nat) returns (es: seq<Event>)
    requires Inv(s) && t < |s.stops| && s.stops[t].phase.Stopping? && s.stops[t].sessions == {}
    ensures Inv(Run(s, es)) && AboutToFinish(s, Run(s, es), t)
  {
    var shutdown := EndBroadcast(s, t);
    var over := Run(s, shutdown);
    SeeBroadcast(over, t);
    BroadcastStoppedKeepsInv(over, t);
    es := shutdown + [BroadcastStopped(t)];
    RunConcat(s, shutdown, [BroadcastStopped(t)]);
    RunOne(over, BroadcastStopped(t));
  }

  /** From any point of its waits a stop can come to its last section, leaving every PTZ owner where it is. */
  lemma CanFinish(s: State, t: nat) returns (es: seq<Event>)
    requires Inv(s) && t < |s.stops| && s.stops[t].phase.Stopping?
    ensures Inv(Run(s, es)) && AboutToFinish(s, Run(s, es), t)
  {
    var first := ClearSessions(s, t);
    var clear := Run(s, first);
    var second := AwaitBroadcast(clear, t);
    RunConcat(s, first, second);
    es := first + second;
  }

  lemma FinishEnds(s: State, t: nat)
    requires Inv(s) && t < |s.stops| && s.stops[t].phase.Finishing?
    ensures var r := Step(s, FinishStop(t, false));
            && |r.stops| == |s.stops| && r.stops[t].phase == Ended(s.stops[t].kind.Delete? && !s.stops[t].failed)
            && s.stops[t].device !in r.stopping && r.ptz == s.ptz
  {
  }

  /** From every reachable state every stop in progress can end, and then the device is not marked any more. */
  lemma StopCanEnd(prefix: nat, es: seq<Event>, t: nat) returns (more: seq<Event>)
    requires prefix % 10000 == 0 && prefix <= 999_990_000
    requires t < |Run(Init(prefix), es).stops| && Active(Run(Init(prefix), es).stops[t])
    ensures var s := Run(Init(prefix), es); var r := Run(s, more);
            t < |r.stops| && r.stops[t].phase.Ended? && s.stops[t].device !in r.stopping
  {
    InitIsSound(prefix);
    RunKeepsInv(Init(prefix), es);
    var s := Run(Init(prefix), es);
    var waits := [];
    if s.stops[t].phase.Stopping? {
      waits := CanFinish(s, t);
    }
    var last := Run(s, waits);
    FinishEnds(last, t);
    more := waits + [FinishStop(t, false)];
    RunConcat(s, waits, [FinishStop(t, false)]);
    RunOne(last, FinishStop(t, false));
  }

  // ---------------------------------------------------------------------------------------------
  // In how many steps
  // ---------------------------------------------------------------------------------------------

  predicate OwnEvent(e: Event, t: nat) {
    (e.SessionStopped? || e.BroadcastStopped? || e.FinishStop?) && e.t == t
  }

  /** A step of stop `t` that does something. */
  predicate StopStep(s: State, e: Event, t: nat)
    requires s.ssrcs.alloc.Valid()
  {
    OwnEvent(e, t) && t < |s.stops| && t < |Step(s, e).stops| && Step(s, e).stops[t] != s.stops[t]
  }

  function StopSteps(s: State, es: seq<Event>, t: nat): nat
    requires s.ssrcs.alloc.Valid()
    decreases |es|
  {
    if es == [] then 0 else (if StopStep(s, es[0], t) then 1 else 0) + StopSteps(Step(s, es[0]), es[1..], t)
  }

  /** One step per session of the snapshot, one for the broadcast and one to finish. */
  function StopLeft(x: Stop): nat {
    match x.phase
    case Stopping => |x.sessions| + 2
    case Finishing => 1
    case Ended(_) => 0
  }

  /** What never changes in a stop, and that an ended one stays so. */
  predicate StopStays(x: Stop, y: Stop) {
    y.device == x.device && y.kind == x.kind && y.broadcast == x.broadcast && (x.phase.Ended? ==> y == x)
  }

  lemma OthersLeaveStop(s: State, e: Event, t: nat)
    requires s.ssrcs.alloc.Valid() && t < |s.stops| && !OwnEvent(e, t)
    ensures t < |Step(s, e).stops| && Step(s, e).stops[t] == s.stops[t]
  {
  }

  lemma OwnEventSpends(s: State, e: Event, t: nat)
    requires s.ssrcs.alloc.Valid() && t < |s.stops| && OwnEvent(e, t)
    ensures t < |Step(s, e).stops| && StopStays(s.stops[t], Step(s, e).stops[t])
    ensures StopLeft(Step(s, e).stops[t]) < StopLeft(s.stops[t]) || Step(s, e).stops[t] == s.stops[t]
  {
    match e
    case SessionStopped(_, l, failed) => SessionStoppedSpends(s, t, l, failed);
    case BroadcastStopped(_) => AfterBroadcastSpends(s, t);
    case _ =>
  }

  lemma SessionStoppedSpends(s: State, t: nat, l: nat, failed: bool)
    requires s.ssrcs.alloc.Valid() && t < |s.stops|
    ensures var r := Step(s, SessionStopped(t, l, failed));
            t < |r.stops| && StopStays(s.stops[t], r.stops[t]) && (StopLeft(r.stops[t]) < StopLeft(s.stops[t]) || r.stops[t] == s.stops[t])
  {
  }

  lemma AfterBroadcastSpends(s: State, t: nat)
    requires t < |s.stops|
    ensures t < |AfterBroadcast(s, t).stops| && StopStays(s.stops[t], AfterBroadcast(s, t).stops[t])
    ensures StopLeft(AfterBroadcast(s, t).stops[t]) < StopLeft(s.stops[t]) || AfterBroadcast(s, t).stops[t] == s.stops[t]
  {
  }

  /** In every run a stop takes at most as many effective steps as its snapshot has sessions, and two. */
  lemma {:induction false} StopStepsAreBounded(s: State, es: seq<Event>, t: nat)
    requires s.ssrcs.alloc.Valid() && t < |s.stops|
    ensures t < |Run(s, es).stops| && StopStays(s.stops[t], Run(s, es).stops[t])
    ensures StopSteps(s, es, t) + StopLeft(Run(s, es).stops[t]) <= StopLeft(s.stops[t])
    decreases |es|
  {
    if es != [] {
      if OwnEvent(es[0], t) { OwnEventSpends(s, es[0], t); } else { OthersLeaveStop(s, es[0], t); }
      StopStepsAreBounded(Step(s, es[0]), es[1..], t);
    }
  }

  // ---------------------------------------------------------------------------------------------
  // What a deletion does not wait for
  // ---------------------------------------------------------------------------------------------

  /** A device is added, comes online and is moved by a PTZ owner. */
  function StartMoving(k: P.Key): seq<Event> {
    [AddDevice(k.device), RegisterDevice(k.device), Catalogue(k.device), OnPtz(P.Request(k, P.Motion))]
  }

  /** Then it is deleted. */
  function DeleteNow(k: P.Key): seq<Event> {
    [BeginStop(k.device, Delete), BroadcastStopped(0), FinishStop(0, false)]
  }

  function Moving(prefix: nat, k: P.Key): State {
    Init(prefix).(store := {k.device}, online := {k.device}, catalogued := {k.device}, ptz := P.Install(P.Init, k, P.Motion))
  }

  lemma RunFirst(s: State, es: seq<Event>)
    requires s.ssrcs.alloc.Valid() && es != []
    ensures Run(s, es) == Run(Step(s, es[0]), es[1..])
  {
  }

  lemma ReachesMoving(prefix: nat, k: P.Key)
    requires prefix % 10000 == 0 && prefix <= 999_990_000
    ensures Init(prefix).ssrcs.alloc.Valid() && Run(Init(prefix), StartMoving(k)) == Moving(prefix, k)
  {
    var d := k.device;
    var a := Init(prefix).(store := {d});
    var b := a.(online := {d});
    var c := b.(catalogued := {d});
    assert Init(prefix).store + {d} == {d} && a.online + {d} == {d} && b.catalogued + {d} == {d};
    RunFirst(Init(prefix), StartMoving(k));
    RunFirst(a, StartMoving(k)[1..]);
    RunFirst(b, StartMoving(k)[2..]);
    RunOne(c, OnPtz(P.Request(k, P.Motion)));
    assert StartMoving(k)[1..][1..] == StartMoving(k)[2..] && StartMoving(k)[2..][1..] == [OnPtz(P.Request(k, P.Motion))];
  }

  /** `deleteDevice` cancels PTZ owners without waiting for them, so it may return nil while one is still listed. */
  lemma OwnerMayOutliveDeletion(prefix: nat, k: P.Key)
    requires prefix % 10000 == 0 && prefix <= 999_990_000
    ensures var s := Run(Init(prefix), StartMoving(k) + DeleteNow(k));
            && |s.stops| == 1 && s.stops[0].phase == Ended(true) && k.device !in s.store
            && k in s.ptz.owners && s.ptz.owners[k] < |s.ptz.handlers| && s.ptz.handlers[s.ptz.owners[k]].cancelled
  {
    ReachesMoving(prefix, k);
    RunConcat(Init(prefix), StartMoving(k), DeleteNow(k));
    var m, es := Moving(prefix, k), DeleteNow(k);
    var d := Step(m, es[0]);
    assert SessionsOf(m.sessions, m.lives, k.device) == {};
    var e := Step(d, es[1]);
    RunFirst(m, es);
    RunFirst(d, es[1..]);
    RunOne(e, es[2]);
    assert es[1..][1..] == [es[2]];
  }

  predicate HasOwner(s: State, device: DeviceId) {
    exists k | k in s.ptz.owners :: k.device == device
  }

  /** While a device is marked it has an owner only if it had one before. */
  lemma OwnerWasThere(s: State, e: Event, device: DeviceId)
    requires s.ssrcs.alloc.Valid() && device in s.stopping && HasOwner(Step(s, e), device)
    ensures HasOwner(s, device)
  {
    var k :| k in Step(s, e).ptz.owners && k.device == device;
    NoOwnerAdmittedWhileStopping(s, e, k);
  }

  lemma {:induction false} OwnerlessStays(s: State, es: seq<Event>, t: nat)
    requires Inv(s) && t < |s.stops| && Active(s.stops[t]) && !HasOwner(s, s.stops[t].device)
    ensures t < |Run(s, es).stops| && (Active(Run(s, es).stops[t]) ==> !HasOwner(Run(s, es), s.stops[t].device))
    decreases |es|
  {
    if es != [] {
      var r := Step(s, es[0]);
      StepKeepsInv(s, es[0]);
      StopStepsAreBounded(s, [es[0]], t);
      RunOne(s, es[0]);
      StopStepsAreBounded(r, es[1..], t);
      if Active(r.stops[t]) {
        if HasOwner(r, s.stops[t].device) { OwnerWasThere(s, es[0], s.stops[t].device); }
        OwnerlessStays(r, es[1..], t);
      }
    }
  }

  /** Stop `t` cannot succeed any more. */
  predicate Doomed(s: State, t: nat) {
    BroadcastFailed(s, t) && (s.stops[t].phase.Finishing? ==> s.stops[t].failed)
  }

  lemma DoomedStep(s: State, e: Event, t: nat)
    requires Inv(s) && Doomed(s, t)
    ensures Doomed(Step(s, e), t)
  {
    CleanupStays(s, e, s.stops[t].broadcast.value);
    if OwnEvent(e, t) { DoomedOwnEvent(s, e, t); } else { OthersLeaveStop(s, e, t); }
  }

  /** The wait for the broadcast takes its cleanup error over. */
  lemma DoomedOwnEvent(s: State, e: Event, t: nat)
    requires s.ssrcs.alloc.Valid() && Doomed(s, t) && OwnEvent(e, t)
    ensures var r := Step(s, e);
            t < |r.stops| && r.stops[t].broadcast == s.stops[t].broadcast && (r.stops[t].phase.Finishing? ==> r.stops[t].failed)
  {
  }

  lemma CleanupStays(s: State, e: Event, i: nat)
    requires B.Inv(s.broadcast) && s.ssrcs.alloc.Valid() && i < |s.broadcast.sessions| && s.broadcast.sessions[i].cleanupFailed
    ensures i < |Step(s, e).broadcast.sessions| && Step(s, e).broadcast.sessions[i].cleanupFailed
  {
    match e
    case OnBroadcast(be) => FailureStays(s.broadcast, be, i);
    case BeginStop(device, kind) =>
      FailureStays(s.broadcast, B.Handler(device, B.Cancel(B.DeviceOffline)), i);
      BeginSteps(s, device, kind);
    case _ => OthersKeepBroadcast(s, e);
  }

  lemma BeginSteps(s: State, device: DeviceId, kind: StopKind)
    requires s.ssrcs.alloc.Valid()
    ensures var r := Step(s, BeginStop(device, kind)).broadcast;
            r == s.broadcast || r == B.Step(s.broadcast, B.Handler(device, B.Cancel(B.DeviceOffline)))
  {
  }

  lemma OthersKeepBroadcast(s: State, e: Event)
    requires s.ssrcs.alloc.Valid() && !e.OnBroadcast? && !e.BeginStop?
    ensures Step(s, e).broadcast == s.broadcast
  {
  }

  /** A recorded cleanup error is never taken back. */
  lemma FailureStays(b: B.State, be: B.Event, i: nat)
    requires B.Inv(b) && i < |b.sessions| && b.sessions[i].cleanupFailed
    ensures i < |B.Step(b, be).sessions| && B.Step(b, be).sessions[i].cleanupFailed
  {
    assert B.SessionInv(b.sessions[i]);
  }

  lemma {:induction false} DoomedStays(s: State, es: seq<Event>, t: nat)
    requires Inv(s) && Doomed(s, t)
    ensures Doomed(Run(s, es), t)
    decreases |es|
  {
    if es != [] {
      StepKeepsInv(s, es[0]);
      DoomedStep(s, es[0], t);
      DoomedStays(Step(s, es[0]), es[1..], t);
    }
  }

  /** After `es` the deletion `t` is about to return nil, and then an owner of its device is still listed. */
  predicate OwnerSurvives(s: State, es: seq<Event>, t: nat)
    requires s.ssrcs.alloc.Valid()
  {
    var r := Run(s, es);
    && t < |r.stops| && r.stops[t].phase.Finishing?
    && var f := Step(r, FinishStop(t, false)); t < |f.stops| && f.stops[t].phase == Ended(true) && HasOwner(f, r.stops[t].device)
  }

  /** The listed broadcast of the device has recorded a cleanup error. */
  predicate CleanupFailed(s: State, device: DeviceId) {
    && device in s.broadcast.broadcasts && s.broadcast.broadcasts[device] < |s.broadcast.sessions|
    && s.broadcast.sessions[s.broadcast.broadcasts[device]].cleanupFailed
  }

  lemma BeginKeepsOwners(s: State, device: DeviceId)
    requires B.MapInv(s.broadcast)
    ensures var b := Begun(s, device, Delete); var t := |s.stops|;
            && |b.stops| == t + 1 && b.stops[t].phase.Stopping? && b.stops[t].kind.Delete? && b.stops[t].device == device && !b.stops[t].failed
            && (HasOwner(b, device) <==> HasOwner(s, device)) && (BroadcastFailed(b, t) <==> CleanupFailed(s, device))
  {
    var b := Begun(s, device, Delete);
    assert b.ptz.owners == s.ptz.owners;
  }

  lemma SurvivorWasListed(b: State, es: seq<Event>, t: nat)
    requires Inv(b) && t < |b.stops| && b.stops[t].phase.Stopping? && OwnerSurvives(b, es, t)
    ensures HasOwner(b, b.stops[t].device) && !BroadcastFailed(b, t)
  {
    RunKeepsInv(b, es);
    StopStepsAreBounded(b, es, t);
    FinishEnds(Run(b, es), t);
    if !HasOwner(b, b.stops[t].device) { OwnerlessStays(b, es, t); }
    if BroadcastFailed(b, t) { DoomedStays(b, es, t); }
  }

  lemma SurvivorExists(b: State, t: nat) returns (es: seq<Event>)
    requires Inv(b) && t < |b.stops| && b.stops[t].phase.Stopping? && b.stops[t].kind.Delete? && !b.stops[t].failed
    requires HasOwner(b, b.stops[t].device) && !BroadcastFailed(b, t)
    ensures OwnerSurvives(b, es, t)
  {
    es := CanFinish(b, t);
    FinishEnds(Run(b, es), t);
  }

  lemma SurvivorIff(s: State, device: DeviceId)
    requires Inv(s) && device !in s.stopping && Inv(Begun(s, device, Delete))
    ensures (exists more :: OwnerSurvives(Begun(s, device, Delete), more, |s.stops|)) <==> HasOwner(s, device) && !CleanupFailed(s, device)
  {
    BeginKeepsOwners(s, device);
    var b, t := Begun(s, device, Delete), |s.stops|;
    if HasOwner(s, device) && !CleanupFailed(s, device) {
      var more := SurvivorExists(b, t);
    } else {
      forall more | OwnerSurvives(b, more, t) ensures false { SurvivorWasListed(b, more, t); }
    }
  }

  lemma DeleteBegins(s: State, device: DeviceId)
    requires s.ssrcs.alloc.Valid() && device in s.store && device !in s.stopping
    ensures Step(s, BeginStop(device, Delete)) == Begun(s, device, Delete)
  {
  }

  /**
    * In every reachable state: a deletion that begins now can return nil with a PTZ owner of the device still listed if
    * and only if an owner is listed now and the device's broadcast has not recorded a cleanup error.
    */
  lemma DeletionLeavesOwnerIff(prefix: nat, es: seq<Event>, device: DeviceId)
    requires prefix % 10000 == 0 && prefix <= 999_990_000
    requires device in Run(Init(prefix), es).store && device !in Run(Init(prefix), es).stopping
    ensures var s := Run(Init(prefix), es); var b := Step(s, BeginStop(device, Delete));
            (exists more :: OwnerSurvives(b, more, |s.stops|)) <==> HasOwner(s, device) && !CleanupFailed(s, device)
  {
    InitIsSound(prefix);
    RunKeepsInv(Init(prefix), es);
    var s := Run(Init(prefix), es);
    BeginKeepsInv(s, device, Delete);
    DeleteBegins(s, device);
    SurvivorIff(s, device);
  }
}
