/**
  * Stopping and deleting devices: signaling/device_lifecycle.go with its callers in register.go and heartbeat.go,
  * over the broadcasts, PTZ owners, live sessions and queries of the live service. Every event is one critical
  * section of `liveService.mu` or one wait that returns. Events that are not due or not admitted change nothing.
  */
module Lifecycle {
  import opened Options
  import B = Broadcast
  import P = Ptz
  import A = SsrcAllocator

  type DeviceId = string

  /** `historyId` is empty for a live view and fresh for each playback. */
  datatype SessionKey = SessionKey(device: DeviceId, channel: string, historyId: string)

  /** A live or playback session, which holds the SSRC grant of the same number; `done` is closed in the section that takes it out of the map. */
  datatype Live = Live(key: SessionKey, ssrc: nat, done: bool)

  datatype StopKind = Delete | Offline

  datatype StopPhase = Stopping | Finishing | Ended(ok: bool)

  /** One `deleteDevice` or `finishDeviceOffline` in progress, with its snapshot. */
  datatype Stop = Stop(device: DeviceId, kind: StopKind, broadcast: Option<nat>, sessions: set<nat>, failed: bool, phase: StopPhase)

  datatype State = State(
    store: set<DeviceId>,           // rows of the device store
    online: set<DeviceId>,          // registered devices
    catalogued: set<DeviceId>,      // devices with channels
    stopping: set<DeviceId>,        // stoppingDevices
    broadcast: B.State,
    ptz: P.State,
    queries: map<int, DeviceId>,    // pendingQueries
    sessions: map<SessionKey, nat>,
    lives: seq<Live>,
    ssrcs: A.History,
    stops: seq<Stop>)

  function Init(prefix: nat): State {
    State({}, {}, {}, {}, B.Init, P.Init, map[], map[], [], A.Fresh(prefix), [])
  }

  datatype Event =
    | AddDevice(device: DeviceId)
    | RegisterDevice(device: DeviceId)
    | Catalogue(device: DeviceId)
    | ExpireDevice(device: DeviceId)
    | OnBroadcast(be: B.Event)
    | OnPtz(pe: P.Event)
    | AdmitQuery(sn: int, device: DeviceId)
    | EndQuery(sn: int)
    | StartSession(key: SessionKey, receiver: A.Kind)
    | RemoveSession(l: nat)
    | BeginStop(device: DeviceId, kind: StopKind)
    | SessionStopped(t: nat, l: nat, failed: bool)
    | BroadcastStopped(t: nat)
    | FinishStop(t: nat, storeFails: bool)

  /** The admission checks that startBroadcast, handlePTZ and startLive make under the mutex. */
  predicate Admits(s: State, device: DeviceId) {
    device in s.store && device !in s.stopping && device in s.online
  }

  predicate Listed(s: State, l: nat) {
    l < |s.lives| && s.lives[l].key in s.sessions && s.sessions[s.lives[l].key] == l
  }

  function SessionsOf(sessions: map<SessionKey, nat>, lives: seq<Live>, device: DeviceId): set<nat> {
    set l: nat | l < |lives| && lives[l].key in sessions && sessions[lives[l].key] == l && lives[l].key.device == device
  }

  /** `beginDeviceStopLocked`, and what its offline callers do to the registration in the same section. */
  function Begun(s: State, device: DeviceId, kind: StopKind): State {
    var snapshot := if device in s.broadcast.broadcasts then Some(s.broadcast.broadcasts[device]) else None;
    s.(stopping := s.stopping + {device},
       broadcast := B.Step(s.broadcast, B.Handler(device, B.Cancel(B.DeviceOffline))),
       ptz := P.Step(s.ptz, P.CancelDevice(device)),
       online := if kind.Offline? then s.online - {device} else s.online,
       catalogued := if kind.Offline? then s.catalogued - {device} else s.catalogued,
       stops := s.stops + [Stop(device, kind, snapshot, SessionsOf(s.sessions, s.lives, device), false, Stopping)])
  }

  /** Lines 74-85 of device_lifecycle.go, or the end of `finishDeviceOffline`. */
  function Finished(s: State, t: nat, storeFails: bool): State
    requires t < |s.stops|
  {
    var x := s.stops[t];
    var ok := x.kind.Delete? && !x.failed && !storeFails;
    var gone := if ok then {x.device} else {};
    s.(store := s.store - gone, online := s.online - gone, catalogued := s.catalogued - gone,
       stopping := s.stopping - {x.device}, stops := s.stops[t := x.(phase := Ended(ok))])
  }

  function Started(s: State, key: SessionKey, kind: A.Kind): State
    requires s.ssrcs.alloc.Valid()
  {
    var r := A.Acquired(s.ssrcs.alloc, kind).1;
    if r.None? then s.(ssrcs := A.Step(s.ssrcs, A.Acquire(kind)))
    else
      s.(sessions := s.sessions[key := |s.lives|], lives := s.lives + [Live(key, r.value, false)], ssrcs := A.Step(s.ssrcs, A.Acquire(kind)))
  }

  /** `remove`: only the listed session deletes its entry, gives back its SSRC and closes `done`. */
  function SessionRemoved(s: State, l: nat): State
    requires l < |s.lives| && s.ssrcs.alloc.Valid()
  {
    s.(sessions := s.sessions - {s.lives[l].key}, lives := s.lives[l := s.lives[l].(done := true)], ssrcs := A.Step(s.ssrcs, A.Release(l)))
  }

  /** The ownership section of handlePTZ. */
  function Claimed(s: State, key: P.Key, command: P.Command): State {
    if key !in s.ptz.owners && !(Admits(s, key.device) && key.device in s.catalogued) then s
    else s.(ptz := P.Requested(s.ptz, key, command))
  }

  /** The first section of startLive, and of a playback. */
  function AfterStart(s: State, key: SessionKey, receiver: A.Kind): State
    requires s.ssrcs.alloc.Valid()
  {
    if Admits(s, key.device) && key.device in s.catalogued && key !in s.sessions then Started(s, key, receiver) else s
  }

  /** The end of `stopDeviceSessions`: the wait for the snapshot's broadcast. */
  function AfterBroadcast(s: State, t: nat): State {
    if !(t < |s.stops| && s.stops[t].phase.Stopping? && s.stops[t].sessions == {}) then s
    else
      var x := s.stops[t];
      if x.broadcast.None? then s.(stops := s.stops[t := x.(phase := Finishing)])
      else if x.broadcast.value < |s.broadcast.sessions| && s.broadcast.sessions[x.broadcast.value].done then
        s.(stops := s.stops[t := x.(phase := Finishing, failed := x.failed || s.broadcast.sessions[x.broadcast.value].cleanupFailed)])
      else s
  }

  /** `remove` by any caller. */
  function AfterRemove(s: State, l: nat): State
    requires s.ssrcs.alloc.Valid()
  {
    if Listed(s, l) then SessionRemoved(s, l) else s
  }

  function Step(s: State, e: Event): State
    requires s.ssrcs.alloc.Valid()
    ensures Step(s, e).ssrcs.alloc.Valid()
  {
    match e
    case AddDevice(device) => s.(store := s.store + {device})
    case RegisterDevice(device) =>
      if device in s.store && device !in s.stopping then s.(online := s.online + {device}) else s
    case Catalogue(device) =>
      if device in s.online && device !in s.stopping then s.(catalogued := s.catalogued + {device}) else s
    case ExpireDevice(device) => s.(online := s.online - {device}, catalogued := s.catalogued - {device})
    case OnBroadcast(be) =>
      if be.Install? && !Admits(s, be.device) then s else s.(broadcast := B.Step(s.broadcast, be))
    case OnPtz(pe) =>
      if pe.Request? then Claimed(s, pe.key, pe.command) else s.(ptz := P.Step(s.ptz, pe))
    case AdmitQuery(sn, device) =>
      if device !in s.stopping && device in s.online && sn !in s.queries then s.(queries := s.queries[sn := device]) else s
    case EndQuery(sn) => s.(queries := s.queries - {sn})
    case StartSession(key, receiver) =>
      AfterStart(s, key, receiver)
    case RemoveSession(l) => AfterRemove(s, l)
    case BeginStop(device, kind) =>
      if device !in s.stopping && (device in s.store || kind.Offline?) then Begun(s, device, kind) else s
    case SessionStopped(t, l, failed) =>
      if t < |s.stops| && s.stops[t].phase.Stopping? && l in s.stops[t].sessions && !Listed(s, l) then
        s.(stops := s.stops[t := s.stops[t].(sessions := s.stops[t].sessions - {l}, failed := s.stops[t].failed || failed)])
      else s
    case BroadcastStopped(t) => AfterBroadcast(s, t)
    case FinishStop(t, storeFails) =>
      if t < |s.stops| && s.stops[t].phase.Finishing? then Finished(s, t, storeFails) else s
  }

  function Run(s: State, es: seq<Event>): (r: State)
    requires s.ssrcs.alloc.Valid()
    ensures r.ssrcs.alloc.Valid()
    decreases |es|
  {
    if es == [] then s else Run(Step(s, es[0]), es[1..])
  }

  // ---------------------------------------------------------------------------------------------
  // Invariant
  // ---------------------------------------------------------------------------------------------

  /** The session map lists exactly the sessions that are not done. */
  predicate ListInv(sessions: map<SessionKey, nat>, lives: seq<Live>) {
    && (forall k | k in sessions :: sessions[k] < |lives| && lives[sessions[k]].key == k && !lives[sessions[k]].done)
    && (forall l | 0 <= l < |lives| :: !lives[l].done ==> lives[l].key in sessions && sessions[lives[l].key] == l)
  }

  /** Session `l` holds grant `l`, until it is done. */
  predicate GrantsInv(lives: seq<Live>, grants: seq<A.Grant>) {
    |grants| == |lives| && forall l | 0 <= l < |lives| :: grants[l] == A.Grant(lives[l].ssrc, !lives[l].done)
  }

  ghost predicate SessionsInv(sessions: map<SessionKey, nat>, lives: seq<Live>, ssrcs: A.History) {
    ListInv(sessions, lives) && GrantsInv(lives, ssrcs.grants) && A.Sound(ssrcs)
  }

  predicate Active(x: Stop) {
    !x.phase.Ended?
  }

  /** An active stop holds its mark, knows the device's broadcast and sessions, and has seen off what it has passed. */
  predicate StopInv(x: Stop, stopping: set<DeviceId>, broadcasts: map<DeviceId, nat>, sessions: map<SessionKey, nat>) {
    Active(x) ==>
      && x.device in stopping
      && (x.device in broadcasts ==> x.phase.Stopping? && x.broadcast == Some(broadcasts[x.device]))
      && (forall k | k in sessions && k.device == x.device :: sessions[k] in x.sessions)
      && (x.phase.Finishing? ==> x.sessions == {})
  }

  predicate StopsInv(s: State) {
    && (forall t | 0 <= t < |s.stops| :: StopInv(s.stops[t], s.stopping, s.broadcast.broadcasts, s.sessions))
    && (forall t, u | 0 <= t < u < |s.stops| :: Active(s.stops[t]) && Active(s.stops[u]) ==> s.stops[t].device != s.stops[u].device)
  }

  /** The broadcast an active stop waits for has been cancelled. */
  predicate SnapshotsInv(stops: seq<Stop>, broadcasts: seq<B.Session>) {
    forall t | 0 <= t < |stops| :: Active(stops[t]) && stops[t].broadcast.Some? ==>
      stops[t].broadcast.value < |broadcasts| && broadcasts[stops[t].broadcast.value].cancelled.Some?
  }

  ghost predicate Inv(s: State) {
    && B.Inv(s.broadcast) && P.Inv(s.ptz) && SessionsInv(s.sessions, s.lives, s.ssrcs)
    && StopsInv(s) && SnapshotsInv(s.stops, s.broadcast.sessions)
  }

  /** What a step may do to the stops of others: keep the marks, and add no broadcast or session of a marked device. */
  predicate Gentle(s: State, t: State) {
    && t.stops == s.stops && t.stopping == s.stopping
    && (forall d | d in t.broadcast.broadcasts && d in s.stopping :: d in s.broadcast.broadcasts && t.broadcast.broadcasts[d] == s.broadcast.broadcasts[d])
    && (forall k | k in t.sessions && k.device in s.stopping :: k in s.sessions && t.sessions[k] == s.sessions[k])
  }

  lemma GentleKeepsStops(s: State, t: State)
    requires StopsInv(s) && Gentle(s, t)
    ensures StopsInv(t)
  {
  }

  lemma BroadcastIsGentle(s: State, be: B.Event)
    requires B.Inv(s.broadcast) && s.ssrcs.alloc.Valid()
    ensures Gentle(s, Step(s, OnBroadcast(be)))
  {
    match be
    case Remove(i) => if i < |s.broadcast.sessions| && s.broadcast.sessions[i].run.Removing? { B.RemovedKeepsInv(s.broadcast, i); }
    case _ =>
  }

  lemma StartKeepsSessions(s: State, key: SessionKey, receiver: A.Kind)
    requires SessionsInv(s.sessions, s.lives, s.ssrcs) && key !in s.sessions
    ensures var t := Started(s, key, receiver); SessionsInv(t.sessions, t.lives, t.ssrcs)
  {
    A.AcquireKeepsSound(s.ssrcs, receiver);
    var r := A.Acquired(s.ssrcs.alloc, receiver).1;
    if r.Some? {
      ListingKeepsSessions(s.sessions, s.lives, s.ssrcs.grants, key, r.value);
    }
  }

  lemma ListingKeepsSessions(sessions: map<SessionKey, nat>, lives: seq<Live>, grants: seq<A.Grant>, key: SessionKey, ssrc: nat)
    requires ListInv(sessions, lives) && GrantsInv(lives, grants) && key !in sessions
    ensures ListInv(sessions[key := |lives|], lives + [Live(key, ssrc, false)])
    ensures GrantsInv(lives + [Live(key, ssrc, false)], grants + [A.Grant(ssrc, true)])
  {
  }

  /** A listed session releases its own grant for the first time, so the release is harmless. */
  lemma RemoveKeepsSessions(s: State, l: nat)
    requires SessionsInv(s.sessions, s.lives, s.ssrcs) && Listed(s, l)
    ensures var t := SessionRemoved(s, l); SessionsInv(t.sessions, t.lives, t.ssrcs)
  {
    A.ReleaseKeepsSoundIff(s.ssrcs, l);
  }

  /** A session is done once `remove` has run, by whichever caller. */
  lemma RemovalEndsSession(s: State, l: nat)
    requires SessionsInv(s.sessions, s.lives, s.ssrcs) && l < |s.lives|
    ensures l < |AfterRemove(s, l).lives| && AfterRemove(s, l).lives[l].done
  {
  }

  lemma BeginKeepsStops(s: State, device: DeviceId, kind: StopKind)
    requires Inv(s) && device !in s.stopping
    ensures StopsInv(Begun(s, device, kind))
  {
    var t := Begun(s, device, kind);
    assert t.broadcast.broadcasts == s.broadcast.broadcasts;
    forall k | k in s.sessions && k.device == device ensures s.sessions[k] in SessionsOf(s.sessions, s.lives, device) {
      assert Listed(s, s.sessions[k]);
    }
  }

  lemma BroadcastStoppedKeepsStops(s: State, t: nat)
    requires Inv(s)
    ensures StopsInv(AfterBroadcast(s, t))
  {
    if t < |s.stops| && s.stops[t].phase.Stopping? && s.stops[t].sessions == {} {
      var x := s.stops[t];
      if x.device in s.broadcast.broadcasts {
        assert B.SessionInv(s.broadcast.sessions[x.broadcast.value]);
      }
    }
  }

  lemma SessionStoppedKeepsStops(s: State, t: nat, l: nat, failed: bool)
    requires Inv(s)
    ensures StopsInv(Step(s, SessionStopped(t, l, failed)))
  {
    var r := Step(s, SessionStopped(t, l, failed));
    if r != s {
      forall k | k in s.sessions && k.device == s.stops[t].device ensures s.sessions[k] in r.stops[t].sessions {
        assert Listed(s, s.sessions[k]);
      }
    }
  }

  lemma FinishKeepsStops(s: State, t: nat, storeFails: bool)
    requires Inv(s) && t < |s.stops| && s.stops[t].phase.Finishing?
    ensures StopsInv(Finished(s, t, storeFails))
  {
    assert Active(s.stops[t]);
  }

  lemma SnapshotsSurvive(stops: seq<Stop>, b: B.State, be: B.Event)
    requires SnapshotsInv(stops, b.sessions)
    ensures SnapshotsInv(stops, B.Step(b, be).sessions)
  {
    forall t | 0 <= t < |stops| && Active(stops[t]) && stops[t].broadcast.Some?
      ensures stops[t].broadcast.value < |B.Step(b, be).sessions| && B.Step(b, be).sessions[stops[t].broadcast.value].cancelled.Some?
    {
      B.CancelSurvivesStep(b, be, stops[t].broadcast.value);
    }
  }

  lemma BroadcastStepKeepsInv(s: State, be: B.Event)
    requires Inv(s)
    ensures Inv(Step(s, OnBroadcast(be)))
  {
    B.StepKeepsInv(s.broadcast, be);
    BroadcastIsGentle(s, be);
    GentleKeepsStops(s, Step(s, OnBroadcast(be)));
    SnapshotsSurvive(s.stops, s.broadcast, be);
  }

  lemma ClaimKeepsInv(s: State, key: P.Key, command: P.Command)
    requires Inv(s)
    ensures Inv(Claimed(s, key, command))
  {
    P.RequestKeepsInv(s.ptz, key, command);
    GentleKeepsStops(s, Claimed(s, key, command));
  }

  lemma PtzStepKeepsInv(s: State, pe: P.Event)
    requires Inv(s)
    ensures Inv(Step(s, OnPtz(pe)))
  {
    P.StepKeepsInv(s.ptz, pe);
    GentleKeepsStops(s, Step(s, OnPtz(pe)));
  }

  lemma StartStepKeepsInv(s: State, key: SessionKey, receiver: A.Kind)
    requires Inv(s)
    ensures Inv(AfterStart(s, key, receiver))
  {
    if key !in s.sessions { StartKeepsSessions(s, key, receiver); }
    StartIsGentle(s, key, receiver);
    GentleKeepsStops(s, AfterStart(s, key, receiver));
  }

  lemma StartIsGentle(s: State, key: SessionKey, receiver: A.Kind)
    requires s.ssrcs.alloc.Valid()
    ensures var t := AfterStart(s, key, receiver); Gentle(s, t) && t.broadcast == s.broadcast && t.ptz == s.ptz
  {
  }

  lemma RemoveStepKeepsInv(s: State, l: nat)
    requires Inv(s)
    ensures Inv(AfterRemove(s, l))
  {
    if Listed(s, l) { RemoveKeepsSessions(s, l); }
    GentleKeepsStops(s, AfterRemove(s, l));
  }

  lemma BeginKeepsInv(s: State, device: DeviceId, kind: StopKind)
    requires Inv(s) && device !in s.stopping
    ensures Inv(Begun(s, device, kind))
  {
    B.StepKeepsInv(s.broadcast, B.Handler(device, B.Cancel(B.DeviceOffline)));
    P.StepKeepsInv(s.ptz, P.CancelDevice(device));
    BeginKeepsStops(s, device, kind);
    BeginSnapshots(s, device, kind);
  }

  /** The new snapshot's broadcast is cancelled in the same section. */
  lemma BeginSnapshots(s: State, device: DeviceId, kind: StopKind)
    requires B.MapInv(s.broadcast) && SnapshotsInv(s.stops, s.broadcast.sessions)
    ensures SnapshotsInv(Begun(s, device, kind).stops, Begun(s, device, kind).broadcast.sessions)
  {
    SnapshotsSurvive(s.stops, s.broadcast, B.Handler(device, B.Cancel(B.DeviceOffline)));
  }

  lemma SessionStoppedKeepsInv(s: State, t: nat, l: nat, failed: bool)
    requires Inv(s)
    ensures Inv(Step(s, SessionStopped(t, l, failed)))
  {
    SessionStoppedKeepsStops(s, t, l, failed);
  }

  lemma BroadcastStoppedKeepsInv(s: State, t: nat)
    requires Inv(s)
    ensures Inv(AfterBroadcast(s, t))
  {
    BroadcastStoppedKeepsStops(s, t);
  }

  lemma FinishKeepsInv(s: State, t: nat, storeFails: bool)
    requires Inv(s) && t < |s.stops| && s.stops[t].phase.Finishing?
    ensures Inv(Finished(s, t, storeFails))
  {
    FinishKeepsStops(s, t, storeFails);
  }

  lemma StepKeepsInv(s: State, e: Event)
    requires Inv(s)
    ensures Inv(Step(s, e))
  {
    match e
    case OnBroadcast(be) => BroadcastStepKeepsInv(s, be);
    case OnPtz(pe) => PtzStepKeepsInv(s, pe);
    case StartSession(key, receiver) => StartStepKeepsInv(s, key, receiver);
    case RemoveSession(l) => RemoveStepKeepsInv(s, l);
    case BeginStop(device, kind) => if Step(s, e) != s { BeginKeepsInv(s, device, kind); }
    case SessionStopped(t, l, failed) => SessionStoppedKeepsInv(s, t, l, failed);
    case BroadcastStopped(t) => BroadcastStoppedKeepsInv(s, t);
    case FinishStop(t, storeFails) => if Step(s, e) != s { FinishKeepsInv(s, t, storeFails); }
    case _ => TableStepKeepsInv(s, e);
  }

  /** Store, registration, channels and queries are no concern of the invariant. */
  lemma TablesAreFree(s: State, t: State)
    requires Inv(s) && t == s.(store := t.store, online := t.online, catalogued := t.catalogued, queries := t.queries)
    ensures Inv(t)
  {
    GentleKeepsStops(s, t);
  }

  lemma TableStepKeepsInv(s: State, e: Event)
    requires Inv(s) && (e.AddDevice? || e.RegisterDevice? || e.Catalogue? || e.ExpireDevice? || e.AdmitQuery? || e.EndQuery?)
    ensures Inv(Step(s, e))
  {
    TablesAreFree(s, Step(s, e));
  }

  lemma {:induction false} RunKeepsInv(s: State, es: seq<Event>)
    requires Inv(s)
    ensures Inv(Run(s, es))
    decreases |es|
  {
    if es != [] {
      StepKeepsInv(s, es[0]);
      RunKeepsInv(Step(s, es[0]), es[1..]);
    }
  }

  lemma InitIsSound(prefix: nat)
    requires prefix % 10000 == 0 && prefix <= 999_990_000
    ensures Inv(Init(prefix))
  {
  }

  // ---------------------------------------------------------------------------------------------
  // Whole runs
  // ---------------------------------------------------------------------------------------------

  /** While a device is marked no new broadcast appears for it. */
  lemma NoBroadcastAdmittedWhileStopping(s: State, e: Event, device: DeviceId)
    requires B.Inv(s.broadcast) && s.ssrcs.alloc.Valid() && device in s.stopping && device in Step(s, e).broadcast.broadcasts
    ensures device in s.broadcast.broadcasts && Step(s, e).broadcast.broadcasts[device] == s.broadcast.broadcasts[device]
  {
    if e.OnBroadcast? {
      BroadcastIsGentle(s, e.be);
    } else if e.BeginStop? {
      assert B.Step(s.broadcast, B.Handler(e.device, B.Cancel(B.DeviceOffline))).broadcasts == s.broadcast.broadcasts;
    }
  }

  /** And no new live or playback session. */
  lemma NoSessionAdmittedWhileStopping(s: State, e: Event, k: SessionKey)
    requires s.ssrcs.alloc.Valid() && k.device in s.stopping && k in Step(s, e).sessions
    ensures k in s.sessions && Step(s, e).sessions[k] == s.sessions[k]
  {
  }

  /** Nor a new PTZ owner. */
  lemma NoOwnerAdmittedWhileStopping(s: State, e: Event, k: P.Key)
    requires s.ssrcs.alloc.Valid() && k.device in s.stopping && k in Step(s, e).ptz.owners
    ensures k in s.ptz.owners && Step(s, e).ptz.owners[k] == s.ptz.owners[k]
  {
    if e.OnPtz? {
      OwnersGrowByRequest(s.ptz, e.pe);
    } else if e.BeginStop? {
      OwnersGrowByRequest(s.ptz, P.CancelDevice(e.device));
    }
  }

  /** Nor a new query, and its registration and channels do not come back. */
  lemma NoQueryAdmittedWhileStopping(s: State, e: Event, device: DeviceId)
    requires s.ssrcs.alloc.Valid() && device in s.stopping
    ensures var t := Step(s, e);
            && (forall sn | sn in t.queries && t.queries[sn] == device :: sn in s.queries && s.queries[sn] == device)
            && (device in t.online ==> device in s.online) && (device in t.catalogued ==> device in s.catalogued)
  {
  }

  lemma OwnersGrowByRequest(s: P.State, e: P.Event)
    ensures forall k | k in P.Step(s, e).owners ::
              if k in s.owners then P.Step(s, e).owners[k] == s.owners[k] else e.Request? && e.key == k
  {
  }

  /** At most one stop of a device is in progress, although three code paths start them. */
  lemma OneStopPerDevice(prefix: nat, es: seq<Event>, t: nat, u: nat)
    requires prefix % 10000 == 0 && prefix <= 999_990_000
    requires var s := Run(Init(prefix), es);
             t < |s.stops| && u < |s.stops| && Active(s.stops[t]) && Active(s.stops[u]) && s.stops[t].device == s.stops[u].device
    ensures t == u
  {
    InitIsSound(prefix);
    RunKeepsInv(Init(prefix), es);
  }

  lemma FinishingIsClear(s: State, t: nat)
    requires StopsInv(s) && t < |s.stops| && s.stops[t].phase.Finishing?
    ensures s.stops[t].device !in s.broadcast.broadcasts && forall k | k in s.sessions :: k.device != s.stops[t].device
  {
    assert Active(s.stops[t]);
  }

  /**
    * In every run, at the moment `deleteDevice` returns nil no broadcast and no live or playback session of the
    * device exists, its stops reported no error, and its row, registration and channels are gone.
    */
  lemma DeletedDeviceIsGone(prefix: nat, es: seq<Event>, t: nat)
    requires prefix % 10000 == 0 && prefix <= 999_990_000
    requires var s := Run(Init(prefix), es); t < |s.stops| && s.stops[t].kind.Delete? && s.stops[t].phase.Finishing?
    ensures var s := Run(Init(prefix), es); var d := s.stops[t].device; var r := Step(s, FinishStop(t, false));
            && r.stops[t].phase == Ended(!s.stops[t].failed)
            && (r.stops[t].phase.ok ==>
                  && d !in r.broadcast.broadcasts
                  && (forall k | k in r.sessions :: k.device != d)
                  && d !in r.store && d !in r.online && d !in r.catalogued && d !in r.stopping)
  {
    InitIsSound(prefix);
    RunKeepsInv(Init(prefix), es);
    FinishingIsClear(Run(Init(prefix), es), t);
  }

  /** Two sessions in the map never share an SSRC, whatever paths removed earlier ones. */
  lemma SessionsHaveDistinctSsrcs(prefix: nat, es: seq<Event>, k: SessionKey, m: SessionKey)
    requires prefix % 10000 == 0 && prefix <= 999_990_000
    requires var s := Run(Init(prefix), es); k in s.sessions && m in s.sessions && k != m
    ensures var s := Run(Init(prefix), es);
            && s.sessions[k] < |s.lives| && s.sessions[m] < |s.lives|
            && s.lives[s.sessions[k]].ssrc % 10000 != s.lives[s.sessions[m]].ssrc % 10000
  {
    InitIsSound(prefix);
    RunKeepsInv(Init(prefix), es);
    var s := Run(Init(prefix), es);
    assert s.sessions[k] != s.sessions[m];
  }
}
