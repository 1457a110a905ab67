/**
  * The critical sections of `liveService` as methods on its mutable tables, each proved to be one step of the
  * transition system in `Lifecycle`, or the function that `Step` calls for it. A method runs with the mutex held from
  * beginning to end.
  */
module LiveService {
  import opened Options
  import B = Broadcast
  import P = Ptz
  import A = SsrcAllocator
  import L = Lifecycle

  type DeviceId = string

  datatype StartResult = DeviceNotFound | DeviceStopping | DeviceOffline | Busy | Installed(session: nat)

  datatype PtzResult = Conflict | StopRequested | NotFound | StoppingNow | OfflineNow | ChannelNotFound | Owner(handler: nat)

  class Service {
    var store: set<DeviceId>
    var online: set<DeviceId>
    var catalogued: set<DeviceId>
    var stoppingDevices: set<DeviceId>
    var broadcasts: map<DeviceId, nat>
    var broadcastSessions: seq<B.Session>
    var ptzOwners: map<P.Key, nat>
    var ptzHandlers: seq<P.Handler>
    var ptzLast: map<P.Key, P.Sent>
    var pendingQueries: map<int, DeviceId>
    var sessions: map<L.SessionKey, nat>
    var lives: seq<L.Live>
    var ssrcs: A.History
    var stops: seq<L.Stop>

    function View(): L.State
      reads this
    {
      L.State(store, online, catalogued, stoppingDevices, B.State(broadcasts, broadcastSessions),
              P.State(ptzOwners, ptzHandlers, ptzLast), pendingQueries, sessions, lives, ssrcs, stops)
    }

    ghost predicate Valid()
      reads this
    {
      L.Inv(View())
    }

    constructor (prefix: nat)
      requires prefix % 10000 == 0 && prefix <= 999_990_000
      ensures Valid() && View() == L.Init(prefix)
    {
      store, online, catalogued, stoppingDevices := {}, {}, {}, {};
      broadcasts, broadcastSessions := map[], [];
      ptzOwners, ptzHandlers, ptzLast, pendingQueries := map[], [], map[], map[];
      sessions, lives, stops := map[], [], [];
      ssrcs := A.Fresh(prefix);
      new;
      L.InitIsSound(prefix);
    }

    /** A step from here leads to a valid service again. */
    lemma KeepsValid(e: L.Event)
      requires Valid()
      ensures View().ssrcs.alloc.Valid() && L.Inv(L.Step(View(), e))
    {
      L.StepKeepsInv(View(), e);
    }

    /** startBroadcast up to the install, lines 70-109 of gb_broadcast.go. */
    method StartBroadcast(device: DeviceId) returns (r: StartResult)
      requires Valid()
      modifies this`broadcasts, this`broadcastSessions
      ensures View() == L.Step(old(View()), L.OnBroadcast(B.Install(device))) && Valid()
      ensures r.Installed? <==> old(L.Admits(View(), device)) && device !in old(broadcasts)
      ensures r.Installed? ==> device in broadcasts && broadcasts[device] == r.session == |old(broadcastSessions)|
      ensures !r.Installed? ==> View() == old(View())
      ensures r.DeviceNotFound? <==> device !in store
      ensures r.DeviceStopping? <==> device in store && device in stoppingDevices
      ensures r.DeviceOffline? <==> device in store && device !in stoppingDevices && device !in online
    {
      KeepsValid(L.OnBroadcast(B.Install(device)));
      if device !in store {
        return DeviceNotFound;
      }
      if device in stoppingDevices {
        return DeviceStopping;
      }
      if device !in online {
        return DeviceOffline;
      }
      if device in broadcasts {
        return Busy;
      }
      var session := |broadcastSessions|;
      broadcasts := broadcasts[device := session];
      broadcastSessions := broadcastSessions + [B.NewSession(device)];
      return Installed(session);
    }

    /** The ownership section of handlePTZ, lines 133-168 of gb_ptz.go. */
    method ClaimPtz(key: P.Key, command: P.Command) returns (r: PtzResult)
      requires Valid()
      modifies this`ptzOwners, this`ptzHandlers
      ensures View() == L.Claimed(old(View()), key, command) && Valid()
      ensures r.StopRequested? <==> key in old(ptzOwners) && command.Stop?
      ensures r.Conflict? <==> key in old(ptzOwners) && !command.Stop?
      ensures r.Owner? <==> key !in old(ptzOwners) && old(L.Admits(View(), key.device)) && key.device in old(catalogued)
      ensures r.Owner? ==> ptzOwners == old(ptzOwners)[key := r.handler]
      ensures r.StopRequested? ==> ptzHandlers[ptzOwners[key]].cancelled && ptzHandlers[ptzOwners[key]].stopAsked
      ensures key !in old(ptzOwners) ==>
                && (r.NotFound? <==> key.device !in store)
                && (r.StoppingNow? <==> key.device in store && key.device in stoppingDevices)
                && (r.OfflineNow? <==> key.device in store && key.device !in stoppingDevices && key.device !in online)
                && (r.ChannelNotFound? <==> L.Admits(View(), key.device) && key.device !in catalogued)
    {
      L.ClaimKeepsInv(View(), key, command);
      if key in ptzOwners {
        if !command.Stop? {
          return Conflict;
        }
        var h := ptzOwners[key];
        ptzHandlers := ptzHandlers[h := ptzHandlers[h].(cancelled := true, stopAsked := true)];
        return StopRequested;
      }
      if key.device !in store {
        return NotFound;
      }
      if key.device in stoppingDevices {
        return StoppingNow;
      }
      if key.device !in online {
        return OfflineNow;
      }
      if key.device !in catalogued {
        return ChannelNotFound;
      }
      var h := |ptzHandlers|;
      ptzOwners := ptzOwners[key := h];
      ptzHandlers := ptzHandlers + [P.Handler(key, command, if command.Stop? then P.Halting else P.Starting, false, false, P.Nothing)];
      return Owner(h);
    }

    /** The loop of beginDeviceStopLocked over the PTZ owners. */
    method CancelPtzOwners(device: DeviceId)
      requires P.OwnersInv(View().ptz)
      modifies this`ptzHandlers
      ensures P.State(ptzOwners, ptzHandlers, ptzLast) == P.Step(old(View()).ptz, P.CancelDevice(device))
    {
      ghost var before := View().ptz;
      ghost var chosen := set k | k in ptzOwners && k.device == device;
      var keys := ptzOwners.Keys;
      while keys != {}
        invariant keys <= ptzOwners.Keys && |ptzHandlers| == |before.handlers|
        invariant forall h | 0 <= h < |ptzHandlers| ::
                    ptzHandlers[h] == CancelledExcept(before, chosen, keys, h)
        decreases |keys|
      {
        var key :| key in keys;
        if key.device == device {
          var h := ptzOwners[key];
          ptzHandlers := ptzHandlers[h := ptzHandlers[h].(cancelled := true)];
        }
        keys := keys - {key};
      }
      assert ptzHandlers == P.CancelOwners(before, chosen).handlers;
    }

    /** deleteDevice up to the first unlock, lines 62-72 of device_lifecycle.go. */
    method BeginDelete(device: DeviceId) returns (r: Option<nat>)
      requires Valid()
      modifies this`stoppingDevices, this`broadcastSessions, this`ptzHandlers, this`stops
      ensures View() == L.Step(old(View()), L.BeginStop(device, L.Delete)) && Valid()
      ensures r.Some? <==> device in old(store) && device !in old(stoppingDevices)
      ensures r.Some? ==> r.value == |old(stops)| < |stops| && stops[r.value].device == device && device in stoppingDevices
    {
      KeepsValid(L.BeginStop(device, L.Delete));
      if device !in store || device in stoppingDevices {
        return None;
      }
      r := Some(|stops|);
      BeginDeviceStop(device);
    }

    /** beginDeviceStopLocked. */
    method BeginDeviceStop(device: DeviceId)
      requires L.ListInv(sessions, lives) && B.MapInv(View().broadcast) && P.OwnersInv(View().ptz)
      modifies this`stoppingDevices, this`broadcastSessions, this`ptzHandlers, this`stops
      ensures View() == L.Begun(old(View()), device, L.Delete)
    {
      var snapshot := CancelBroadcast(device);
      CancelPtzOwners(device);
      var live := CollectSessions(device);
      stoppingDevices := stoppingDevices + {device};
      stops := stops + [L.Stop(device, L.Delete, snapshot, live, false, L.Stopping)];
    }

    method CancelBroadcast(device: DeviceId) returns (snapshot: Option<nat>)
      requires B.MapInv(View().broadcast)
      modifies this`broadcastSessions
      ensures View().broadcast == B.Step(old(View()).broadcast, B.Handler(device, B.Cancel(B.DeviceOffline)))
      ensures snapshot == if device in broadcasts then Some(broadcasts[device]) else None
    {
      snapshot := None;
      if device in broadcasts {
        var i := broadcasts[device];
        snapshot := Some(i);
        broadcastSessions := broadcastSessions[i := B.OnCancel(broadcastSessions[i], B.DeviceOffline)];
      }
    }

    method CollectSessions(device: DeviceId) returns (live: set<nat>)
      requires L.ListInv(sessions, lives)
      ensures live == L.SessionsOf(sessions, lives, device)
    {
      live := {};
      var keys := sessions.Keys;
      while keys != {}
        invariant keys <= sessions.Keys
        invariant live == set k | k in sessions && k !in keys && k.device == device :: sessions[k]
        decreases |keys|
      {
        var key :| key in keys;
        if key.device == device {
          live := live + {sessions[key]};
        }
        keys := keys - {key};
      }
      forall l: nat | l < |lives| && lives[l].key in sessions && sessions[lives[l].key] == l && lives[l].key.device == device
        ensures l in live
      {
        assert lives[l].key in sessions;
      }
    }

    /** The last section of deleteDevice, lines 74-85. */
    method FinishDelete(t: nat, storeFails: bool) returns (ok: bool)
      requires t < |stops| && stops[t].kind.Delete? && stops[t].phase.Finishing?
      modifies this`store, this`online, this`catalogued, this`stoppingDevices, this`stops
      ensures View() == L.Finished(old(View()), t, storeFails)
      ensures ok <==> stops[t].phase == L.Ended(true)
      ensures old(stops)[t].device !in stoppingDevices
    {
      var x := stops[t];
      ok := !x.failed && !storeFails;
      if ok {
        store, online, catalogued := store - {x.device}, online - {x.device}, catalogued - {x.device};
      }
      stoppingDevices := stoppingDevices - {x.device};
      stops := stops[t := x.(phase := L.Ended(ok))];
    }

    /** `remove` in live_session.go, lines 496-506: any number of callers, one of which finds the session. */
    method RemoveSession(l: nat)
      requires Valid() && l < |lives|
      modifies this`sessions, this`lives, this`ssrcs
      ensures View() == L.AfterRemove(old(View()), l) && Valid()
      ensures lives[l].done
    {
      L.RemoveStepKeepsInv(View(), l);
      L.RemovalEndsSession(View(), l);
      var live := lives[l];
      if live.key in sessions && sessions[live.key] == l {
        sessions := sessions - {live.key};
        ssrcs := A.Step(ssrcs, A.Release(l));
        lives := lives[l := live.(done := true)];
      }
    }
  }

  /** Handler `h` after the owners outside `keys` have been looked at. */
  function CancelledExcept(s: P.State, chosen: set<P.Key>, keys: set<P.Key>, h: nat): P.Handler
    requires h < |s.handlers|
  {
    var x := s.handlers[h];
    if x.key in chosen && x.key !in keys && x.key in s.owners && s.owners[x.key] == h then x.(cancelled := true) else x
  }
}
