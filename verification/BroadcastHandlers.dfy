/**
  * The critical sections of signaling/gb_broadcast.go that touch only the broadcast table, as methods on it: the SIP
  * handlers and the end of `runBroadcast`. Each is proved to be one step of the transition system in `Broadcast`.
  */
module BroadcastHandlers {
  import opened Options
  import opened Broadcast

  datatype Status = Ok | Forbidden | BusyHere | NotAcceptable | BadRequest

  /** Cancelling a listed session is the step of the request that asks for it. */
  lemma CancelIsStep(s: State, i: nat, q: Request, cause: Cause)
    requires Inv(s) && Listed(s, i) && (q == Cancel(cause) || (q.Bye? && cause.RemoteBye? && s.sessions[i].dialog.Some?))
    ensures var t := Update(s, i, Cancelled(s.sessions[i], cause)); Step(s, Handler(s.sessions[i].device, q)) == t && Inv(t)
  {
    StepKeepsInv(s, Handler(s.sessions[i].device, q));
  }

  class Table {
    var broadcasts: map<DeviceId, nat>
    var sessions: seq<Session>

    function View(): State
      reads this
    {
      State(broadcasts, sessions)
    }

    ghost predicate Valid()
      reads this
    {
      Inv(View())
    }

    constructor ()
      ensures Valid() && View() == Init
    {
      broadcasts, sessions := map[], [];
    }

    /** handleBroadcastResponse, lines 243-265; `registered` are its checks of envelope and source. */
    method HandleResponse(device: DeviceId, sn: nat, ok: bool, registered: bool) returns (status: Status)
      requires Valid()
      modifies this`sessions
      ensures Valid()
      ensures View() == if registered then Step(old(View()), Handler(device, Response(sn, ok))) else old(View())
      ensures status == if registered && device in broadcasts && broadcasts[device] == sn && old(sessions)[sn].cancelled.None?
                        then Ok else Forbidden
    {
      StepKeepsInv(View(), Handler(device, Response(sn, ok)));
      if device !in broadcasts {
        return Forbidden;
      }
      var i := broadcasts[device];
      var x := sessions[i];
      assert sessions[i := x] == sessions;
      if x.cancelled.Some? || sn != i || !registered {
        return Forbidden;
      }
      var y := x;
      if !ok {
        y := y.(cancelled := Some(DeviceRejected));
      }
      if x.business.None? {
        y := y.(business := Some(ok));
      }
      sessions := sessions[i := y];
      return Ok;
    }

    /**
      * handleBroadcastInvite under the mutex, lines 278-314. `source` is the SourceID it was sent to, `registered` are
      * its checks of subject and source, `offerOk` and `readOk` the verdicts on the offer and on the dialog.
      */
    method HandleInvite(device: DeviceId, source: nat, registered: bool, offerOk: bool, readOk: bool) returns (status: Status)
      requires Valid()
      modifies this`sessions
      ensures Valid()
      ensures View() == if registered then Step(old(View()), Handler(device, Invite(source, offerOk && readOk))) else old(View())
      ensures status.Forbidden? <==> !(device in broadcasts && broadcasts[device] == source && registered && old(sessions)[source].cancelled.None?)
      ensures status.BusyHere? <==> !status.Forbidden? && old(sessions)[source].dialog.Some?
      ensures status.NotAcceptable? <==> !status.Forbidden? && !status.BusyHere? && !offerOk
      ensures status.BadRequest? <==> !status.Forbidden? && !status.BusyHere? && !status.NotAcceptable? && !readOk
      ensures status.Ok? ==> !old(sessions)[source].invited && sessions[source].dialog.Some? && sessions[source].invited
    {
      StepKeepsInv(View(), Handler(device, Invite(source, offerOk && readOk)));
      if device !in broadcasts {
        return Forbidden;
      }
      var i := broadcasts[device];
      var x := sessions[i];
      assert SessionInv(x);
      assert sessions[i := x] == sessions;
      if x.cancelled.Some? || source != i || !registered {
        return Forbidden;
      }
      if x.dialog.Some? {
        return BusyHere;
      }
      if !offerOk {
        return NotAcceptable;
      }
      if !readOk {
        return BadRequest;
      }
      var owned := Dialog(Building, false, false, false, false, false, true, false);
      sessions := sessions[i := x.(dialog := Some(owned), invited := true)];
      return Ok;
    }

    /** The loop over all broadcasts for the one whose dialog has this identity. */
    method FindDialog(id: nat) returns (r: Option<DeviceId>)
      requires MapInv(View())
      ensures r.Some? <==> Listed(View(), id) && sessions[id].dialog.Some?
      ensures r.Some? ==> r.value == sessions[id].device
    {
      var keys := broadcasts.Keys;
      while keys != {}
        invariant keys <= broadcasts.Keys
        invariant forall d | d in broadcasts && d !in keys :: !(broadcasts[d] == id && sessions[broadcasts[d]].dialog.Some?)
        decreases |keys|
      {
        var device :| device in keys;
        var i := broadcasts[device];
        if sessions[i].dialog.Some? && i == id {
          return Some(device);
        }
        keys := keys - {device};
      }
      return None;
    }

    /** handleBroadcastAck, lines 341-357; `registered` are its checks of recipient, state and source, `accepted` the verdict of ReadAck. */
    method HandleAck(id: nat, registered: bool, accepted: bool)
      requires Valid()
      modifies this`sessions
      ensures Valid()
      ensures View() == if registered && Listed(old(View()), id) then Step(old(View()), Handler(old(sessions)[id].device, Ack(accepted)))
                        else old(View())
    {
      if id < |sessions| {
        StepKeepsInv(View(), Handler(sessions[id].device, Ack(accepted)));
        assert sessions[id := sessions[id]] == sessions;
      }
      var found := FindDialog(id);
      if found.Some? && registered && accepted {
        var x := sessions[id];
        sessions := sessions[id := x.(dialog := Some(x.dialog.value.(ackSlot := true, ackRead := true)))];
      }
    }

    /** handleBye for a broadcast dialog, lines 359-378; `proper` are its checks of CSeq, recipient and source. */
    method HandleBye(id: nat, proper: bool) returns (ours: bool)
      requires Valid()
      modifies this`sessions
      ensures Valid()
      ensures ours <==> Listed(old(View()), id) && old(sessions)[id].dialog.Some?
      ensures View() == if ours && proper then Step(old(View()), Handler(old(sessions)[id].device, Bye)) else old(View())
    {
      var found := FindDialog(id);
      if found.Some? {
        CancelIsStep(View(), id, Bye, RemoteBye);
      }
      ours := found.Some?;
      if ours && proper {
        sessions := sessions[id := Cancelled(sessions[id], RemoteBye)];
      }
    }

    /** stopBroadcast up to its wait, lines 226-234; the session itself stands for its media token. */
    method StopBroadcast(device: DeviceId, media: nat) returns (found: bool)
      requires Valid()
      modifies this`sessions
      ensures Valid() && found == (device in broadcasts && broadcasts[device] == media)
      ensures View() == if found then Step(old(View()), Handler(device, Cancel(Stopped))) else old(View())
      ensures found ==> sessions[media].cancelled.Some?
    {
      found := device in broadcasts && broadcasts[device] == media;
      if found {
        CancelIsStep(View(), media, Cancel(Stopped), Stopped);
        sessions := sessions[media := Cancelled(sessions[media], Stopped)];
      }
    }

    /** The end of runBroadcast, lines 186-191. The identity check never fails. */
    method RemoveBroadcast(i: nat)
      requires Valid() && i < |sessions| && sessions[i].run.Removing?
      modifies this
      ensures Valid() && View() == Step(old(View()), Remove(i))
      ensures broadcasts == old(broadcasts) - {old(sessions)[i].device}
      ensures sessions[i].done && !sessions[i].fault
    {
      StepKeepsInv(View(), Remove(i));
      RemovedKeepsInv(View(), i);
      var x := sessions[i];
      if x.device in broadcasts && broadcasts[x.device] == i {
        broadcasts := broadcasts - {x.device};
      }
      sessions := sessions[i := x.(done := true, run := Ended, fault := x.fault || x.done)];
    }
  }
}
