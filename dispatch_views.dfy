/**
 * The two state-changing endpoints of dispatch/views.py:
 * `update_ambulance_location` and `dispatch_ambulance`. Unlike the
 * emergency views, neither catches a failing channel send: a raised send
 * ends the request in a server error after the changes are saved.
 */
module DispatchViews {
  import opened Wrappers
  import opened CoreModels
  import opened EmergencyModels
  import opened EmergencySerializers
  import opened Fleet
  import opened ChannelLayers
  import Notifications
  import EmergencyViews

  const LocationUpdateEvent: string := "LOCATION_UPDATE"
  const UnitDispatchedEvent: string := "UNIT_DISPATCHED"

  /** The ambulances by primary key. */
  ghost predicate IsFleet(ambulances: map<nat, Ambulance>)
    reads ambulances.Values
  {
    forall k :: k in ambulances ==> ambulances[k].id == k
  }

  /** The `ambulance_update` message about an ambulance. */
  function AmbulanceMessage(event: string, ambulance: AmbulanceView): GroupMessage
  {
    GroupMessage(Notifications.AmbulanceUpdateType, event, AmbulanceData(ambulance))
  }

  // ----- update_ambulance_location -----

  datatype LocationReply =
    | AmbulanceNotFound                     // 404
    | NotAssignedToAmbulance                // 403
    | LocationInvalid                       // 400
    | LocationNotifyRaised                  // 500, after the save
    | LocationUpdated(ambulance: AmbulanceView)

  /** The reply of `update_ambulance_location` for the ambulance found, the
    * validated location (`None` when the serializer rejects the data) and
    * whether the channel send raises. */
  function LocationReplyFor(found: Option<AmbulanceView>, user: UserInfo, location: Option<Location>,
                            sendRaises: bool): (r: LocationReply)
    ensures r == AmbulanceNotFound <==> found.None?
    ensures r == NotAssignedToAmbulance <==>
              found.Some? && IsParamedic(user) && found.value.assignedParamedic != Some(user.id)
    ensures r == LocationInvalid <==>
              found.Some? && (IsParamedic(user) ==> found.value.assignedParamedic == Some(user.id)) && location.None?
    ensures r == LocationNotifyRaised ==> location.Some? && sendRaises
    ensures r.LocationUpdated? ==> !sendRaises && r.ambulance == found.value.(location := location)
  {
    match found
    case None => AmbulanceNotFound
    case Some(ambulance) =>
      if IsParamedic(user) && ambulance.assignedParamedic != Some(user.id) then NotAssignedToAmbulance
      else if location.None? then LocationInvalid
      else if sendRaises then LocationNotifyRaised
      else LocationUpdated(ambulance.(location := location))
  }

  /** A dispatcher may move any ambulance; a paramedic only their own. */
  lemma LocationAuthorization(ambulance: AmbulanceView, user: UserInfo, loc: Location)
    ensures IsDispatcher(user) ==>
              LocationReplyFor(Some(ambulance), user, Some(loc), false) == LocationUpdated(ambulance.(location := Some(loc)))
    ensures IsParamedic(user) && ambulance.assignedParamedic != Some(user.id) ==>
              LocationReplyFor(Some(ambulance), user, Some(loc), false) == NotAssignedToAmbulance
  {
    RolesExclusive(user);
  }

  /** `update_ambulance_location`: 404, then 403, then 400; then the
    * location is saved and `LOCATION_UPDATE` sent to the dispatchers. */
  method UpdateAmbulanceLocation(ambulances: map<nat, Ambulance>, pk: nat, user: UserInfo,
                                 location: Option<Location>, layer: ChannelLayer?) returns (reply: LocationReply)
    requires IsFleet(ambulances)
    modifies ambulances.Values, layer
    ensures IsFleet(ambulances)
    ensures reply == LocationReplyFor(if pk in ambulances then Some(old(ambulances[pk].View())) else None,
                                      user, location, layer != null && old(layer.failing))
    ensures reply == AmbulanceNotFound || reply == NotAssignedToAmbulance || reply == LocationInvalid ==>
              forall k :: k in ambulances ==> ambulances[k].View() == old(ambulances[k].View())
    ensures !(reply == AmbulanceNotFound || reply == NotAssignedToAmbulance || reply == LocationInvalid) ==>
              && ambulances[pk].View() == old(ambulances[pk].View()).(location := location)
              && forall k :: k in ambulances && k != pk ==> ambulances[k].View() == old(ambulances[k].View())
    ensures layer != null ==> layer.groups == old(layer.groups) && layer.failing == old(layer.failing)
    ensures layer != null ==>
              layer.published == old(layer.published)
                + (if reply.LocationUpdated?
                   then [Publication(Notifications.DispatchersGroup, AmbulanceMessage(LocationUpdateEvent, reply.ambulance))]
                   else [])
  {
    if pk !in ambulances {
      return AmbulanceNotFound;
    }
    var ambulance := ambulances[pk];
    if IsParamedic(user) && ambulance.assignedParamedic != Some(user.id) {
      return NotAssignedToAmbulance;
    }
    if location.None? {
      return LocationInvalid;
    }
    assert forall k :: k in ambulances && k != pk ==> ambulances[k] != ambulance;
    ambulance.SetLocation(location.value);
    if layer != null {
      var raised := layer.GroupSend(Notifications.DispatchersGroup,
                                    AmbulanceMessage(LocationUpdateEvent, ambulance.View()));
      if raised {
        return LocationNotifyRaised;
      }
    }
    reply := LocationUpdated(ambulance.View());
  }

  // ----- dispatch_ambulance -----

  /** The validated `DispatchSerializer` data. */
  datatype DispatchRequest = DispatchRequest(emergencyCallId: nat, ambulanceId: nat, paramedicId: Option<nat>)

  /** `if paramedic_id:` — an absent id and the id 0 both mean no paramedic. */
  predicate NamesParamedic(request: DispatchRequest)
  {
    request.paramedicId.Some? && request.paramedicId.value != 0
  }

  /** The paramedic the call is given. */
  function ParamedicFor(request: DispatchRequest): (r: Option<nat>)
    ensures r.Some? <==> NamesParamedic(request)
    ensures r.Some? ==> request.paramedicId == r
  {
    if NamesParamedic(request) then request.paramedicId else None
  }

  /** The call after the dispatch: bound to the ambulance, the paramedic and
    * the dispatcher, and `update_status('DISPATCHED')` applied whatever its
    * state was. */
  function DispatchedCall(call: CallView, ambulanceId: nat, paramedic: Option<nat>, dispatcherId: nat,
                          now: Time): (r: CallView)
    ensures r.status == Dispatched
    ensures r.assignedAmbulance == Some(ambulanceId) && r.assignedParamedic == paramedic
    ensures r.dispatcher == Some(dispatcherId)
    ensures Dispatched in r.stamps
    ensures r.stamps[Dispatched] == if Dispatched in call.stamps then call.stamps[Dispatched] else now
    ensures forall s :: s != Dispatched ==> (s in r.stamps <==> s in call.stamps)
    ensures forall s :: s in call.stamps ==> r.stamps[s] == call.stamps[s]
    ensures r.updatedAt == Some(now)
    ensures r.(status := call.status, stamps := call.stamps, assignedAmbulance := call.assignedAmbulance,
               assignedParamedic := call.assignedParamedic, dispatcher := call.dispatcher,
               updatedAt := call.updatedAt) == call
  {
    call.(status := Dispatched, stamps := StampOnEntry(call.stamps, Dispatched, now),
          assignedAmbulance := Some(ambulanceId), assignedParamedic := paramedic, dispatcher := Some(dispatcherId),
          updatedAt := Some(now))
  }

  /** The view moves a call to `DISPATCHED` from any state, closed calls
    * included, which the status endpoint's validator would refuse. */
  lemma DispatchIgnoresCurrentStatus(call: CallView, ambulanceId: nat, paramedic: Option<nat>, dispatcherId: nat,
                                     now: Time)
    requires call.status == Closed
    ensures DispatchedCall(call, ambulanceId, paramedic, dispatcherId, now).status == Dispatched
    ensures ValidateStatus(Some(call.status), Dispatched).Err?
  {
  }

  datatype DispatchFailure =
    | CallMissing          // EmergencyCall.DoesNotExist
    | AmbulanceMissing     // Ambulance.DoesNotExist
    | ParamedicMissing     // User.DoesNotExist
    | AssignmentRaised     // assign_to_emergency raised
    | NotificationRaised   // a group_send raised, after the save
    | ResponseSerializerUnbound  // the response names an import that never ran

  datatype DispatchReply =
    | NotADispatcher                        // 403
    | DispatchInvalid                       // 400
    | DispatchError(cause: DispatchFailure) // 500
    | DispatchOk(call: CallView, ambulance: AmbulanceView)

  /** Whether the request gets as far as changing the call and the ambulance. */
  predicate Commits(user: UserInfo, request: Option<DispatchRequest>, call: Option<CallView>,
                    ambulance: Option<AmbulanceView>, users: set<nat>, outcome: AssignOutcome)
  {
    && IsDispatcher(user) && request.Some? && call.Some? && ambulance.Some?
    && (NamesParamedic(request.value) ==> request.value.paramedicId.value in users)
    && outcome.Assigned?
  }

  /** The reply of `dispatch_ambulance`, for the call and the ambulance found
    * under the requested ids, the known user ids, what
    * `assign_to_emergency` does and whether the channel send raises. */
  function DispatchReplyFor(user: UserInfo, request: Option<DispatchRequest>, call: Option<CallView>,
                            ambulance: Option<AmbulanceView>, users: set<nat>, outcome: AssignOutcome,
                            now: Time, sendRaises: bool): (r: DispatchReply)
    ensures r == NotADispatcher <==> !IsDispatcher(user)
    ensures r == DispatchInvalid <==> IsDispatcher(user) && request.None?
    ensures r == DispatchError(CallMissing) <==> IsDispatcher(user) && request.Some? && call.None?
    ensures r == DispatchError(NotificationRaised) <==> Commits(user, request, call, ambulance, users, outcome) && sendRaises
    ensures r.DispatchOk? <==> Commits(user, request, call, ambulance, users, outcome) && !sendRaises
    ensures r.DispatchOk? ==>
              && r.call == DispatchedCall(call.value, request.value.ambulanceId, ParamedicFor(request.value), user.id, now)
              && r.ambulance == ambulance.value.(assignedParamedic := outcome.assignedParamedic,
                                                 location := outcome.location, state := outcome.state)
  {
    if !IsDispatcher(user) then NotADispatcher
    else if request.None? then DispatchInvalid
    else if call.None? then DispatchError(CallMissing)
    else if ambulance.None? then DispatchError(AmbulanceMissing)
    else if NamesParamedic(request.value) && request.value.paramedicId.value !in users then DispatchError(ParamedicMissing)
    else if outcome.AssignRaised? then DispatchError(AssignmentRaised)
    else if sendRaises then DispatchError(NotificationRaised)
    else DispatchOk(DispatchedCall(call.value, request.value.ambulanceId, ParamedicFor(request.value), user.id, now),
                    ambulance.value.(assignedParamedic := outcome.assignedParamedic,
                                     location := outcome.location, state := outcome.state))
  }

  /** The view as written: `EmergencyCallSerializer` is imported only inside
    * `if channel_layer:` (line 116), so it is a local name that is unbound
    * when the response is built (line 128) with no channel layer, and the
    * dispatch, already saved, ends in a server error. */
  function DispatchReplyAsWritten(user: UserInfo, request: Option<DispatchRequest>, call: Option<CallView>,
                                  ambulance: Option<AmbulanceView>, users: set<nat>, outcome: AssignOutcome,
                                  now: Time, layerConfigured: bool, sendRaises: bool): (r: DispatchReply)
    ensures !layerConfigured ==> !r.DispatchOk?
    ensures r.DispatchOk? <==>
              layerConfigured && DispatchReplyFor(user, request, call, ambulance, users, outcome, now, sendRaises).DispatchOk?
    ensures r == DispatchError(ResponseSerializerUnbound) <==>
              !layerConfigured && Commits(user, request, call, ambulance, users, outcome)
  {
    if !layerConfigured && Commits(user, request, call, ambulance, users, outcome) then DispatchError(ResponseSerializerUnbound)
    else DispatchReplyFor(user, request, call, ambulance, users, outcome, now, layerConfigured && sendRaises)
  }

  /** Without a channel layer, a dispatch that the corrected view completes
    * is a server error as written. */
  lemma DispatchWithoutLayerCrashesAsWritten(user: UserInfo, request: DispatchRequest, call: CallView,
                                             ambulance: AmbulanceView, users: set<nat>, outcome: AssignOutcome, now: Time)
    requires Commits(user, Some(request), Some(call), Some(ambulance), users, outcome)
    ensures DispatchReplyAsWritten(user, Some(request), Some(call), Some(ambulance), users, outcome, now, false, false)
            == DispatchError(ResponseSerializerUnbound)
    ensures DispatchReplyFor(user, Some(request), Some(call), Some(ambulance), users, outcome, now, false).DispatchOk?
  {
  }

  /** Only a dispatcher dispatches, and the paramedic's role is never
    * looked at: any known user id, or none, is accepted. */
  lemma DispatchRoles(user: UserInfo, request: DispatchRequest, call: CallView, ambulance: AmbulanceView,
                      users: set<nat>, outcome: AssignOutcome, now: Time)
    requires outcome.Assigned?
    ensures !IsDispatcher(user) ==>
              DispatchReplyFor(user, Some(request), Some(call), Some(ambulance), users, outcome, now, false) == NotADispatcher
    ensures IsDispatcher(user) && (request.paramedicId == None || request.paramedicId == Some(0)) ==>
              DispatchReplyFor(user, Some(request), Some(call), Some(ambulance), users, outcome, now, false).DispatchOk?
              && ParamedicFor(request) == None
  {
  }

  /** The two messages of a dispatch, in order: the ambulance first, then
    * the call, both to the dispatchers and none to a paramedic group. */
  function DispatchSends(ambulance: AmbulanceView, call: CallView): (r: seq<Publication>)
    ensures |r| == 2
    ensures forall k :: 0 <= k < |r| ==> r[k].group == Notifications.DispatchersGroup
    ensures r[0].message == AmbulanceMessage(UnitDispatchedEvent, ambulance)
    ensures r[1].message == EmergencyViews.CallMessage(EmergencyViews.StatusUpdateEvent, call)
  {
    [Publication(Notifications.DispatchersGroup, AmbulanceMessage(UnitDispatchedEvent, ambulance)),
     Publication(Notifications.DispatchersGroup, EmergencyViews.CallMessage(EmergencyViews.StatusUpdateEvent, call))]
  }

  /** Lines 91-97: `assign_to_emergency`, the three assignments and
    * `update_status('DISPATCHED')`. */
  method CommitDispatch(call: EmergencyCall, ambulance: Ambulance, outcome: AssignOutcome, paramedic: Option<nat>,
                        dispatcherId: nat, now: Time, hex: string)
    requires call.Valid() && !call.adding && IsUuidHex(hex) && outcome.Assigned?
    modifies call, ambulance
    ensures call.Valid() && !call.adding
    ensures call.View() == DispatchedCall(old(call.View()), ambulance.id, paramedic, dispatcherId, now)
    ensures ambulance.View() == old(ambulance.View()).(assignedParamedic := outcome.assignedParamedic,
                                                       location := outcome.location, state := outcome.state)
  {
    ambulance.AssignToEmergency(outcome);
    call.assignedAmbulance := Some(ambulance.id);
    call.assignedParamedic := paramedic;
    call.dispatcher := Some(dispatcherId);
    call.UpdateStatus(Dispatched, now, hex);
  }

  /** Lines 103-124: the two sends, the second only if the first did not raise. */
  method SendDispatchNotifications(layer: ChannelLayer, ambulance: AmbulanceView, call: CallView) returns (raised: bool)
    modifies layer
    ensures raised == old(layer.failing)
    ensures layer.groups == old(layer.groups) && layer.failing == old(layer.failing)
    ensures layer.published == old(layer.published) + (if raised then [] else DispatchSends(ambulance, call))
  {
    raised := layer.GroupSend(Notifications.DispatchersGroup, AmbulanceMessage(UnitDispatchedEvent, ambulance));
    if raised {
      return;
    }
    raised := layer.GroupSend(Notifications.DispatchersGroup,
                              EmergencyViews.CallMessage(EmergencyViews.StatusUpdateEvent, call));
  }

  /** `dispatch_ambulance`, with the response serialiser in scope whether or
    * not a channel layer is configured. Nothing changes before the call, the ambulance
    * and the paramedic are all found and `assign_to_emergency` succeeds;
    * after that the two changed records stay changed whatever the sends do. */
  method DispatchAmbulance(calls: map<nat, EmergencyCall>, ambulances: map<nat, Ambulance>, users: set<nat>,
                           user: UserInfo, request: Option<DispatchRequest>, outcome: AssignOutcome,
                           layer: ChannelLayer?, now: Time, hex: string) returns (reply: DispatchReply)
    requires EmergencyViews.IsTable(calls) && IsFleet(ambulances) && IsUuidHex(hex)
    modifies calls.Values, ambulances.Values, layer
    ensures EmergencyViews.IsTable(calls) && IsFleet(ambulances)
    ensures reply == DispatchReplyFor(user, request,
                       if request.Some? && request.value.emergencyCallId in calls
                       then Some(old(calls[request.value.emergencyCallId].View())) else None,
                       if request.Some? && request.value.ambulanceId in ambulances
                       then Some(old(ambulances[request.value.ambulanceId].View())) else None,
                       users, outcome, now, layer != null && old(layer.failing))
    ensures reply == NotADispatcher || reply == DispatchInvalid || (reply.DispatchError? && reply.cause != NotificationRaised) ==>
              && (forall k :: k in calls ==> calls[k].View() == old(calls[k].View()))
              && (forall k :: k in ambulances ==> ambulances[k].View() == old(ambulances[k].View()))
    ensures reply.DispatchOk? || reply == DispatchError(NotificationRaised) ==>
              && request.Some? && request.value.emergencyCallId in calls && request.value.ambulanceId in ambulances
              && calls[request.value.emergencyCallId].View()
                 == DispatchedCall(old(calls[request.value.emergencyCallId].View()), request.value.ambulanceId,
                                   ParamedicFor(request.value), user.id, now)
              && ambulances[request.value.ambulanceId].View()
                 == old(ambulances[request.value.ambulanceId].View()).(assignedParamedic := outcome.assignedParamedic,
                                                                       location := outcome.location,
                                                                       state := outcome.state)
              && (forall k :: k in calls && k != request.value.emergencyCallId ==> calls[k].View() == old(calls[k].View()))
              && (forall k :: k in ambulances && k != request.value.ambulanceId ==>
                    ambulances[k].View() == old(ambulances[k].View()))
    ensures layer != null ==> layer.groups == old(layer.groups) && layer.failing == old(layer.failing)
    ensures layer != null ==>
              layer.published == old(layer.published)
                + (if reply.DispatchOk? then DispatchSends(reply.ambulance, reply.call) else [])
  {
    if !IsDispatcher(user) {
      return NotADispatcher;
    }
    if request.None? {
      return DispatchInvalid;
    }
    var req := request.value;
    if req.emergencyCallId !in calls {
      return DispatchError(CallMissing);
    }
    if req.ambulanceId !in ambulances {
      return DispatchError(AmbulanceMissing);
    }
    if NamesParamedic(req) && req.paramedicId.value !in users {
      return DispatchError(ParamedicMissing);
    }
    if outcome.AssignRaised? {
      return DispatchError(AssignmentRaised);
    }
    reply := CommitAndAnnounce(calls, ambulances, req, outcome, user.id, layer, now, hex);
  }

  /** Lines 91-128 once every lookup has succeeded: the commit, then the two
    * sends if a layer is configured, then the response. */
  method CommitAndAnnounce(calls: map<nat, EmergencyCall>, ambulances: map<nat, Ambulance>, req: DispatchRequest,
                           outcome: AssignOutcome, dispatcherId: nat, layer: ChannelLayer?, now: Time, hex: string)
    returns (reply: DispatchReply)
    requires EmergencyViews.IsTable(calls) && IsFleet(ambulances) && IsUuidHex(hex) && outcome.Assigned?
    requires req.emergencyCallId in calls && req.ambulanceId in ambulances
    modifies calls[req.emergencyCallId], ambulances[req.ambulanceId], layer
    ensures EmergencyViews.IsTable(calls) && IsFleet(ambulances)
    ensures calls[req.emergencyCallId].View()
            == DispatchedCall(old(calls[req.emergencyCallId].View()), req.ambulanceId, ParamedicFor(req), dispatcherId, now)
    ensures ambulances[req.ambulanceId].View()
            == old(ambulances[req.ambulanceId].View()).(assignedParamedic := outcome.assignedParamedic,
                                                        location := outcome.location, state := outcome.state)
    ensures forall k :: k in calls && k != req.emergencyCallId ==> calls[k].View() == old(calls[k].View())
    ensures forall k :: k in ambulances && k != req.ambulanceId ==> ambulances[k].View() == old(ambulances[k].View())
    ensures reply == if layer != null && old(layer.failing) then DispatchError(NotificationRaised)
                     else DispatchOk(calls[req.emergencyCallId].View(), ambulances[req.ambulanceId].View())
    ensures layer != null ==> layer.groups == old(layer.groups) && layer.failing == old(layer.failing)
    ensures layer != null ==>
              layer.published == old(layer.published)
                + (if reply.DispatchOk? then DispatchSends(reply.ambulance, reply.call) else [])
  {
    var call := calls[req.emergencyCallId];
    var ambulance := ambulances[req.ambulanceId];
    assert forall k :: k in calls && k != req.emergencyCallId ==> calls[k] != call;
    assert forall k :: k in ambulances && k != req.ambulanceId ==> ambulances[k] != ambulance;
    CommitDispatch(call, ambulance, outcome, ParamedicFor(req), dispatcherId, now, hex);
    var callAfter, unitAfter := call.View(), ambulance.View();
    var raised := false;
    if layer != null {
      raised := SendDispatchNotifications(layer, unitAfter, callAfter);
    }
    assert call.View() == callAfter && ambulance.View() == unitAfter;
    reply := if raised then DispatchError(NotificationRaised) else DispatchOk(callAfter, unitAfter);
    forall k | k in calls && k != req.emergencyCallId ensures calls[k].View() == old(calls[k].View()) && calls[k].Valid() {
      assert calls[k] != call;
    }
    forall k | k in ambulances && k != req.ambulanceId ensures ambulances[k].View() == old(ambulances[k].View()) {
      assert ambulances[k] != ambulance;
    }
  }
}
