/**
 * The two websocket consumers of emergencies/consumers.py.
 *
 * A dispatcher connection is admitted only for an authenticated dispatcher:
 * it joins `dispatchers`, is accepted and is sent the initial snapshot first.
 * A paramedic connection joins the personal group `paramedic_{id}` and gets
 * no snapshot. Both answer `ping` with one `pong`, forward group events with
 * their type, event and data unchanged, and leave their group on disconnect.
 *
 * Incoming text is classified the way `json.loads` and `.get('type')`
 * treat it. The snapshot's database reads are one input, with the message
 * of the exception when one of them raises.
 */
module Consumers {
  import opened Wrappers
  import opened CoreModels
  import opened EmergencyModels
  import Fleet
  import opened ChannelLayers
  import Notifications

  /** What a received text frame decodes to. */
  datatype Incoming =
    | Malformed                           // json.loads raises JSONDecodeError
    | NotAnObject                         // valid JSON without a `.get` (a list, a number, ...)
    | JsonObject(msgType: Option<string>) // an object, with its "type" entry if any

  /** Frames sent to the websocket client. */
  datatype Frame =
    | Pong
    | InitialData(emergencies: seq<CallView>, ambulances: seq<Fleet.AmbulanceView>, hospitals: seq<Fleet.HospitalView>)
    | ErrorFrame(message: string)
    | Update(msgType: string, event: string, data: Payload)

  datatype ConnState = Connecting | Open | Disconnected

  /** The three reads of `send_initial_data`; `failure` is the message of
    * the exception when one of them raises. */
  datatype Database = Database(
    calls: seq<CallView>,
    ambulances: seq<Fleet.AmbulanceView>,
    hospitals: seq<Fleet.HospitalView>,
    failure: Option<string>)

  const PingType: string := "ping"
  const GetInitialDataType: string := "get_initial_data"

  /** The states `get_active_emergencies` selects: RECEIVED to TRANSPORTING. */
  predicate InSnapshot(s: Status)
  {
    s in {Received, Dispatched, EnRoute, OnScene, Transporting}
  }

  /** `get_active_emergencies`: the calls in RECEIVED to TRANSPORTING,
    * latest received first. */
  function ActiveEmergencies(table: seq<CallView>): (r: seq<CallView>)
    ensures SortedByReceivedDesc(r)
    ensures forall c :: c in r <==> c in table && (IsPending(c.status) || IsActive(c.status))
    ensures forall c :: multiset(r)[c] == if IsPending(c.status) || IsActive(c.status) then multiset(table)[c] else 0
  {
    OrderedQuery(table, (c: CallView) => InSnapshot(c.status))
  }

  /** The frame `send_initial_data` sends. */
  function InitialDataFrame(db: Database): (f: Frame)
    ensures db.failure.Some? <==> f.ErrorFrame?
    ensures db.failure.Some? ==> f == ErrorFrame(db.failure.value)
    ensures db.failure.None? ==> f.InitialData? && f.ambulances == db.ambulances && f.hospitals == db.hospitals
    ensures f.InitialData? ==> forall c :: c in f.emergencies <==> c in db.calls && !IsCompleted(c.status)
    ensures f.InitialData? ==>
              forall c :: multiset(f.emergencies)[c] == if !IsCompleted(c.status) then multiset(db.calls)[c] else 0
  {
    match db.failure
    case Some(msg) => ErrorFrame(msg)
    case None => InitialData(ActiveEmergencies(db.calls), db.ambulances, db.hospitals)
  }

  /** A dispatcher who connects after a call has advanced sees the call in
    * its current state in the first frame, as long as it is not completed. */
  lemma SnapshotShowsCurrentState(db: Database, c: CallView)
    requires db.failure.None? && c in db.calls && !IsCompleted(c.status)
    ensures InitialDataFrame(db).InitialData? && c in InitialDataFrame(db).emergencies
  {
  }

  /** The connect admission test of `DispatcherConsumer`. */
  predicate AdmitsDispatcher(p: Principal)
  {
    p.Authenticated? && IsDispatcher(p.user)
  }

  /** The connect admission test of `ParamedicConsumer`. */
  predicate AdmitsParamedic(p: Principal)
  {
    p.Authenticated? && IsParamedic(p.user)
  }

  /** The group-message types each consumer has a handler for. */
  predicate DispatcherHandles(msgType: string)
  {
    msgType == Notifications.EmergencyUpdateType || msgType == Notifications.AmbulanceUpdateType
    || msgType == Notifications.HospitalUpdateType
  }

  predicate ParamedicHandles(msgType: string)
  {
    msgType == Notifications.EmergencyUpdateType
  }

  class DispatcherConsumer {
    const channelName: string
    var groupName: Option<string>
    var state: ConnState
    var sent: seq<Frame>

    constructor (channelName: string)
      ensures this.channelName == channelName
      ensures groupName.None? && state == Connecting && sent == []
    {
      this.channelName := channelName;
      groupName := None;
      state := Connecting;
      sent := [];
    }

    /** `connect`: an anonymous user or a non-dispatcher is closed without
      * joining; a dispatcher joins `dispatchers`, is accepted, and the
      * snapshot (or the error frame) is the first frame it receives. */
    method Connect(user: Principal, layer: ChannelLayer, db: Database)
      requires state == Connecting && groupName.None? && sent == []
      modifies this, layer
      ensures !AdmitsDispatcher(user) ==>
                state == Disconnected && groupName.None? && sent == [] && layer.groups == old(layer.groups)
      ensures AdmitsDispatcher(user) ==>
                && state == Open
                && groupName == Some(Notifications.DispatchersGroup)
                && layer.groups == old(layer.groups)[Notifications.DispatchersGroup :=
                     Members(old(layer.groups), Notifications.DispatchersGroup) + {channelName}]
                && sent == [InitialDataFrame(db)]
      ensures layer.published == old(layer.published) && layer.failing == old(layer.failing)
    {
      if !AdmitsDispatcher(user) {
        state := Disconnected;
        return;
      }
      groupName := Some(Notifications.DispatchersGroup);
      layer.GroupAdd(Notifications.DispatchersGroup, channelName);
      state := Open;
      SendInitialData(db);
    }

    /** `send_initial_data`. */
    method SendInitialData(db: Database)
      modifies this`sent
      ensures sent == old(sent) + [InitialDataFrame(db)]
    {
      sent := sent + [InitialDataFrame(db)];
    }

    /** `disconnect`: the channel leaves its group and no other membership
      * changes. A connection refused in `connect` never set a group; the
      * source then fails on the missing attribute (see
      * `DispatcherDisconnectAsWritten`), and this model does nothing. */
    method Disconnect(layer: ChannelLayer)
      modifies this`state, layer
      ensures state == Disconnected
      ensures groupName.Some? ==> layer.groups == old(layer.groups)[groupName.value :=
                Members(old(layer.groups), groupName.value) - {channelName}]
      ensures groupName.None? ==> layer.groups == old(layer.groups)
      ensures layer.published == old(layer.published) && layer.failing == old(layer.failing)
    {
      if groupName.Some? {
        layer.GroupDiscard(groupName.value, channelName);
      }
      state := Disconnected;
    }

    /** `receive`: `ping` gets one `pong`, `get_initial_data` one snapshot,
      * anything else nothing. Malformed JSON is ignored; JSON that is not an
      * object makes `.get` raise, and that exception is not caught. */
    method Receive(text: Incoming, db: Database) returns (raised: bool)
      requires state == Open
      modifies this`sent
      ensures raised <==> text.NotAnObject?
      ensures text == JsonObject(Some(PingType)) ==> sent == old(sent) + [Pong]
      ensures text == JsonObject(Some(GetInitialDataType)) ==> sent == old(sent) + [InitialDataFrame(db)]
      ensures text != JsonObject(Some(PingType)) && text != JsonObject(Some(GetInitialDataType)) ==> sent == old(sent)
    {
      raised := false;
      match text
      case Malformed =>
      case NotAnObject =>
        raised := true;
      case JsonObject(t) =>
        if t == Some(PingType) {
          sent := sent + [Pong];
        } else if t == Some(GetInitialDataType) {
          SendInitialData(db);
        }
    }

    /** A group message reaching this channel: the handler named by its type
      * forwards type, event and data unchanged; a type without a handler
      * raises. `hospital_update` is forwarded here although the source has
      * no handler for it (see `DispatcherHandlesAsWritten`). */
    method HandleGroupMessage(message: GroupMessage) returns (raised: bool)
      modifies this`sent
      ensures raised <==> !DispatcherHandles(message.msgType)
      ensures sent == if raised then old(sent)
                      else old(sent) + [Update(message.msgType, message.event, message.data)]
    {
      raised := !DispatcherHandles(message.msgType);
      if !raised {
        sent := sent + [Update(message.msgType, message.event, message.data)];
      }
    }
  }

  class ParamedicConsumer {
    const channelName: string
    var groupName: Option<string>
    var state: ConnState
    var sent: seq<Frame>

    constructor (channelName: string)
      ensures this.channelName == channelName
      ensures groupName.None? && state == Connecting && sent == []
    {
      this.channelName := channelName;
      groupName := None;
      state := Connecting;
      sent := [];
    }

    /** `connect`: only a paramedic is admitted, into `paramedic_{user.id}`;
      * nothing is sent on connect. */
    method Connect(user: Principal, layer: ChannelLayer)
      requires state == Connecting && groupName.None?
      modifies this, layer
      ensures sent == old(sent)
      ensures !AdmitsParamedic(user) ==> state == Disconnected && groupName.None? && layer.groups == old(layer.groups)
      ensures AdmitsParamedic(user) ==>
                && state == Open
                && groupName == Some(Notifications.ParamedicGroup(user.user.id))
                && layer.groups == old(layer.groups)[groupName.value := Members(old(layer.groups), groupName.value) + {channelName}]
      ensures layer.published == old(layer.published) && layer.failing == old(layer.failing)
    {
      if !AdmitsParamedic(user) {
        state := Disconnected;
        return;
      }
      var g := Notifications.ParamedicGroup(user.user.id);
      groupName := Some(g);
      layer.GroupAdd(g, channelName);
      state := Open;
    }

    /** `disconnect`: leaves the group when one was joined. */
    method Disconnect(layer: ChannelLayer)
      modifies this`state, layer
      ensures state == Disconnected
      ensures groupName.Some? ==> layer.groups == old(layer.groups)[groupName.value :=
                Members(old(layer.groups), groupName.value) - {channelName}]
      ensures groupName.None? ==> layer.groups == old(layer.groups)
      ensures layer.published == old(layer.published) && layer.failing == old(layer.failing)
    {
      if groupName.Some? {
        layer.GroupDiscard(groupName.value, channelName);
      }
      state := Disconnected;
    }

    /** `receive`: `ping` gets one `pong`; every exception is swallowed. */
    method Receive(text: Incoming)
      requires state == Open
      modifies this`sent
      ensures sent == if text == JsonObject(Some(PingType)) then old(sent) + [Pong] else old(sent)
    {
      if text == JsonObject(Some(PingType)) {
        sent := sent + [Pong];
      }
    }

    /** Only `emergency_update` has a handler; it forwards unchanged. */
    method HandleGroupMessage(message: GroupMessage) returns (raised: bool)
      modifies this`sent
      ensures raised <==> !ParamedicHandles(message.msgType)
      ensures sent == if raised then old(sent)
                      else old(sent) + [Update(message.msgType, message.event, message.data)]
    {
      raised := !ParamedicHandles(message.msgType);
      if !raised {
        sent := sent + [Update(message.msgType, message.event, message.data)];
      }
    }
  }

  /** The notification helpers' messages to a paramedic's group always
    * carry a type its consumer handles, and name the group the consumer of
    * that paramedic joined and no other paramedic's. */
  lemma EmergencyNotificationReachesParamedic(id: nat, other: nat, event: string, data: Payload)
    requires other != id
    ensures var sends := Notifications.NotificationSends(Notifications.DispatchersGroup,
              Notifications.EmergencyUpdateType, event, data, Some(id as int));
            && sends[1].group == Notifications.ParamedicGroup(id)
            && sends[1].group != Notifications.ParamedicGroup(other)
            && ParamedicHandles(sends[1].message.msgType)
            && DispatcherHandles(sends[0].message.msgType)
  {
    Notifications.ParamedicGroupInjective(id, other);
  }

  // ---- The source as written, where it differs from the model above ----

  /** Outcome of `DispatcherConsumer.disconnect` as written: it reads
    * `self.group_name`, which a refused `connect` never sets. */
  datatype DisconnectOutcome = Left(group: string) | AttributeError

  function DispatcherDisconnectAsWritten(groupName: Option<string>): (r: DisconnectOutcome)
    ensures r.AttributeError? <==> groupName.None?
  {
    match groupName
    case Some(g) => Left(g)
    case None => AttributeError
  }

  /** An anonymous connection is closed in `connect` without a group name,
    * so the disconnect that follows raises in the source. */
  lemma RefusedDispatcherDisconnectRaises()
    ensures !AdmitsDispatcher(Anonymous)
    ensures DispatcherDisconnectAsWritten(None) == AttributeError
  {
  }

  /** The handler test of `DispatcherConsumer` as written: no
    * `hospital_update` method. */
  predicate DispatcherHandlesAsWritten(msgType: string): (r: bool)
    ensures r ==> DispatcherHandles(msgType)
    ensures msgType == Notifications.HospitalUpdateType ==> !r
  {
    msgType == Notifications.EmergencyUpdateType || msgType == Notifications.AmbulanceUpdateType
  }

  /** `send_hospital_notification` sends `hospital_update` to the
    * dispatchers, which the dispatcher consumer as written cannot handle;
    * with the handler added every type sent to the dispatchers is handled. */
  lemma HospitalUpdateUnhandledAsWritten(event: string, data: Payload)
    ensures var sends := Notifications.NotificationSends(Notifications.DispatchersGroup,
              Notifications.HospitalUpdateType, event, data, None);
            && sends[0].group == Notifications.DispatchersGroup
            && !DispatcherHandlesAsWritten(sends[0].message.msgType)
            && DispatcherHandles(sends[0].message.msgType)
  {
  }
}
