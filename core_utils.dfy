/**
 * `send_channel_notification` of core/utils.py and its three wrappers: the
 * named group always gets the message first; the group `paramedic_{id}`
 * gets the same message second whenever an id is given (0 included); a
 * missing channel layer sends nothing; and an exception from a send is
 * swallowed, so the caller always returns normally.
 */
module Notifications {
  import opened Wrappers
  import Text
  import opened ChannelLayers

  const DispatchersGroup: string := "dispatchers"
  const ParamedicGroupPrefix: string := "paramedic_"

  const EmergencyUpdateType: string := "emergency_update"
  const AmbulanceUpdateType: string := "ambulance_update"
  const HospitalUpdateType: string := "hospital_update"

  /** The personal group of a paramedic, `paramedic_{id}`. */
  function ParamedicGroup(id: int): string
  {
    ParamedicGroupPrefix + Text.IntToString(id)
  }

  /** Different ids name different personal groups. */
  lemma ParamedicGroupInjective(a: int, b: int)
    ensures ParamedicGroup(a) == ParamedicGroup(b) ==> a == b
  {
    if ParamedicGroup(a) == ParamedicGroup(b) {
      assert ParamedicGroup(a)[|ParamedicGroupPrefix|..] == Text.IntToString(a);
      assert ParamedicGroup(b)[|ParamedicGroupPrefix|..] == Text.IntToString(b);
      Text.IntToStringInjective(a, b);
    }
  }

  /** No personal group is the dispatchers' group. */
  lemma ParamedicGroupIsNotDispatchers(id: int)
    ensures ParamedicGroup(id) != DispatchersGroup
  {
    assert ParamedicGroup(id)[0] == 'p';
  }

  /** The sends `send_channel_notification` makes, in order, when none fails. */
  function NotificationSends(group: string, msgType: string, event: string, data: Payload, paramedicId: Option<int>): (r: seq<Publication>)
    ensures |r| == (if paramedicId.Some? then 2 else 1)
    ensures r[0].group == group
    ensures forall k :: 0 <= k < |r| ==> r[k].message == GroupMessage(msgType, event, data)
    ensures paramedicId.Some? ==> r[1].group == ParamedicGroup(paramedicId.value)
  {
    var message := GroupMessage(msgType, event, data);
    [Publication(group, message)]
      + (if paramedicId.Some? then [Publication(ParamedicGroup(paramedicId.value), message)] else [])
  }

  /** `send_channel_notification`; `layer == null` stands for no configured
    * channel layer. It has no error result: every failure is swallowed. */
  method SendChannelNotification(layer: ChannelLayer?, group: string, msgType: string, event: string,
                                 data: Payload, paramedicId: Option<int>)
    modifies layer
    ensures layer != null ==> layer.groups == old(layer.groups) && layer.failing == old(layer.failing)
    ensures layer != null && old(layer.failing) ==> layer.published == old(layer.published)
    ensures layer != null && !old(layer.failing) ==>
              layer.published == old(layer.published) + NotificationSends(group, msgType, event, data, paramedicId)
  {
    if layer == null {
      return;
    }
    var message := GroupMessage(msgType, event, data);
    var raised := layer.GroupSend(group, message);
    if raised {
      return;
    }
    if paramedicId.Some? {
      raised := layer.GroupSend(ParamedicGroup(paramedicId.value), message);
    }
  }

  /** `send_emergency_notification`: the dispatchers, with type
    * `emergency_update`, and the paramedic's own group when an id is given. */
  method SendEmergencyNotification(layer: ChannelLayer?, event: string, data: Payload, paramedicId: Option<int>)
    modifies layer
    ensures layer != null ==> layer.groups == old(layer.groups) && layer.failing == old(layer.failing)
    ensures layer != null && old(layer.failing) ==> layer.published == old(layer.published)
    ensures layer != null && !old(layer.failing) ==>
              layer.published == old(layer.published) + NotificationSends(DispatchersGroup, EmergencyUpdateType, event, data, paramedicId)
  {
    SendChannelNotification(layer, DispatchersGroup, EmergencyUpdateType, event, data, paramedicId);
  }

  /** `send_ambulance_notification`: the dispatchers only, type `ambulance_update`. */
  method SendAmbulanceNotification(layer: ChannelLayer?, event: string, data: Payload)
    modifies layer
    ensures layer != null ==> layer.groups == old(layer.groups) && layer.failing == old(layer.failing)
    ensures layer != null && old(layer.failing) ==> layer.published == old(layer.published)
    ensures layer != null && !old(layer.failing) ==>
              layer.published == old(layer.published) + [Publication(DispatchersGroup, GroupMessage(AmbulanceUpdateType, event, data))]
  {
    SendChannelNotification(layer, DispatchersGroup, AmbulanceUpdateType, event, data, None);
  }

  /** `send_hospital_notification`: the dispatchers only, type `hospital_update`. */
  method SendHospitalNotification(layer: ChannelLayer?, event: string, data: Payload)
    modifies layer
    ensures layer != null ==> layer.groups == old(layer.groups) && layer.failing == old(layer.failing)
    ensures layer != null && old(layer.failing) ==> layer.published == old(layer.published)
    ensures layer != null && !old(layer.failing) ==>
              layer.published == old(layer.published) + [Publication(DispatchersGroup, GroupMessage(HospitalUpdateType, event, data))]
  {
    SendChannelNotification(layer, DispatchersGroup, HospitalUpdateType, event, data, None);
  }
}
