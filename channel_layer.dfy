/**
 * The channel layer as the core uses it: named groups holding channel
 * names, and an outbox of the messages sent to groups, in send order.
 * While the layer is failing every send raises and delivers nothing.
 */
module ChannelLayers {
  import EmergencyModels
  import Fleet

  /** The serialized record a message carries. */
  datatype Payload =
    | CallData(call: EmergencyModels.CallView)
    | AmbulanceData(ambulance: Fleet.AmbulanceView)
    | HospitalData(hospital: Fleet.HospitalView)

  /** The `{type, event, data}` dictionary handed to `group_send`. */
  datatype GroupMessage = GroupMessage(msgType: string, event: string, data: Payload)

  datatype Publication = Publication(group: string, message: GroupMessage)

  function Members(groups: map<string, set<string>>, group: string): set<string>
  {
    if group in groups then groups[group] else {}
  }

  class ChannelLayer {
    var groups: map<string, set<string>>
    var published: seq<Publication>
    var failing: bool

    constructor (failing: bool)
      ensures groups == map[] && published == [] && this.failing == failing
    {
      groups := map[];
      published := [];
      this.failing := failing;
    }

    /** `group_add`. */
    method GroupAdd(group: string, channel: string)
      modifies this
      ensures groups == old(groups)[group := Members(old(groups), group) + {channel}]
      ensures published == old(published) && failing == old(failing)
    {
      groups := groups[group := Members(groups, group) + {channel}];
    }

    /** `group_discard`. */
    method GroupDiscard(group: string, channel: string)
      modifies this
      ensures groups == old(groups)[group := Members(old(groups), group) - {channel}]
      ensures published == old(published) && failing == old(failing)
    {
      groups := groups[group := Members(groups, group) - {channel}];
    }

    /** `group_send`: raises while the layer is failing, otherwise appends
      * the message to the outbox. */
    method GroupSend(group: string, message: GroupMessage) returns (raised: bool)
      modifies this
      ensures raised == old(failing)
      ensures published == if raised then old(published) else old(published) + [Publication(group, message)]
      ensures groups == old(groups) && failing == old(failing)
    {
      raised := failing;
      if !raised {
        published := published + [Publication(group, message)];
      }
    }
  }
}
