/**
 * The part of an ambulance and a hospital the core reads or writes.
 * dispatch/models.py is not part of this model: what `assign_to_emergency`
 * does to an ambulance is unknown here, so its effect is an input
 * (`AssignOutcome`) chosen by the environment, with no promise attached.
 */
module Fleet {
  import opened Wrappers

  /** A position; its numeric meaning is not modelled. */
  datatype Location = Location(latitude: int, longitude: int)

  datatype AmbulanceView = AmbulanceView(
    id: nat, assignedParamedic: Option<nat>, location: Option<Location>, state: string)

  datatype HospitalView = HospitalView(id: nat, detail: string)

  /** What `assign_to_emergency` did: every ambulance field it left behind,
    * or an exception. */
  datatype AssignOutcome =
    | Assigned(assignedParamedic: Option<nat>, location: Option<Location>, state: string)
    | AssignRaised

  class Ambulance {
    const id: nat
    var assignedParamedic: Option<nat>
    var location: Option<Location>
    /** Every field of the ambulance this model does not name. */
    var state: string

    constructor (id: nat, assignedParamedic: Option<nat>, location: Option<Location>, state: string)
      ensures this.id == id && this.assignedParamedic == assignedParamedic
      ensures this.location == location && this.state == state
    {
      this.id := id;
      this.assignedParamedic := assignedParamedic;
      this.location := location;
      this.state := state;
    }

    function View(): AmbulanceView
      reads this
    {
      AmbulanceView(id, assignedParamedic, location, state)
    }

    /** `assign_to_emergency` with the outcome the environment chose. */
    method AssignToEmergency(outcome: AssignOutcome)
      requires outcome.Assigned?
      modifies this
      ensures assignedParamedic == outcome.assignedParamedic && state == outcome.state
      ensures location == outcome.location
    {
      assignedParamedic := outcome.assignedParamedic;
      location := outcome.location;
      state := outcome.state;
    }

    /** Saving a valid location update. */
    method SetLocation(loc: Location)
      modifies this
      ensures location == Some(loc)
      ensures assignedParamedic == old(assignedParamedic) && state == old(state)
    {
      location := Some(loc);
    }
  }
}
