/**
 * `EmergencyCallStatusUpdateSerializer.validate_status` of
 * emergencies/serializers.py: a successor table in which every state allows
 * only the next state of the chain and `CLOSED` allows nothing. Without an
 * existing call the value passes unchanged.
 */
module EmergencySerializers {
  import opened Wrappers
  import opened EmergencyModels

  /** The `valid_transitions` table; `CLOSED` has no entry, so the lookup
    * falls back to the empty list. */
  function ValidTransitions(current: Status): (r: seq<Status>)
    ensures |r| <= 1
    ensures forall t :: t in r <==> Successor(current) == Some(t)
  {
    match current
    case Received => [Dispatched]
    case Dispatched => [EnRoute]
    case EnRoute => [OnScene]
    case OnScene => [Transporting]
    case Transporting => [AtHospital]
    case AtHospital => [Closed]
    case Closed => []
  }

  /** The next state of the chain, if any: the reference the table is
    * checked against. */
  function Successor(s: Status): (r: Option<Status>)
    ensures r.Some? <==> Index(s) + 1 < |Chain|
    ensures r.Some? ==> Index(r.value) == Index(s) + 1
  {
    if Index(s) + 1 < |Chain| then Some(Chain[Index(s) + 1]) else None
  }

  datatype StatusError =
    | NotAChoice(value: string)
    | CannotTransition(from: Status, to: Status)

  /** `validate_status`. */
  function ValidateStatus(instance: Option<Status>, value: Status): (r: Result<Status, StatusError>)
    ensures r.Ok? ==> r.value == value
    ensures instance.None? ==> r.Ok?
    ensures instance.Some? ==> (r.Ok? <==> Index(value) == Index(instance.value) + 1)
    ensures r.Err? ==> r.error == CannotTransition(instance.value, value)
  {
    match instance
    case None => Ok(value)
    case Some(current) =>
      if value in ValidTransitions(current) then Ok(value)
      else Err(CannotTransition(current, value))
  }

  /** The `status` field of the serializer: the choice check of the model
    * field first, then `validate_status`. */
  function ValidateStatusField(instance: Option<Status>, raw: string): (r: Result<Status, StatusError>)
    ensures r.Ok? ==> Code(r.value) == raw
    ensures ParseStatus(raw).None? ==> r == Err(NotAChoice(raw))
    ensures ParseStatus(raw).Some? ==> r == ValidateStatus(instance, ParseStatus(raw).value)
  {
    match ParseStatus(raw)
    case None => Err(NotAChoice(raw))
    case Some(s) => ValidateStatus(instance, s)
  }

  /** The table accepts exactly the chain successor. */
  lemma TableIsSuccessor(current: Status, value: Status)
    ensures ValidateStatus(Some(current), value).Ok? <==> Successor(current) == Some(value)
  {
  }

  /** From `CLOSED` every target is rejected. */
  lemma ClosedIsTerminal(value: Status)
    ensures ValidateStatus(Some(Closed), value) == Err(CannotTransition(Closed, value))
  {
  }

  /** Skipping a state is rejected. */
  lemma NoSkips(current: Status, value: Status)
    requires Index(value) > Index(current) + 1
    ensures ValidateStatus(Some(current), value).Err?
  {
  }

  /** Backward moves and same-state requests are rejected. */
  lemma NoBackwardOrSelf(current: Status, value: Status)
    requires Index(value) <= Index(current)
    ensures ValidateStatus(Some(current), value).Err?
  {
  }

  /** Without an instance any value is accepted unchanged. */
  lemma NoInstanceAcceptsAll(value: Status)
    ensures ValidateStatus(None, value) == Ok(value)
  {
  }

  /** This validator accepts `RECEIVED` to `DISPATCHED`; so a status request
    * can mark a call dispatched without going through the dispatch
    * endpoint. It rejects `RECEIVED` to `EN_ROUTE`. */
  lemma ReceivedEdges()
    ensures ValidateStatus(Some(Received), Dispatched) == Ok(Dispatched)
    ensures ValidateStatus(Some(Received), EnRoute) == Err(CannotTransition(Received, EnRoute))
  {
  }

  /** Every pair of neighbours in `path` is a transition the validator accepts. */
  ghost predicate AcceptedRun(path: seq<Status>)
  {
    forall k :: 0 <= k < |path| - 1 ==> ValidateStatus(Some(path[k]), path[k + 1]).Ok?
  }

  /** A run of accepted transitions walks the chain one state at a time from
    * where it starts, so it is never longer than the rest of the chain. */
  lemma {:induction false} AcceptedRunFollowsChain(path: seq<Status>)
    requires |path| >= 1 && AcceptedRun(path)
    ensures Index(path[0]) + |path| <= |Chain|
    ensures forall k :: 0 <= k < |path| ==> path[k] == Chain[Index(path[0]) + k]
  {
    if |path| > 1 {
      var rest := path[1..];
      assert AcceptedRun(rest) by {
        forall k | 0 <= k < |rest| - 1 ensures ValidateStatus(Some(rest[k]), rest[k + 1]).Ok? {
          assert rest[k] == path[k + 1] && rest[k + 1] == path[k + 2];
        }
      }
      AcceptedRunFollowsChain(rest);
      assert ValidateStatus(Some(path[0]), path[1]).Ok?;
      assert Index(path[1]) == Index(path[0]) + 1;
      forall k | 0 <= k < |path| ensures path[k] == Chain[Index(path[0]) + k] {
        if k > 0 { assert path[k] == rest[k - 1]; }
      }
    }
  }

  /** Reaching `CLOSED` from `RECEIVED` through the validator takes all six
    * transitions, visiting every state in order. */
  lemma FullRunVisitsEveryState(path: seq<Status>)
    requires |path| >= 1 && AcceptedRun(path)
    requires path[0] == Received && path[|path| - 1] == Closed
    ensures path == Chain
  {
    AcceptedRunFollowsChain(path);
    assert Index(path[|path| - 1]) == |path| - 1;
  }
}
