/**
 * The emergency-call record of emergencies/models.py: the seven lifecycle
 * states, the state classes (pending, active, completed), the call id rule
 * of `save`, and `update_status`, which sets the status and stamps the
 * timestamp of the new state only when that timestamp is still unset.
 * Clock readings and the random uuid are parameters.
 *
 * The per-state timestamp fields (received_at, dispatched_at, ..., closed_at)
 * are one map from state to time: a state is a key exactly when its field
 * is set.
 */
module EmergencyModels {
  import opened Wrappers

  datatype Status = Received | Dispatched | EnRoute | OnScene | Transporting | AtHospital | Closed

  /** The states in the order of `STATUS_CHOICES`. */
  const Chain: seq<Status> := [Received, Dispatched, EnRoute, OnScene, Transporting, AtHospital, Closed]

  /** The position of a state in `Chain`. */
  function Index(s: Status): (i: nat)
    ensures i < |Chain| && Chain[i] == s
  {
    match s
    case Received => 0
    case Dispatched => 1
    case EnRoute => 2
    case OnScene => 3
    case Transporting => 4
    case AtHospital => 5
    case Closed => 6
  }

  /** The value stored in the `status` column. */
  function Code(s: Status): string
  {
    match s
    case Received => "RECEIVED"
    case Dispatched => "DISPATCHED"
    case EnRoute => "EN_ROUTE"
    case OnScene => "ON_SCENE"
    case Transporting => "TRANSPORTING"
    case AtHospital => "AT_HOSPITAL"
    case Closed => "CLOSED"
  }

  /** The choice check a serializer applies to a submitted status value. */
  function ParseStatus(v: string): (r: Option<Status>)
    ensures r.Some? ==> Code(r.value) == v
    ensures r.None? ==> forall s: Status :: Code(s) != v
  {
    if v == "RECEIVED" then Some(Received)
    else if v == "DISPATCHED" then Some(Dispatched)
    else if v == "EN_ROUTE" then Some(EnRoute)
    else if v == "ON_SCENE" then Some(OnScene)
    else if v == "TRANSPORTING" then Some(Transporting)
    else if v == "AT_HOSPITAL" then Some(AtHospital)
    else if v == "CLOSED" then Some(Closed)
    else None
  }

  lemma ParseCode(s: Status)
    ensures ParseStatus(Code(s)) == Some(s)
  {
  }

  datatype Priority = Low | Medium | High | Critical

  const DefaultStatus: Status := Received
  const DefaultPriority: Priority := Medium

  predicate IsActive(s: Status) { s == Dispatched || s == EnRoute || s == OnScene || s == Transporting }

  predicate IsPending(s: Status) { s == Received }

  predicate IsCompleted(s: Status) { s == AtHospital || s == Closed }

  /** Exactly one of the three classes holds of every state. */
  lemma StatusClassesPartition(s: Status)
    ensures IsPending(s) || IsActive(s) || IsCompleted(s)
    ensures !(IsPending(s) && IsActive(s)) && !(IsPending(s) && IsCompleted(s)) && !(IsActive(s) && IsCompleted(s))
  {
  }

  /** A clock reading (`timezone.now()`), supplied by the caller. */
  type Time = int

  /** The elif chain of `update_status`: the new state's timestamp is set to
    * `now` when it is unset; `RECEIVED` has no branch. */
  function StampOnEntry(stamps: map<Status, Time>, s: Status, now: Time): (r: map<Status, Time>)
    ensures forall k :: k in stamps ==> k in r && r[k] == stamps[k]
    ensures forall k :: k in r && k != s ==> k in stamps
    ensures s != Received ==> s in r
    ensures s in r && s !in stamps ==> r[s] == now
    ensures s == Received ==> r == stamps
  {
    if s != Received && s !in stamps then stamps[s := now] else stamps
  }

  /** A call as the serializer reads it. */
  datatype CallView = CallView(
    pk: nat,
    callId: string,
    status: Status,
    priority: Priority,
    stamps: map<Status, Time>,
    assignedAmbulance: Option<nat>,
    assignedParamedic: Option<nat>,
    dispatcher: Option<nat>,
    patientCondition: string,
    hospitalDestination: string,
    createdAt: Option<Time>,
    updatedAt: Option<Time>)
  {
    /** `received_at`, with 0 for a call that was never saved. */
    function ReceivedAt(): Time
    {
      if Received in stamps then stamps[Received] else 0
    }
  }

  /** What `save` does to a row already in the table: `updated_at` becomes
    * the save's time and nothing else changes. */
  function Touched(call: CallView, now: Time): (r: CallView)
    ensures r.updatedAt == Some(now)
    ensures r.(updatedAt := call.updatedAt) == call
  {
    call.(updatedAt := Some(now))
  }

  const CallIdPrefix: string := "CALL-"
  const CallIdHexLength: nat := 8

  predicate IsLowerHex(c: char) { '0' <= c <= '9' || 'a' <= c <= 'f' }

  predicate IsUpperHex(c: char) { '0' <= c <= '9' || 'A' <= c <= 'F' }

  /** The shape of `uuid.uuid4().hex`: 32 lower-case hexadecimal digits. */
  predicate IsUuidHex(hex: string)
  {
    |hex| == 32 && forall i :: 0 <= i < |hex| ==> IsLowerHex(hex[i])
  }

  /** `str.upper()` on the characters a hex string can hold. */
  function UpperChar(c: char): char
  {
    if 'a' <= c <= 'z' then (c as int - 32) as char else c
  }

  function Upper(s: string): (r: string)
    ensures |r| == |s|
    ensures forall i :: 0 <= i < |s| ==> r[i] == UpperChar(s[i])
  {
    if s == [] then [] else [UpperChar(s[0])] + Upper(s[1..])
  }

  predicate IsCallIdFormat(id: string)
  {
    |id| == |CallIdPrefix| + CallIdHexLength
    && id[..|CallIdPrefix|] == CallIdPrefix
    && forall i :: |CallIdPrefix| <= i < |id| ==> IsUpperHex(id[i])
  }

  /** The id `save` generates: "CALL-" and the first eight hex digits of a
    * fresh uuid, upper-cased. */
  function GenerateCallId(hex: string): (id: string)
    requires IsUuidHex(hex)
    ensures IsCallIdFormat(id)
    ensures id[|CallIdPrefix|..] == Upper(hex[..CallIdHexLength])
  {
    var tail := Upper(hex[..CallIdHexLength]);
    assert forall i :: 0 <= i < |tail| ==> IsUpperHex(tail[i]);
    CallIdPrefix + tail
  }

  class EmergencyCall {
    const pk: nat
    var callId: string
    var status: Status
    var priority: Priority
    var stamps: map<Status, Time>
    var assignedAmbulance: Option<nat>
    var assignedParamedic: Option<nat>
    var dispatcher: Option<nat>
    var patientCondition: string
    var hospitalDestination: string
    /** `created_at` (`auto_now_add`) and `updated_at` (`auto_now`). */
    var createdAt: Option<Time>
    var updatedAt: Option<Time>
    /** True until the first save inserts the row. */
    var adding: bool

    /** A saved call has its received time, a call id and both row times. */
    ghost predicate Valid()
      reads this
    {
      !adding ==> Received in stamps && callId != "" && createdAt.Some? && updatedAt.Some?
    }

    function View(): CallView
      reads this
    {
      CallView(pk, callId, status, priority, stamps, assignedAmbulance, assignedParamedic,
               dispatcher, patientCondition, hospitalDestination, createdAt, updatedAt)
    }

    /** A new, unsaved call with the model's defaults. */
    constructor (pk: nat)
      ensures this.pk == pk && Valid()
      ensures callId == "" && status == DefaultStatus && priority == DefaultPriority
      ensures stamps == map[] && adding
      ensures assignedAmbulance.None? && assignedParamedic.None? && dispatcher.None?
      ensures patientCondition == "" && hospitalDestination == ""
      ensures createdAt.None? && updatedAt.None?
    {
      this.pk := pk;
      callId := "";
      status := DefaultStatus;
      priority := DefaultPriority;
      stamps := map[];
      assignedAmbulance, assignedParamedic, dispatcher := None, None, None;
      patientCondition, hospitalDestination := "", "";
      createdAt, updatedAt := None, None;
      adding := true;
    }

    /** `save`: an empty call id is replaced by a generated one, and a set
      * one is never changed; the first save stamps `received_at` and
      * `created_at`; every save sets `updated_at`. */
    method Save(now: Time, hex: string)
      requires Valid() && IsUuidHex(hex)
      modifies this
      ensures Valid() && !adding
      ensures callId == if old(callId) == "" then GenerateCallId(hex) else old(callId)
      ensures stamps == if old(adding) then old(stamps)[Received := now] else old(stamps)
      ensures createdAt == if old(adding) then Some(now) else old(createdAt)
      ensures updatedAt == Some(now)
      ensures status == old(status) && priority == old(priority)
      ensures assignedAmbulance == old(assignedAmbulance) && assignedParamedic == old(assignedParamedic)
      ensures dispatcher == old(dispatcher)
      ensures patientCondition == old(patientCondition) && hospitalDestination == old(hospitalDestination)
    {
      if callId == "" {
        callId := GenerateCallId(hex);
      }
      if adding {
        stamps := stamps[Received := now];
        createdAt := Some(now);
        adding := false;
      }
      updatedAt := Some(now);
    }

    /** `update_status`: whatever the current state, the status becomes
      * `newStatus`; only that state's timestamp may be written, and only if
      * it was unset; then the call is saved. */
    method UpdateStatus(newStatus: Status, now: Time, hex: string)
      requires Valid() && IsUuidHex(hex)
      modifies this
      ensures Valid() && !adding
      ensures status == newStatus
      ensures stamps == if old(adding) then StampOnEntry(old(stamps), newStatus, now)[Received := now]
                        else StampOnEntry(old(stamps), newStatus, now)
      ensures callId == if old(callId) == "" then GenerateCallId(hex) else old(callId)
      ensures createdAt == if old(adding) then Some(now) else old(createdAt)
      ensures updatedAt == Some(now)
      ensures priority == old(priority)
      ensures assignedAmbulance == old(assignedAmbulance) && assignedParamedic == old(assignedParamedic)
      ensures dispatcher == old(dispatcher)
      ensures patientCondition == old(patientCondition) && hospitalDestination == old(hospitalDestination)
    {
      status := newStatus;
      stamps := StampOnEntry(stamps, newStatus, now);
      Save(now, hex);
    }
  }

  /** Ordered as `order_by('-received_at')` orders: latest first. */
  predicate SortedByReceivedDesc(rows: seq<CallView>)
  {
    forall i, j :: 0 <= i < j < |rows| ==> rows[i].ReceivedAt() >= rows[j].ReceivedAt()
  }

  /** No row of `rows` was received later than `t`. */
  predicate NoneLaterThan(t: Time, rows: seq<CallView>)
  {
    forall y :: y in rows ==> y.ReceivedAt() <= t
  }

  lemma SortedCons(h: CallView, rows: seq<CallView>)
    ensures SortedByReceivedDesc([h] + rows) <==> SortedByReceivedDesc(rows) && NoneLaterThan(h.ReceivedAt(), rows)
  {
    var s := [h] + rows;
    if SortedByReceivedDesc(s) {
      forall i, j | 0 <= i < j < |rows| ensures rows[i].ReceivedAt() >= rows[j].ReceivedAt() {
        assert s[i + 1] == rows[i] && s[j + 1] == rows[j];
      }
      forall y | y in rows ensures y.ReceivedAt() <= h.ReceivedAt() {
        var k :| 0 <= k < |rows| && rows[k] == y;
        assert s[0] == h && s[k + 1] == y;
        assert s[0].ReceivedAt() >= s[k + 1].ReceivedAt();
      }
    }
    if SortedByReceivedDesc(rows) && NoneLaterThan(h.ReceivedAt(), rows) {
      forall i, j | 0 <= i < j < |s| ensures s[i].ReceivedAt() >= s[j].ReceivedAt() {
        assert s[j] == rows[j - 1];
        if i > 0 { assert s[i] == rows[i - 1]; }
      }
    }
  }

  /** A sorted sequence whose first row is no later than `t` has no row later than `t`. */
  lemma SortedBound(rows: seq<CallView>, t: Time)
    requires SortedByReceivedDesc(rows)
    requires rows == [] || rows[0].ReceivedAt() <= t
    ensures NoneLaterThan(t, rows)
  {
    forall y | y in rows ensures y.ReceivedAt() <= t {
      var k :| 0 <= k < |rows| && rows[k] == y;
      assert k == 0 || rows[0].ReceivedAt() >= rows[k].ReceivedAt();
    }
  }

  /** `r` holds each row that `keep` admits exactly as often as `rows`
    * does, and no other row. */
  ghost predicate SameKeptRows(r: seq<CallView>, rows: seq<CallView>, keep: CallView -> bool)
  {
    forall x :: multiset(r)[x] == if keep(x) then multiset(rows)[x] else 0
  }

  /** The rows of `rows` that `keep` admits, in their original order. */
  function Filter(rows: seq<CallView>, keep: CallView -> bool): (r: seq<CallView>)
    ensures |r| <= |rows|
    ensures forall x :: x in r <==> x in rows && keep(x)
    ensures SortedByReceivedDesc(rows) ==> SortedByReceivedDesc(r)
    ensures SameKeptRows(r, rows, keep)
  {
    if rows == [] then []
    else
      var tail := Filter(rows[1..], keep);
      SortedCons(rows[0], rows[1..]);
      assert multiset(rows) == multiset{rows[0]} + multiset(rows[1..]) by {
        assert rows == [rows[0]] + rows[1..];
      }
      if keep(rows[0]) then
        SortedCons(rows[0], tail);
        assert multiset([rows[0]] + tail) == multiset{rows[0]} + multiset(tail);
        [rows[0]] + tail
      else tail
  }

  function InsertByReceivedDesc(x: CallView, rows: seq<CallView>): (r: seq<CallView>)
    requires SortedByReceivedDesc(rows)
    ensures SortedByReceivedDesc(r)
    ensures multiset(r) == multiset(rows) + multiset{x}
    ensures forall t :: NoneLaterThan(t, rows) && x.ReceivedAt() <= t ==> NoneLaterThan(t, r)
  {
    if rows == [] || x.ReceivedAt() >= rows[0].ReceivedAt() then
      SortedBound(rows, x.ReceivedAt());
      SortedCons(x, rows);
      [x] + rows
    else
      SortedCons(rows[0], rows[1..]);
      assert rows == [rows[0]] + rows[1..];
      var tail := InsertByReceivedDesc(x, rows[1..]);
      SortedCons(rows[0], tail);
      [rows[0]] + tail
  }

  /** The rows in `order_by('-received_at')` order. Calls received at the
    * same instant may come in any order from the database; this one keeps
    * them in table order. */
  function SortByReceivedDesc(rows: seq<CallView>): (r: seq<CallView>)
    ensures SortedByReceivedDesc(r)
    ensures multiset(r) == multiset(rows)
  {
    if rows == [] then []
    else
      assert rows == [rows[0]] + rows[1..];
      InsertByReceivedDesc(rows[0], SortByReceivedDesc(rows[1..]))
  }

  /** A query over the call table, in `-received_at` order. */
  function OrderedQuery(table: seq<CallView>, keep: CallView -> bool): (r: seq<CallView>)
    ensures SortedByReceivedDesc(r)
    ensures forall x :: x in r <==> x in table && keep(x)
    ensures SameKeptRows(r, table, keep)
  {
    var sorted := SortByReceivedDesc(table);
    assert forall x :: x in sorted <==> x in multiset(sorted);
    Filter(sorted, keep)
  }
}
