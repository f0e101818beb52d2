/**
 * The request handlers of emergencies/views.py around the call lifecycle:
 * the status filter of `active_emergencies`, the check order of
 * `update_emergency_status`, the notify-on-change rule of the detail view's
 * `perform_update`, the checks of `upload_emergency_image`, and `create`
 * with its loop over data-URL images.
 */
module EmergencyViews {
  import opened Wrappers
  import Text
  import opened CoreModels
  import opened EmergencyModels
  import opened EmergencySerializers
  import opened ChannelLayers
  import Notifications

  // ----- Notifications sent by the views themselves -----

  const StatusUpdateEvent: string := "STATUS_UPDATE"
  const NewEmergencyEvent: string := "NEW_EMERGENCY"

  /** The `{type, event, data}` message the views send about a call. */
  function CallMessage(event: string, call: CallView): GroupMessage
  {
    GroupMessage(Notifications.EmergencyUpdateType, event, CallData(call))
  }

  /** The views' own `send_notification`: no channel layer means no send;
    * otherwise one message to `dispatchers`, and a failing send is logged
    * and swallowed. */
  method NotifyDispatchers(layer: ChannelLayer?, event: string, call: CallView)
    modifies layer
    ensures layer != null ==> layer.groups == old(layer.groups) && layer.failing == old(layer.failing)
    ensures layer != null ==>
              layer.published == old(layer.published)
                + (if old(layer.failing) then [] else [Publication(Notifications.DispatchersGroup, CallMessage(event, call))])
  {
    if layer != null {
      var raised := layer.GroupSend(Notifications.DispatchersGroup, CallMessage(event, call));
    }
  }

  // ----- active_emergencies -----

  const DefaultStatusFilter: string := "active"

  /** The `status__in` sets of the three named filters; `None` is the
    * unfiltered query. */
  function FilterStates(filter: string): Option<set<Status>>
  {
    if filter == "active" then Some({Dispatched, EnRoute, OnScene, Transporting})
    else if filter == "pending" then Some({Received})
    else if filter == "completed" then Some({AtHospital, Closed})
    else None
  }

  /** What a filter value selects, in terms of the model's state classes. */
  predicate Selects(filter: string, s: Status)
  {
    if filter == "active" then IsActive(s)
    else if filter == "pending" then IsPending(s)
    else if filter == "completed" then IsCompleted(s)
    else true
  }

  /** `active_emergencies`: the calls the filter selects, latest first. */
  function ActiveEmergencies(statusParam: Option<string>, table: seq<CallView>): (r: seq<CallView>)
    ensures SortedByReceivedDesc(r)
    ensures forall c :: c in r <==>
              c in table && Selects(if statusParam.Some? then statusParam.value else DefaultStatusFilter, c.status)
    ensures forall c :: multiset(r)[c] ==
              if Selects(if statusParam.Some? then statusParam.value else DefaultStatusFilter, c.status)
              then multiset(table)[c] else 0
  {
    var filter := if statusParam.Some? then statusParam.value else DefaultStatusFilter;
    match FilterStates(filter)
    case Some(states) =>
      assert forall s :: s in states <==> Selects(filter, s);
      OrderedQuery(table, (c: CallView) => c.status in states)
    case None => OrderedQuery(table, (c: CallView) => true)
  }

  /** The pending, active and completed queries split the table: every call
    * is in exactly one of them, and an unknown filter returns every call. */
  lemma FiltersSplitTable(table: seq<CallView>, c: CallView, other: string)
    requires c in table
    requires other != "active" && other != "pending" && other != "completed"
    ensures (if c in ActiveEmergencies(Some("pending"), table) then 1 else 0)
            + (if c in ActiveEmergencies(Some("active"), table) then 1 else 0)
            + (if c in ActiveEmergencies(Some("completed"), table) then 1 else 0) == 1
    ensures c in ActiveEmergencies(Some(other), table)
    ensures (c in ActiveEmergencies(None, table)) == (c in ActiveEmergencies(Some("active"), table))
  {
    StatusClassesPartition(c.status);
  }

  // ----- update_emergency_status -----

  const HospitalDestinationMaxLength: nat := 200

  /** The request body: `None` is a key the partial update leaves out. */
  datatype StatusPatch = StatusPatch(status: Option<string>, patientCondition: Option<string>,
                                     hospitalDestination: Option<string>)

  /** The serializer's validated data. */
  datatype ValidPatch = ValidPatch(status: Option<Status>, patientCondition: Option<string>,
                                   hospitalDestination: Option<string>)

  /** The character every text field of the serializer refuses. */
  const NullCharacter: char := '\0'

  datatype FieldError =
    | StatusRejected(error: StatusError)
    | DestinationTooLong(length: nat)
    | HoldsNullCharacter(field: string)

  /** `EmergencyCallStatusUpdateSerializer(call, data, partial=True).is_valid()`:
    * the status goes through the choice check and `validate_status`; the two
    * text fields are stripped of surrounding white space, and the stripped
    * text may hold no NUL character and, for the destination, at most 200
    * characters. Every failing check reports an error. */
  function ValidatePatch(current: Status, patch: StatusPatch): (r: Result<ValidPatch, seq<FieldError>>)
    ensures r.Ok? <==>
              && (patch.status.None? || ValidateStatusField(Some(current), patch.status.value).Ok?)
              && (patch.hospitalDestination.None? ||
                  |Text.Strip(patch.hospitalDestination.value)| <= HospitalDestinationMaxLength)
              && (patch.patientCondition.None? || NullCharacter !in patch.patientCondition.value)
              && (patch.hospitalDestination.None? || NullCharacter !in patch.hospitalDestination.value)
    ensures r.Err? ==> |r.error| >= 1
    ensures r.Ok? ==> (r.value.status.Some? <==> patch.status.Some?)
    ensures r.Ok? && r.value.status.Some? ==>
              Successor(current) == r.value.status && Code(r.value.status.value) == patch.status.value
    ensures r.Ok? && patch.patientCondition.Some? ==>
              r.value.patientCondition == Some(Text.Strip(patch.patientCondition.value))
    ensures r.Ok? && patch.patientCondition.None? ==> r.value.patientCondition.None?
    ensures r.Ok? && patch.hospitalDestination.Some? ==>
              r.value.hospitalDestination == Some(Text.Strip(patch.hospitalDestination.value))
    ensures r.Ok? && patch.hospitalDestination.None? ==> r.value.hospitalDestination.None?
  {
    NullSurvivesStrip(patch.patientCondition);
    NullSurvivesStrip(patch.hospitalDestination);
    var statusErrors :=
      if patch.status.None? then []
      else match ValidateStatusField(Some(current), patch.status.value)
        case Ok(_) => []
        case Err(e) => [StatusRejected(e)];
    var conditionErrors :=
      if patch.patientCondition.None? then []
      else if NullCharacter in Text.Strip(patch.patientCondition.value) then [HoldsNullCharacter("patient_condition")]
      else [];
    var destinationErrors :=
      if patch.hospitalDestination.None? then []
      else
        var d := Text.Strip(patch.hospitalDestination.value);
        (if |d| > HospitalDestinationMaxLength then [DestinationTooLong(|d|)] else [])
        + (if NullCharacter in d then [HoldsNullCharacter("hospital_destination")] else []);
    var errors := statusErrors + conditionErrors + destinationErrors;
    if errors != [] then Err(errors)
    else
      var status := if patch.status.None? then None
                    else Some(ValidateStatusField(Some(current), patch.status.value).value);
      assert status.Some? ==> Successor(current) == status by {
        if status.Some? { TableIsSuccessor(current, status.value); }
      }
      Ok(ValidPatch(status,
                    if patch.patientCondition.None? then None else Some(Text.Strip(patch.patientCondition.value)),
                    if patch.hospitalDestination.None? then None else Some(Text.Strip(patch.hospitalDestination.value))))
  }

  /** NUL is not white space, so a text holds it iff its stripped text does. */
  lemma NullSurvivesStrip(text: Option<string>)
    ensures text.Some? ==> (NullCharacter in Text.Strip(text.value) <==> NullCharacter in text.value)
  {
    if text.Some? {
      Text.StripKeepsOthers(text.value, NullCharacter);
    }
  }

  /** `serializer.save()`: the validated fields are written over the call. */
  function Patched(call: CallView, p: ValidPatch): CallView
  {
    call.(status := if p.status.Some? then p.status.value else call.status,
          patientCondition := if p.patientCondition.Some? then p.patientCondition.value else call.patientCondition,
          hospitalDestination := if p.hospitalDestination.Some? then p.hospitalDestination.value else call.hospitalDestination)
  }

  datatype StatusReply =
    | CallNotFound                          // 404
    | NotAssigned                           // 403
    | InvalidPatch(errors: seq<FieldError>) // 400
    | StatusUpdated(call: CallView)         // 200, the call as saved

  /** Whether the caller may change the call: a paramedic only when assigned
    * to it; every other role always. */
  predicate MayUpdate(user: UserInfo, call: CallView)
  {
    IsParamedic(user) ==> call.assignedParamedic == Some(user.id)
  }

  /** The reply of `update_emergency_status` for the call found under the
    * key, if any: 404, then 403, then 400, then the call as saved at `now`. */
  function StatusUpdateReply(found: Option<CallView>, user: UserInfo, patch: StatusPatch, now: Time): (r: StatusReply)
    ensures r.CallNotFound? <==> found.None?
    ensures r.NotAssigned? <==> found.Some? && !MayUpdate(user, found.value)
    ensures r.InvalidPatch? <==>
              found.Some? && MayUpdate(user, found.value) && ValidatePatch(found.value.status, patch).Err?
    ensures r.StatusUpdated? ==> found.Some? && MayUpdate(user, found.value)
    ensures r.StatusUpdated? && patch.status.None? ==> r.call.status == found.value.status
    ensures r.StatusUpdated? && patch.status.Some? ==>
              Successor(found.value.status) == Some(r.call.status) && Code(r.call.status) == patch.status.value
    ensures r.StatusUpdated? ==>
              r.call.(status := found.value.status, patientCondition := found.value.patientCondition,
                      hospitalDestination := found.value.hospitalDestination, updatedAt := found.value.updatedAt)
              == found.value
    ensures r.StatusUpdated? ==> r.call.updatedAt == Some(now)
    ensures r.StatusUpdated? && patch.hospitalDestination.Some? ==>
              r.call.hospitalDestination == Text.Strip(patch.hospitalDestination.value)
              && |r.call.hospitalDestination| <= HospitalDestinationMaxLength
              && NullCharacter !in r.call.hospitalDestination
    ensures r.StatusUpdated? && patch.patientCondition.Some? ==>
              r.call.patientCondition == Text.Strip(patch.patientCondition.value)
              && NullCharacter !in r.call.patientCondition
  {
    match found
    case None => CallNotFound
    case Some(call) =>
      if !MayUpdate(user, call) then NotAssigned
      else match ValidatePatch(call.status, patch)
        case Err(errors) => InvalidPatch(errors)
        case Ok(p) => StatusUpdated(Touched(Patched(call, p), now))
  }

  /** A dispatcher may move any call forward; an assigned paramedic may move
    * their own; neither may move a closed call to any state. */
  lemma StatusUpdateAuthorization(call: CallView, user: UserInfo, raw: string, now: Time)
    ensures IsDispatcher(user) ==> !StatusUpdateReply(Some(call), user, StatusPatch(Some(raw), None, None), now).NotAssigned?
    ensures call.assignedParamedic == Some(user.id) ==>
              !StatusUpdateReply(Some(call), user, StatusPatch(Some(raw), None, None), now).NotAssigned?
    ensures call.status == Closed ==>
              !StatusUpdateReply(Some(call), user, StatusPatch(Some(raw), None, None), now).StatusUpdated?
  {
    RolesExclusive(user);
  }

  /** The stored calls by primary key: each saved under its own key. */
  ghost predicate IsTable(calls: map<nat, EmergencyCall>)
    reads calls.Values
  {
    forall k :: k in calls ==> calls[k].pk == k && calls[k].Valid() && !calls[k].adding
  }

  /** `update_emergency_status`. Only the found call may change, and only
    * when the reply is a success; the notification goes out after the save,
    * and its failure leaves the reply as it is. */
  method UpdateEmergencyStatus(calls: map<nat, EmergencyCall>, pk: nat, user: UserInfo, patch: StatusPatch,
                               layer: ChannelLayer?, now: Time, hex: string) returns (reply: StatusReply)
    requires IsTable(calls) && IsUuidHex(hex)
    modifies calls.Values, layer
    ensures IsTable(calls)
    ensures reply == StatusUpdateReply(if pk in calls then Some(old(calls[pk].View())) else None, user, patch, now)
    ensures forall k :: k in calls && (k != pk || !reply.StatusUpdated?) ==> calls[k].View() == old(calls[k].View())
    ensures reply.StatusUpdated? ==> calls[pk].View() == reply.call
    ensures layer != null ==> layer.groups == old(layer.groups) && layer.failing == old(layer.failing)
    ensures layer != null ==>
              layer.published == old(layer.published)
                + (if reply.StatusUpdated? && !old(layer.failing)
                   then [Publication(Notifications.DispatchersGroup, CallMessage(StatusUpdateEvent, reply.call))]
                   else [])
  {
    if pk !in calls {
      return CallNotFound;
    }
    var call := calls[pk];
    var before := call.View();
    if !MayUpdate(user, before) {
      return NotAssigned;
    }
    var validated := ValidatePatch(call.status, patch);
    if validated.Err? {
      return InvalidPatch(validated.error);
    }
    assert forall k :: k in calls && k != pk ==> calls[k] != call;
    SavePatch(call, validated.value, now, hex);
    reply := StatusUpdated(call.View());
    NotifyDispatchers(layer, StatusUpdateEvent, call.View());
  }

  /** `serializer.save()` on the status serializer: `setattr` for each
    * validated field, then the model's `save`. */
  method SavePatch(call: EmergencyCall, p: ValidPatch, now: Time, hex: string)
    requires call.Valid() && !call.adding && IsUuidHex(hex)
    modifies call
    ensures call.Valid() && !call.adding
    ensures call.View() == Touched(Patched(old(call.View()), p), now)
  {
    if p.status.Some? {
      call.status := p.status.value;
    }
    if p.patientCondition.Some? {
      call.patientCondition := p.patientCondition.value;
    }
    if p.hospitalDestination.Some? {
      call.hospitalDestination := p.hospitalDestination.value;
    }
    call.Save(now, hex);
  }

  // ----- EmergencyCallDetailView.perform_update -----

  /** Writable fields of `EmergencyCallSerializer` that the model follows,
    * already validated by the generic view. `status` is among them: the
    * serializer does not list it as read-only. */
  datatype DetailPatch = DetailPatch(status: Option<Status>, priority: Option<Priority>,
                                     patientCondition: Option<string>, hospitalDestination: Option<string>)

  function DetailPatched(call: CallView, p: DetailPatch): CallView
  {
    call.(status := if p.status.Some? then p.status.value else call.status,
          priority := if p.priority.Some? then p.priority.value else call.priority,
          patientCondition := if p.patientCondition.Some? then p.patientCondition.value else call.patientCondition,
          hospitalDestination := if p.hospitalDestination.Some? then p.hospitalDestination.value else call.hospitalDestination)
  }

  /** Whether `perform_update` sends `STATUS_UPDATE`. */
  function DetailNotifies(before: CallView, p: DetailPatch): (r: bool)
    ensures r <==> DetailPatched(before, p).status != before.status
  {
    p.status.Some? && p.status.value != before.status
  }

  /** `perform_update`: save, then notify iff the status changed. */
  method PerformUpdate(call: EmergencyCall, p: DetailPatch, layer: ChannelLayer?, now: Time, hex: string)
    requires call.Valid() && !call.adding && IsUuidHex(hex)
    modifies call, layer
    ensures call.Valid() && !call.adding
    ensures call.View() == Touched(DetailPatched(old(call.View()), p), now)
    ensures layer != null ==> layer.groups == old(layer.groups) && layer.failing == old(layer.failing)
    ensures layer != null ==>
              layer.published == old(layer.published)
                + (if call.status != old(call.status) && !old(layer.failing)
                   then [Publication(Notifications.DispatchersGroup, CallMessage(StatusUpdateEvent, call.View()))]
                   else [])
  {
    var oldStatus := call.status;
    ghost var written := DetailPatched(call.View(), p);
    if p.status.Some? {
      call.status := p.status.value;
    }
    if p.priority.Some? {
      call.priority := p.priority.value;
    }
    if p.patientCondition.Some? {
      call.patientCondition := p.patientCondition.value;
    }
    if p.hospitalDestination.Some? {
      call.hospitalDestination := p.hospitalDestination.value;
    }
    assert call.View() == written;
    call.Save(now, hex);
    assert call.View() == Touched(written, now);
    if oldStatus != call.status {
      NotifyDispatchers(layer, StatusUpdateEvent, call.View());
    }
  }

  /** Through the detail view any state can be written over any other, no
    * timestamp is set, and a change is announced; the status endpoint's
    * validator would refuse, for instance, `RECEIVED` to `CLOSED`. */
  lemma DetailBypassesValidator(call: CallView, target: Status)
    ensures DetailPatched(call, DetailPatch(Some(target), None, None, None)).status == target
    ensures DetailPatched(call, DetailPatch(Some(target), None, None, None)).stamps == call.stamps
    ensures DetailNotifies(call, DetailPatch(Some(target), None, None, None)) <==> target != call.status
    ensures call.status == Received && target == Closed ==> ValidateStatus(Some(call.status), target).Err?
  {
  }

  // ----- upload_emergency_image -----

  const AllowedImageTypes: seq<string> := ["image/jpeg", "image/jpg", "image/png", "image/gif", "image/webp"]
  const MaxImageSize: nat := 5 * 1024 * 1024
  const ImageDirectory: string := "emergency_images/"

  /** The `image` entry of `request.FILES`. */
  datatype UploadedFile = UploadedFile(name: string, contentType: string, size: nat)

  /** What `default_storage` does: the path it stored the file under and its
    * URL, or the text of the exception it raised. */
  datatype StorageOutcome = Stored(path: string, url: string) | StorageRaised(message: string)

  datatype UploadReply =
    | NoImage                                         // 400
    | BadImageType                                    // 400
    | ImageTooLarge                                   // 400
    | UploadFailed(message: string)                   // 500
    | ImageUploaded(imageUrl: string, filename: string)

  /** Whether a dot at `dot` follows at least one non-dot character of the
    * last path component, which starts at `start`. */
  predicate HasNonDot(p: string, start: nat, dot: nat)
    requires dot < |p|
  {
    exists k :: start <= k < dot && p[k] != '.'
  }

  /** `dot` is where a path splits into root and extension: the last dot,
    * with no `/` after it, and with some character other than `.` and `/`
    * before it in the same path component. */
  predicate ExtensionDot(p: string, dot: nat)
  {
    && dot < |p| && p[dot] == '.'
    && (forall j :: dot < j < |p| ==> p[j] != '.' && p[j] != '/')
    && (exists k :: 0 <= k < dot && p[k] != '.' && p[k] != '/' && (forall j :: k < j < dot ==> p[j] != '/'))
  }

  /** Where the last path component of `p` starts. */
  function ComponentStart(p: string): (start: nat)
    ensures start <= |p|
    ensures forall j :: start <= j < |p| ==> p[j] != '/'
    ensures start > 0 ==> p[start - 1] == '/'
  {
    match Text.LastIndexOf(p, '/') case Some(i) => i + 1 case None => 0
  }

  /** An extension dot is the dot `SplitExt` looks for: the last one, in the
    * last component, after a character of it that is not a dot. */
  lemma ExtensionDotFound(p: string, d: nat)
    requires ExtensionDot(p, d)
    ensures Text.LastIndexOf(p, '.') == Some(d)
    ensures ComponentStart(p) <= d && HasNonDot(p, ComponentStart(p), d)
  {
    var k :| 0 <= k < d && p[k] != '.' && p[k] != '/' && (forall j :: k < j < d ==> p[j] != '/');
    var start := ComponentStart(p);
    assert start <= k by {
      assert start == 0 || p[start - 1] == '/';
    }
  }

  /** `os.path.splitext` for POSIX paths: the extension runs from the last
    * dot of the last component, unless that component has only dots before
    * it. */
  function SplitExt(p: string): (r: (string, string))
    ensures r.0 + r.1 == p
    ensures r.1 != [] ==> r.1[0] == '.' && (forall j :: 0 < j < |r.1| ==> r.1[j] != '.' && r.1[j] != '/')
    ensures (forall j :: 0 <= j < |p| ==> p[j] != '.') ==> r.1 == []
    ensures forall dot: nat :: ExtensionDot(p, dot) ==> r == (p[..dot], p[dot..])
    ensures r.1 != [] ==> ExtensionDot(p, |r.0|)
  {
    var start := ComponentStart(p);
    forall d: nat | ExtensionDot(p, d)
      ensures Text.LastIndexOf(p, '.') == Some(d) && start <= d && HasNonDot(p, start, d)
    {
      ExtensionDotFound(p, d);
    }
    match Text.LastIndexOf(p, '.')
    case Some(dot) =>
      if start <= dot && HasNonDot(p, start, dot) then
        assert p[..dot] + p[dot..] == p;
        assert ExtensionDot(p, dot) by {
          var k :| start <= k < dot && p[k] != '.';
        }
        (p[..dot], p[dot..])
      else (p, [])
    case None => (p, [])
  }

  lemma SplitExtExamples()
    ensures SplitExt("scene.jpg") == ("scene", ".jpg")
    ensures SplitExt(".hidden") == (".hidden", "")
    ensures SplitExt("photo") == ("photo", "")
  {
    SplitExtOfScene();
    SplitExtOfHidden();
    SplitExtOfPhoto();
  }

  lemma SplitExtOfScene()
    ensures SplitExt("scene.jpg") == ("scene", ".jpg")
  {
    assert "scene.jpg"[5] == '.';
    assert HasNonDot("scene.jpg", 0, 5) by { assert "scene.jpg"[0] != '.'; }
    assert "scene.jpg"[..5] == "scene";
    assert "scene.jpg"[5..] == ".jpg";
  }

  lemma SplitExtOfHidden()
    ensures SplitExt(".hidden") == (".hidden", "")
  {
    assert !HasNonDot(".hidden", 0, 0);
  }

  lemma SplitExtOfPhoto()
    ensures SplitExt("photo") == ("photo", "")
  {
    assert forall j :: 0 <= j < |"photo"| ==> "photo"[j] != '.';
  }

  /** `upload_emergency_image`: the file must be present, then of an allowed
    * type, then at most 5 MiB; it is stored under a fresh name built from
    * `uuid` and the original extension. */
  function UploadEmergencyImage(file: Option<UploadedFile>, uuid: string, storage: StorageOutcome): (r: UploadReply)
    ensures r.NoImage? <==> file.None?
    ensures r.BadImageType? <==> file.Some? && file.value.contentType !in AllowedImageTypes
    ensures r.ImageTooLarge? <==>
              file.Some? && file.value.contentType in AllowedImageTypes && file.value.size > MaxImageSize
    ensures r.UploadFailed? ==> storage.StorageRaised? && r.message == "Failed to upload image: " + storage.message
    ensures r.ImageUploaded? ==>
              && file.Some? && file.value.contentType in AllowedImageTypes && file.value.size <= MaxImageSize
              && r.filename == ImageDirectory + uuid + SplitExt(file.value.name).1
              && storage.Stored? && storage.url == r.imageUrl
  {
    match file
    case None => NoImage
    case Some(f) =>
      if f.contentType !in AllowedImageTypes then BadImageType
      else if f.size > MaxImageSize then ImageTooLarge
      else
        var filename := ImageDirectory + uuid + SplitExt(f.name).1;
        match storage
        case StorageRaised(message) => UploadFailed("Failed to upload image: " + message)
        case Stored(path, url) => ImageUploaded(url, filename)
  }

  /** The limit is inclusive: exactly 5 MiB is stored, one byte more is not. */
  lemma UploadSizeBoundary(name: string, contentType: string, uuid: string, path: string, url: string)
    requires contentType in AllowedImageTypes
    ensures UploadEmergencyImage(Some(UploadedFile(name, contentType, MaxImageSize)), uuid, Stored(path, url)).ImageUploaded?
    ensures UploadEmergencyImage(Some(UploadedFile(name, contentType, MaxImageSize + 1)), uuid, Stored(path, url)) == ImageTooLarge
  {
  }

  // ----- create: the data-URL image loop -----

  const DataImagePrefix: string := "data:image"
  const Base64Marker: string := ";base64,"

  /** A JSON value of the request body, as far as the loop looks at it. */
  datatype JsonValue = JString(s: string) | JList(items: seq<JsonValue>) | JOther

  /** `format, imgstr = s.split(';base64,')`: succeeds only when the split
    * gives exactly two pieces. */
  function DataUrlParts(s: string): (r: Option<(string, string)>)
    ensures r.Some? ==> r.value.0 + Base64Marker + r.value.1 == s
    ensures r.Some? ==> Text.IndexOf(r.value.0, Base64Marker).None? && Text.IndexOf(r.value.1, Base64Marker).None?
  {
    var parts := Text.SplitOn(s, Base64Marker);
    if |parts| == 2 then
      var i := Text.IndexOf(s, Base64Marker).value;
      var rest := s[i + |Base64Marker|..];
      assert parts == [s[..i]] + Text.SplitOn(rest, Base64Marker);
      assert Text.IndexOf(rest, Base64Marker).None?;
      assert s == s[..i] + s[i..i + |Base64Marker|] + rest;
      Text.NoneBeforeFirst(s, Base64Marker, i);
      Some((parts[0], parts[1]))
    else None
  }

  /** Text without a ';' cannot hold the marker. */
  lemma NoMarkerWithoutSemicolon(t: string)
    requires forall j :: 0 <= j < |t| ==> t[j] != ';'
    ensures Text.IndexOf(t, Base64Marker).None?
  {
    forall j | 0 <= j <= |t| ensures !Text.OccursAt(t, Base64Marker, j) {
      if j + |Base64Marker| <= |t| {
        assert t[j..j + |Base64Marker|][0] == t[j];
      }
    }
    Text.NoOccurrenceNoIndex(t, Base64Marker);
  }

  /** Any text with the marker exactly once splits back into its two sides. */
  lemma DataUrlPartsOfJoin(a: string, b: string)
    requires Text.IndexOf(a, Base64Marker).None? && Text.IndexOf(b, Base64Marker).None?
    ensures DataUrlParts(a + Base64Marker + b) == Some((a, b))
  {
    var m := Base64Marker;
    var s := a + m + b;
    assert forall k :: 1 <= k < |m| ==> m[k] != ';';
    assert Text.OccursAt(s, m, |a|) by {
      assert s[|a|..|a| + |m|] == m;
    }
    forall j | 0 <= j < |a| ensures !Text.OccursAt(s, m, j) {
      if j + |m| <= |a| {
        assert s[j..j + |m|] == a[j..j + |m|];
        assert !Text.OccursAt(a, m, j);
      } else if j + |m| <= |s| {
        assert s[j..j + |m|][|a| - j] == s[|a|] == ';';
      }
    }
    assert Text.IndexOf(s, m) == Some(|a|);
    assert s[..|a|] == a;
    assert s[|a| + |m|..] == b;
    assert Text.SplitOn(s, m) == [a] + Text.SplitOn(b, m);
  }

  /** `format.split('/')[-1]`: the text after the last '/' of the format,
    * or all of it when it holds no '/'. */
  function DataUrlExtension(format: string): (r: string)
    ensures forall j :: 0 <= j < |r| ==> r[j] != '/'
    ensures |r| <= |format| && format[|format| - |r|..] == r
    ensures |r| < |format| ==> format[|format| - |r| - 1] == '/'
  {
    var pieces := Text.SplitOn(format, "/");
    Text.SplitOnCharPieces(format, '/');
    Text.JoinSplitOn(format, "/");
    if |pieces| >= 2 then Text.JoinLast(pieces, "/"); pieces[|pieces| - 1]
    else pieces[0]
  }

  /** `data:image/png;base64,iVBO` splits into its format and payload. */
  lemma DataUrlPartsExample()
    ensures DataUrlParts("data:image/png" + Base64Marker + "iVBO") == Some(("data:image/png", "iVBO"))
  {
    SemicolonFreeDataUrl("data:image/png", "iVBO");
  }

  lemma SemicolonFreeDataUrl(a: string, b: string)
    requires forall j :: 0 <= j < |a| ==> a[j] != ';'
    requires forall j :: 0 <= j < |b| ==> b[j] != ';'
    ensures DataUrlParts(a + Base64Marker + b) == Some((a, b))
  {
    NoMarkerWithoutSemicolon(a);
    NoMarkerWithoutSemicolon(b);
    DataUrlPartsOfJoin(a, b);
  }

  /** The extension of an `image/png` data URL is `png`. */
  lemma DataUrlExtensionExample()
    ensures DataUrlExtension("data:image/png") == "png"
  {
    var f := "data:image/png";
    var r := DataUrlExtension(f);
    assert f[10] == '/' && f[11] == 'p' && f[12] == 'n' && f[13] == 'g';
    assert r == f[11..];
  }

  /** A decoded image: the extension from the format and the base64 text. */
  datatype ProcessedImage = ProcessedImage(ext: string, encoded: string)

  datatype ItemOutcome =
    | NotAnImage               // not a string starting with "data:image": skipped
    | Decoded(image: ProcessedImage)
    | Raises                   // the unpacking or `base64.b64decode` raised

  /** The loop body for one list item; `decodes` says whether
    * `base64.b64decode` accepts a text. */
  function ProcessItem(item: JsonValue, decodes: string -> bool): (r: ItemOutcome)
    ensures r.NotAnImage? <==> !(item.JString? && Text.StartsWith(item.s, DataImagePrefix))
    ensures r.Raises? <==>
              item.JString? && Text.StartsWith(item.s, DataImagePrefix)
              && (DataUrlParts(item.s).None? || !decodes(DataUrlParts(item.s).value.1))
    ensures r.Decoded? ==>
              && item.JString? && Text.StartsWith(item.s, DataImagePrefix)
              && DataUrlParts(item.s) == Some((DataUrlParts(item.s).value.0, r.image.encoded))
              && r.image.ext == DataUrlExtension(DataUrlParts(item.s).value.0)
              && decodes(r.image.encoded)
  {
    if !(item.JString? && Text.StartsWith(item.s, DataImagePrefix)) then NotAnImage
    else match DataUrlParts(item.s)
      case None => Raises
      case Some((format, encoded)) =>
        if decodes(encoded) then Decoded(ProcessedImage(DataUrlExtension(format), encoded)) else Raises
  }

  function ItemImages(outcome: ItemOutcome): seq<ProcessedImage>
  {
    if outcome.Decoded? then [outcome.image] else []
  }

  /** `p` is what some item of `items` decodes to. */
  predicate DecodedFrom(items: seq<JsonValue>, decodes: string -> bool, p: ProcessedImage)
  {
    exists k :: 0 <= k < |items| && ProcessItem(items[k], decodes) == Decoded(p)
  }

  /** The images the loop collects, a failing item being skipped as the
    * `except ... continue` intends. */
  function ProcessedImages(items: seq<JsonValue>, decodes: string -> bool): (r: seq<ProcessedImage>)
    ensures |r| <= |items|
    ensures forall p :: p in r ==> DecodedFrom(items, decodes, p)
    decreases |items|
  {
    if items == [] then []
    else
      var init := items[..|items| - 1];
      var r := ProcessedImages(init, decodes) + ItemImages(ProcessItem(items[|items| - 1], decodes));
      assert forall p :: DecodedFrom(init, decodes, p) ==> DecodedFrom(items, decodes, p) by {
        forall p | DecodedFrom(init, decodes, p) ensures DecodedFrom(items, decodes, p) {
          var k :| 0 <= k < |init| && ProcessItem(init[k], decodes) == Decoded(p);
          assert items[k] == init[k];
        }
      }
      assert forall p :: p in ItemImages(ProcessItem(items[|items| - 1], decodes)) ==> DecodedFrom(items, decodes, p);
      r
  }

  /** Every item that decodes contributes its image. */
  lemma {:induction false} ProcessedImagesComplete(items: seq<JsonValue>, decodes: string -> bool, k: nat)
    requires k < |items| && ProcessItem(items[k], decodes).Decoded?
    ensures ProcessItem(items[k], decodes).image in ProcessedImages(items, decodes)
    decreases |items|
  {
    var init := items[..|items| - 1];
    if k < |init| {
      assert items[k] == init[k];
      ProcessedImagesComplete(init, decodes, k);
    }
  }

  /** One more item adds the image it decodes to, if any, at the end. */
  lemma ProcessedImagesAppend(items: seq<JsonValue>, x: JsonValue, decodes: string -> bool)
    ensures ProcessedImages(items + [x], decodes) == ProcessedImages(items, decodes) + ItemImages(ProcessItem(x, decodes))
  {
    assert (items + [x])[..|items|] == items;
  }

  /** The images of two lists of items, one after the other, are the images
    * of each list in turn: the loop keeps the items' order. */
  lemma {:induction false} ProcessedImagesConcat(a: seq<JsonValue>, b: seq<JsonValue>, decodes: string -> bool)
    ensures ProcessedImages(a + b, decodes) == ProcessedImages(a, decodes) + ProcessedImages(b, decodes)
    decreases |b|
  {
    if b == [] {
      assert a + b == a;
    } else {
      var init := b[..|b| - 1];
      var x := b[|b| - 1];
      var image := ItemImages(ProcessItem(x, decodes));
      assert b == init + [x];
      assert a + b == (a + init) + [x];
      ProcessedImagesConcat(a, init, decodes);
      ProcessedImagesAppend(a + init, x, decodes);
      ProcessedImagesAppend(init, x, decodes);
      calc {
        ProcessedImages(a + b, decodes);
        ProcessedImages(a + init, decodes) + image;
        (ProcessedImages(a, decodes) + ProcessedImages(init, decodes)) + image;
        ProcessedImages(a, decodes) + (ProcessedImages(init, decodes) + image);
        ProcessedImages(a, decodes) + ProcessedImages(b, decodes);
      }
    }
  }

  predicate RaisesWithin(items: seq<JsonValue>, decodes: string -> bool)
  {
    exists k :: 0 <= k < |items| && ProcessItem(items[k], decodes).Raises?
  }

  /** The loop as written: a failing item reaches `logger.error`, and with
    * no `logger` defined in the module the NameError ends the request. */
  function ProcessedImagesAsWritten(items: seq<JsonValue>, decodes: string -> bool): (r: Option<seq<ProcessedImage>>)
    ensures r.None? <==> RaisesWithin(items, decodes)
    decreases |items|
  {
    if items == [] then Some([])
    else
      var init := items[..|items| - 1];
      var last := ProcessItem(items[|items| - 1], decodes);
      assert forall k :: 0 <= k < |init| ==> init[k] == items[k];
      var rest := ProcessedImagesAsWritten(init, decodes);
      if rest.None? then
        assert RaisesWithin(items, decodes) by {
          var k :| 0 <= k < |init| && ProcessItem(init[k], decodes).Raises?;
          assert ProcessItem(items[k], decodes).Raises?;
        }
        None
      else if last.Raises? then
        assert RaisesWithin(items, decodes) by {
          assert ProcessItem(items[|items| - 1], decodes).Raises?;
        }
        None
      else
        assert !RaisesWithin(items, decodes) by {
          forall k | 0 <= k < |items| ensures !ProcessItem(items[k], decodes).Raises? {
            if k < |init| {
              assert items[k] == init[k];
            }
          }
        }
        Some(rest.value + ItemImages(last))
  }

  /** Where the loop as written finishes, it collects what the intended
    * loop collects. */
  lemma {:induction false} AsWrittenAgreesWhenNothingRaises(items: seq<JsonValue>, decodes: string -> bool)
    ensures ProcessedImagesAsWritten(items, decodes).Some? ==>
              ProcessedImagesAsWritten(items, decodes).value == ProcessedImages(items, decodes)
    decreases |items|
  {
    if items != [] {
      AsWrittenAgreesWhenNothingRaises(items[..|items| - 1], decodes);
    }
  }

  /** The loop of `create` with the failing items skipped. */
  method ProcessImages(items: seq<JsonValue>, decodes: string -> bool) returns (processed: seq<ProcessedImage>)
    ensures processed == ProcessedImages(items, decodes)
  {
    processed := [];
    var i := 0;
    while i < |items|
      invariant 0 <= i <= |items|
      invariant processed == ProcessedImages(items[..i], decodes)
    {
      var outcome := ProcessItem(items[i], decodes);
      if outcome.Decoded? {
        processed := processed + [outcome.image];
      }
      assert items[..i + 1][..i] == items[..i];
      i := i + 1;
    }
    assert items[..i] == items;
  }

  /** The `[{'url': f'temp_{i}'} for i in range(n)]` placeholders. */
  function Placeholders(n: nat): (r: seq<string>)
    ensures |r| == n
    ensures forall i :: 0 <= i < n ==> r[i] == "temp_" + Text.NatToString(i)
  {
    if n == 0 then [] else Placeholders(n - 1) + ["temp_" + Text.NatToString(n - 1)]
  }

  /** No two placeholders are the same. */
  lemma PlaceholdersDistinct(n: nat, i: nat, j: nat)
    requires i < j < n
    ensures Placeholders(n)[i] != Placeholders(n)[j]
  {
    var p := Placeholders(n);
    if p[i] == p[j] {
      assert p[i][5..] == Text.NatToString(i);
      assert p[j][5..] == Text.NatToString(j);
      Text.NatToStringInjective(i, j);
    }
  }

  // ----- create -----

  const JsonContentType: string := "application/json"
  const MultipartContentType: string := "multipart/form-data"

  /** A create request: the raw `Content-Type` header, the `emergency_images`
    * entry of a JSON body, the number of files under `images` of a form, and
    * whether the serializer accepts the remaining fields. */
  datatype CreateRequest = CreateRequest(contentType: string, images: Option<JsonValue>, uploads: nat, fieldsValid: bool)

  datatype CreateFailure =
    | LoggerUndefined        // NameError in the image loop's handler
    | ImagesUnbound          // `processed_images` never assigned
    | NoAttachMethod         // `add_emergency_image` is not defined on the model
    | NoResponseReturned     // the JSON branch falls off the end of `create`

  datatype CreateReply =
    | UnsupportedMediaType            // 415
    | CreateInvalid                   // 400
    | CreateCrashed(cause: CreateFailure)  // 500
    | CallCreated                     // 201

  /** The reply; whether a call was saved and with which placeholder image
    * entries; how many images were attached to it; whether the dispatchers
    * were told of it. */
  datatype CreateOutcome = CreateOutcome(reply: CreateReply, saved: bool, placeholders: seq<string>,
                                         attached: nat, notified: bool)

  predicate IsJson(req: CreateRequest) { req.contentType == JsonContentType }

  predicate IsMultipart(req: CreateRequest) { Text.IndexOf(req.contentType, MultipartContentType).Some? }

  const NothingSaved: CreateOutcome := CreateOutcome(CreateInvalid, false, [], 0, false)

  /** `create` as written. */
  function CreateAsWritten(req: CreateRequest, decodes: string -> bool): (r: CreateOutcome)
    ensures r.reply == UnsupportedMediaType <==> !IsJson(req) && !IsMultipart(req)
    ensures r.reply == CallCreated <==> !IsJson(req) && IsMultipart(req) && req.fieldsValid && req.uploads == 0
    ensures r.saved ==> req.fieldsValid && (IsJson(req) || IsMultipart(req))
    ensures r.notified ==> r.saved
    ensures r.attached == 0
  {
    if IsJson(req) then
      match req.images
      case Some(JList(items)) =>
        (match ProcessedImagesAsWritten(items, decodes)
         case None => NothingSaved.(reply := CreateCrashed(LoggerUndefined))
         case Some(processed) =>
           if !req.fieldsValid then NothingSaved
           else if |processed| > 0 then
             CreateOutcome(CreateCrashed(NoAttachMethod), true, Placeholders(|processed|), 0, false)
           else CreateOutcome(CreateCrashed(NoResponseReturned), true, [], 0, true))
      case _ =>
        if !req.fieldsValid then NothingSaved else NothingSaved.(reply := CreateCrashed(ImagesUnbound))
    else if IsMultipart(req) then
      if !req.fieldsValid then NothingSaved
      else if req.uploads > 0 then CreateOutcome(CreateCrashed(NoAttachMethod), true, [], 0, false)
      else CreateOutcome(CallCreated, true, [], 0, true)
    else NothingSaved.(reply := UnsupportedMediaType)
  }

  /** `create` as evidently intended: failing images are skipped, a body
    * without an image list has no images, every processed image or uploaded
    * file is attached, and the JSON branch answers 201 like the form branch. */
  function Create(req: CreateRequest, decodes: string -> bool): (r: CreateOutcome)
    ensures r.reply == UnsupportedMediaType <==> !IsJson(req) && !IsMultipart(req)
    ensures r.reply == CreateInvalid <==> (IsJson(req) || IsMultipart(req)) && !req.fieldsValid
    ensures r.reply == CallCreated <==> (IsJson(req) || IsMultipart(req)) && req.fieldsValid
    ensures !r.reply.CreateCrashed?
    ensures r.saved <==> r.reply == CallCreated
    ensures r.notified <==> r.saved
    ensures r.saved && IsJson(req) && req.images.Some? && req.images.value.JList? ==>
              r.attached == |r.placeholders| == |ProcessedImages(req.images.value.items, decodes)|
    ensures r.saved && IsJson(req) && !(req.images.Some? && req.images.value.JList?) ==>
              r.attached == 0 && r.placeholders == []
    ensures r.saved && !IsJson(req) ==> r.attached == req.uploads
  {
    if IsJson(req) then
      if !req.fieldsValid then NothingSaved
      else match req.images
        case Some(JList(items)) =>
          var processed := ProcessedImages(items, decodes);
          CreateOutcome(CallCreated, true, Placeholders(|processed|), |processed|, true)
        case _ => CreateOutcome(CallCreated, true, [], 0, true)
    else if IsMultipart(req) then
      if !req.fieldsValid then NothingSaved
      else CreateOutcome(CallCreated, true, [], req.uploads, true)
    else NothingSaved.(reply := UnsupportedMediaType)
  }

  /** As written, the JSON branch never answers 201: when nothing else fails
    * the call is saved and announced, and the request still ends in a
    * server error because no response is returned. */
  lemma JsonCreateNeverSucceedsAsWritten(req: CreateRequest, decodes: string -> bool)
    requires IsJson(req)
    ensures CreateAsWritten(req, decodes).reply != CallCreated
    ensures req.fieldsValid && req.images == Some(JList([])) ==>
              CreateAsWritten(req, decodes) == CreateOutcome(CreateCrashed(NoResponseReturned), true, [], 0, true)
  {
  }

  /** As written, a valid JSON body without an image list fails with
    * `processed_images` unbound, and nothing is saved. */
  lemma MissingImageListCrashesAsWritten(req: CreateRequest, decodes: string -> bool)
    requires IsJson(req) && req.fieldsValid && req.images.None?
    ensures CreateAsWritten(req, decodes).reply == CreateCrashed(ImagesUnbound)
    ensures !CreateAsWritten(req, decodes).saved
    ensures Create(req, decodes).reply == CallCreated
  {
  }

  /** As written, one data URL without the `;base64,` marker ends the whole
    * request in a NameError; the intended loop skips it. */
  lemma MalformedImageCrashesAsWritten(decodes: string -> bool)
    ensures ProcessedImagesAsWritten([JString("data:image/png")], decodes).None?
    ensures ProcessedImages([JString("data:image/png")], decodes) == []
    ensures CreateAsWritten(CreateRequest(JsonContentType, Some(JList([JString("data:image/png")])), 0, true), decodes).reply
            == CreateCrashed(LoggerUndefined)
  {
    var item := JString("data:image/png");
    assert Text.StartsWith(item.s, DataImagePrefix) by {
      assert item.s[..|DataImagePrefix|] == DataImagePrefix;
    }
    NoMarkerWithoutSemicolon(item.s);
    assert Text.SplitOn(item.s, Base64Marker) == [item.s];
    assert ProcessItem(item, decodes) == Raises;
    assert [item][..0] == [];
  }

  /** As written, any attached image or uploaded file raises AttributeError
    * after the call is saved, so the call exists but was never announced. */
  lemma AttachmentsCrashAfterSaveAsWritten(req: CreateRequest, decodes: string -> bool)
    requires IsMultipart(req) && !IsJson(req) && req.fieldsValid && req.uploads > 0
    ensures CreateAsWritten(req, decodes) == CreateOutcome(CreateCrashed(NoAttachMethod), true, [], 0, false)
    ensures Create(req, decodes) == CreateOutcome(CallCreated, true, [], req.uploads, true)
  {
  }

  /** Where nothing fails the two agree: a valid form without files. */
  lemma PlainFormAgrees(req: CreateRequest, decodes: string -> bool)
    requires !IsJson(req) && req.uploads == 0
    ensures CreateAsWritten(req, decodes) == Create(req, decodes)
  {
  }
}
