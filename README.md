# Emergency ambulance dispatch — a Dafny model of the call lifecycle

This project models the core of a Django emergency-dispatch service: the
life of an emergency call from `RECEIVED` to `CLOSED`, the endpoints that move
it, and the real-time notifications that follow each move. It proves
properties of that model. The model covers:

- **`EmergencyCall`** (`emergencies/models.py`), a class with its status,
  priority, assignments and one write-once timestamp per state. `save`
  generates the call id `CALL-` plus eight upper-case hex digits if the id is
  empty. `update_status` sets any state and stamps it on first entry, without
  checking the transition.
- **The transition validator** (`emergencies/serializers.py`). It accepts only
  the immediate forward successor in the seven-state chain, and nothing from
  `CLOSED`.
- **The endpoints** of `emergencies/views.py`, `dispatch/views.py` and
  `profiles/views.py`:
  - status update: 404, then 403, then 400, then save and notify;
  - the generic detail update, which writes any status and notifies when the
    status changed;
  - the active/pending/completed filter;
  - the image upload checks;
  - the data-URL image loop and the create branches;
  - location update and dispatch;
  - paginated assignments, including Python's `int()` on the query parameters.
- **Notification fan-out** (`core/utils.py`) over a channel layer whose groups
  are a map from group name to a set of channels. Sends go to an outbox
  sequence, and a `failing` flag makes every send raise.
- **The websocket consumers** (`emergencies/consumers.py`): admission on
  connect, the initial snapshot, ping/pong, forwarding of group events, and
  leaving the group on disconnect.
- **Users and small predicates** (`core/models.py`, `core/serializers.py`,
  `profiles/models.py`): roles, password validation, user create and update,
  and licence validity.

One module per source file: `EmergencyModels`, `EmergencySerializers`,
`EmergencyViews`, `DispatchViews`, `Notifications`, `Consumers`,
`ProfilesViews`, `CoreSerializers`, `CoreModels`, `ProfilesModels`. Some
modules support them:

- `Wrappers` (Option and Result);
- `Text` (decimal formatting, search, split/join and white-space stripping);
- `ChannelLayers` (the group registry and outbox);
- `Fleet` (the ambulance record).

Objects whose fields the source updates in place are classes:
`EmergencyCall`, `Ambulance`, `ChannelLayer`, `UserAccount` and the two
consumers. The database is a map from primary key to object. Query results
and serialised records are values (`CallView`, `AmbulanceView`).

Where the specification and the code disagree, the model follows the code:

- The specification refuses a dispatch of a closed call or of a unit that is
  already assigned. `dispatch_ambulance` checks neither the call's status nor
  the unit's availability (`DispatchViews.DispatchIgnoresCurrentStatus`).
- The specification reserves `RECEIVED -> DISPATCHED` for the dispatch
  endpoint. The status validator accepts that edge
  (`EmergencySerializers.ReceivedEdges`).
- The specification sends dispatch events to the bound responder as well. The
  code sends both dispatch messages to `dispatchers` only
  (`DispatchViews.DispatchSends`).
- The specification's snapshot holds the current state of every call. The
  code's snapshot leaves out `AT_HOSPITAL` and `CLOSED` calls
  (`Consumers.InitialDataFrame`).
- The specification keeps one timestamp per state entered. Only
  `update_status`, which the dispatch endpoint calls, stamps a state. The
  status endpoint saves the new status through its serializer and leaves the
  stamps as they were (`EmergencyViews.StatusUpdateReply`). The generic detail
  update writes any status without stamping it
  (`EmergencyViews.DetailBypassesValidator`).

Some functions only name the steps the members above are stated with, and have
no row of their own, for example:

- `EmergencyViews.Patched` and `EmergencyViews.DetailPatched` (the field
  writes of `serializer.save()`);
- `EmergencyViews.IsJson` and `EmergencyViews.IsMultipart` (the
  `Content-Type` tests);
- `DispatchViews.NamesParamedic` (the `if paramedic_id:` test).

The rowed members whose contracts use them pin them down.

## Model

| member | source | states |
|---|---|---|
| `CoreModels.RolesExclusive` | core/models.py:21-27 | no user is both a dispatcher and a paramedic |
| `CoreModels.RoleChoicesClassified` | core/models.py:7-11 | of the three role choices, `dispatcher` is exactly the dispatcher, `paramedic` exactly the paramedic, and `admin` is neither |
| `CoreModels.DefaultRoleIsDispatcher` | core/models.py:13 | a user with the default role is a dispatcher and not a paramedic |
| `ProfilesModels.IsLicenseValid` | profiles/models.py:63-66 | a licence is valid iff an expiry is recorded that is neither today nor in the past |
| `ProfilesModels.LicenseValidity` | profiles/models.py:63-66 | a licence is valid iff an expiry is set and it is strictly after today; unset, today's and past expiries are invalid |
| `ProfilesModels.LicenseValidEarlier` | profiles/models.py:66 | a licence valid today was valid on every earlier day |
| `CoreSerializers.ValidatePassword` | core/serializers.py:19-24 | rejects exactly the non-empty passwords shorter than 8 characters; an accepted value is returned unchanged, missing and empty ones included |
| `CoreSerializers.AcceptedPasswordIsLong` | core/serializers.py:22-24 | a non-empty accepted password has at least 8 characters |
| `CoreSerializers.UserAccount.Create` | core/serializers.py:26-35 | the user holds every validated field except the password; a non-empty password is set, otherwise the password is unusable; with no role given the user is a dispatcher |
| `CoreSerializers.UserAccount.Update` | core/serializers.py:37-44 | every non-password field is overwritten and every other attribute is kept; the password changes only when a non-empty one is supplied |
| `EmergencyModels.Index` | emergencies/models.py:9-17 | each status has a position in the seven-state chain |
| `EmergencyModels.ParseStatus` | emergencies/models.py:9-17 | a code parses to the status with that code, and a string that is no status's code does not parse |
| `EmergencyModels.ParseCode` | emergencies/models.py:9-17 | every status reads back from its code |
| `EmergencyModels.StatusClassesPartition` | emergencies/models.py:91-101 | exactly one of pending, active and completed holds of each status |
| `EmergencyModels.StampOnEntry` | emergencies/models.py:109-120 | every existing stamp is kept (first entry wins); at most the entered state gains a stamp, and it gets `now` only if it had none; `RECEIVED` gains none |
| `EmergencyModels.Touched` | emergencies/models.py:74 | saving a stored row sets `updated_at` to the save's time and changes nothing else |
| `EmergencyModels.Upper` | emergencies/models.py:88 | the upper-cased string has the same length, character by character upper-cased |
| `EmergencyModels.GenerateCallId` | emergencies/models.py:85-88 | the id is `CALL-` followed by the first eight hex digits of the uuid, upper-cased |
| `EmergencyModels.EmergencyCall.constructor` | emergencies/models.py:50-51 | a new call is `RECEIVED` with priority `MEDIUM`, no id, no stamps, no row times and no assignment |
| `EmergencyModels.EmergencyCall.Save` | emergencies/models.py:84-89 | a call id is generated only when the id is empty and never replaced; the first save stamps the received time and `created_at`; every save sets `updated_at`; nothing else changes |
| `EmergencyModels.EmergencyCall.UpdateStatus` | emergencies/models.py:103-122 | the status becomes the target whatever it was; stamps change as `StampOnEntry`; all other fields are kept, and the call is saved, which sets `updated_at` |
| `EmergencyModels.SortedCons` | emergencies/models.py:77 | a call followed by a latest-first list is latest-first iff no later call follows it |
| `EmergencyModels.SortedBound` | emergencies/models.py:77 | in a latest-first list no call is later than the head |
| `EmergencyModels.Filter` | emergencies/models.py:77 | filtering keeps exactly the matching rows, each as many times as the input holds it, and keeps a latest-first order |
| `EmergencyModels.InsertByReceivedDesc` | emergencies/models.py:77 | inserting into a latest-first list keeps it latest-first and adds exactly the one call |
| `EmergencyModels.SortByReceivedDesc` | emergencies/models.py:77 | the result is latest-first and a permutation of the input |
| `EmergencyModels.OrderedQuery` | emergencies/models.py:76-77 | a query returns exactly the matching calls, each as often as the table holds it, latest received first |
| `EmergencySerializers.ValidTransitions` | emergencies/serializers.py:53-62 | the table lists at most one target for each state, and that target is the chain successor (none for `CLOSED`) |
| `EmergencySerializers.Successor` | emergencies/serializers.py:53-60 | the successor is the next state in the chain, and only `CLOSED` has none |
| `EmergencySerializers.ValidateStatus` | emergencies/serializers.py:49-66 | without an instance every value is accepted; with one, a value is accepted iff it is one step forward; a rejection names the current and the requested state |
| `EmergencySerializers.ValidateStatusField` | emergencies/serializers.py:42-66 | a string that is not a status choice is rejected; a choice is then checked by `validate_status` |
| `EmergencySerializers.TableIsSuccessor` | emergencies/serializers.py:53-62 | the table accepts exactly the successor |
| `EmergencySerializers.ClosedIsTerminal` | emergencies/serializers.py:60-62 | from `CLOSED` every target is rejected |
| `EmergencySerializers.NoSkips` | emergencies/serializers.py:53-65 | a target more than one step ahead is rejected |
| `EmergencySerializers.NoBackwardOrSelf` | emergencies/serializers.py:53-62 | a backward or same-state target is rejected |
| `EmergencySerializers.NoInstanceAcceptsAll` | emergencies/serializers.py:51-66 | without an instance the value is returned unchanged |
| `EmergencySerializers.ReceivedEdges` | emergencies/serializers.py:54-62 | `RECEIVED -> DISPATCHED` is accepted and `RECEIVED -> EN_ROUTE` rejected |
| `EmergencySerializers.AcceptedRunFollowsChain` | emergencies/serializers.py:53-62 | a run of accepted updates walks the chain one step at a time |
| `EmergencySerializers.FullRunVisitsEveryState` | emergencies/serializers.py:53-62 | a run of accepted updates from `RECEIVED` to `CLOSED` passes every state in order |
| `Fleet.Ambulance.AssignToEmergency` | dispatch/views.py:91 | the ambulance takes every field the external `assign_to_emergency` leaves, location included |
| `Fleet.Ambulance.SetLocation` | dispatch/views.py:40-43 | the location update changes the location and nothing else |
| `ChannelLayers.ChannelLayer.GroupAdd` | emergencies/consumers.py:20-23 | the channel joins the group; no other group and no outbox entry changes |
| `ChannelLayers.ChannelLayer.GroupDiscard` | emergencies/consumers.py:32-35 | the channel leaves the group; nothing else changes |
| `ChannelLayers.ChannelLayer.GroupSend` | core/utils.py:41-48 | a send either raises and publishes nothing, or appends exactly the one publication |
| `Notifications.ParamedicGroupInjective` | core/utils.py:51-53 | distinct paramedic ids name distinct groups |
| `Notifications.ParamedicGroupIsNotDispatchers` | core/utils.py:53 | no paramedic group is the dispatchers group |
| `Notifications.NotificationSends` | core/utils.py:41-59 | the main group receives the message first; a second, identical message goes to `paramedic_{id}` iff an id is given, 0 included |
| `Notifications.SendChannelNotification` | core/utils.py:31-63 | with no layer nothing is sent; otherwise the sends are published in order, or nothing when the layer raises; the caller never sees the exception |
| `Notifications.SendEmergencyNotification` | core/utils.py:66-85 | fan-out to `dispatchers` with type `emergency_update` and the optional paramedic |
| `Notifications.SendAmbulanceNotification` | core/utils.py:88-104 | one message to `dispatchers` with type `ambulance_update`, never to a paramedic group |
| `Notifications.SendHospitalNotification` | core/utils.py:107-123 | one message to `dispatchers` with type `hospital_update` |
| `Consumers.ActiveEmergencies` | emergencies/consumers.py:93-103 | the snapshot holds exactly the calls from `RECEIVED` to `TRANSPORTING`, each as often as the table holds it, latest received first |
| `Consumers.InitialDataFrame` | emergencies/consumers.py:67-91 | an error frame with the exception's message iff a read fails; otherwise the initial data, with the fleet and hospitals as read and exactly the calls not completed, each as often as the table holds it |
| `Consumers.SnapshotShowsCurrentState` | emergencies/consumers.py:99-101 | a call not yet completed appears in the snapshot as it now is |
| `Consumers.DispatcherConsumer.Connect` | emergencies/consumers.py:10-28 | an anonymous or non-dispatcher user is closed without joining; a dispatcher joins `dispatchers`, is accepted and is sent the initial data first |
| `Consumers.DispatcherConsumer.SendInitialData` | emergencies/consumers.py:67-91 | exactly one initial-data or error frame is sent |
| `Consumers.DispatcherConsumer.Disconnect` | emergencies/consumers.py:30-35 | the channel leaves its group and no other membership changes; a refused connection leaves nothing (the fix of a finding below) |
| `Consumers.DispatcherConsumer.Receive` | emergencies/consumers.py:37-49 | `ping` gets one `pong`, `get_initial_data` gets one snapshot, any other type or malformed JSON nothing; valid JSON that is not an object raises |
| `Consumers.DispatcherConsumer.HandleGroupMessage` | emergencies/consumers.py:51-65 | a handled group event is forwarded with its type, event and data unchanged; an unhandled type raises and sends nothing |
| `Consumers.ParamedicConsumer.Connect` | emergencies/consumers.py:126-133 | a non-paramedic is closed without joining; a paramedic joins `paramedic_{id}` and is accepted |
| `Consumers.ParamedicConsumer.Disconnect` | emergencies/consumers.py:135-137 | the channel leaves its group if it joined one; nothing else changes |
| `Consumers.ParamedicConsumer.Receive` | emergencies/consumers.py:139-146 | `ping` gets one `pong`; anything else, malformed or not, nothing |
| `Consumers.ParamedicConsumer.HandleGroupMessage` | emergencies/consumers.py:148-152 | an `emergency_update` is forwarded unchanged; other types raise |
| `Consumers.EmergencyNotificationReachesParamedic` | core/utils.py:51-59 | an emergency notification for a paramedic reaches that paramedic's group and no other paramedic's, and both consumers handle it |
| `Consumers.DispatcherHandlesAsWritten` | emergencies/consumers.py:51-65 | as written, the dispatcher consumer handles only types the corrected consumer handles, and not `hospital_update` |
| `Consumers.DispatcherDisconnectAsWritten` | emergencies/consumers.py:30-35 | as written, disconnecting raises exactly when no group name was set |
| `Consumers.RefusedDispatcherDisconnectRaises` | emergencies/consumers.py:13-17 | an anonymous connection is refused before the group name is set, so its disconnect raises |
| `Consumers.HospitalUpdateUnhandledAsWritten` | core/utils.py:118-123 | a hospital notification goes to `dispatchers`, whose consumer as written has no handler for it |
| `EmergencyViews.NotifyDispatchers` | emergencies/views.py:182-200 | one `emergency_update` to `dispatchers`, or nothing when there is no layer or it raises; never an exception |
| `EmergencyViews.ActiveEmergencies` | emergencies/views.py:212-224 | the response holds exactly the calls the filter selects (`active` by default), each as often as the table holds it, latest first |
| `EmergencyViews.FiltersSplitTable` | emergencies/views.py:212-221 | each call is in exactly one of `pending`, `active` and `completed`; an unknown filter returns every call; no filter means `active` |
| `EmergencyViews.ValidatePatch` | emergencies/views.py:175-177 | the partial patch is valid iff its status, if given, is the successor, its stripped destination is at most 200 characters, and neither text field holds a NUL character; text is stored stripped; an invalid patch has at least one error |
| `EmergencyViews.NullSurvivesStrip` | emergencies/serializers.py:42-47 | a text holds a NUL character iff its stripped text does |
| `EmergencyViews.StatusUpdateReply` | emergencies/views.py:163-204 | 404, then 403, then 400, in that order; an update moves the status only to its successor, changes nothing beyond the three patched fields and `updated_at` (the save's time), stores stripped text without NUL characters and respects the length bound |
| `EmergencyViews.StatusUpdateAuthorization` | emergencies/views.py:172-173 | a dispatcher and the assigned paramedic are never refused; a closed call is never updated |
| `EmergencyViews.UpdateEmergencyStatus` | emergencies/views.py:163-204 | the reply is `StatusUpdateReply` of the stored call, whatever the channel layer does; only an accepted update changes the call; one notification follows it unless the layer raises |
| `EmergencyViews.SavePatch` | emergencies/views.py:178-179 | the stored call becomes the patched view, with `updated_at` set to the save's time |
| `EmergencyViews.DetailNotifies` | emergencies/views.py:132-136 | the detail update notifies iff the saved status differs from the previous one |
| `EmergencyViews.PerformUpdate` | emergencies/views.py:130-158 | the call takes the written fields and `updated_at` the save's time; a `STATUS_UPDATE` is published iff the status changed and the layer does not raise |
| `EmergencyViews.DetailBypassesValidator` | emergencies/serializers.py:7-28 | the detail serializer writes any status, stamps nothing, and accepts `RECEIVED -> CLOSED`, which `validate_status` rejects |
| `EmergencyViews.ComponentStart` | emergencies/views.py:280 | the last path component starts after the last `/` and holds no `/` |
| `EmergencyViews.ExtensionDotFound` | emergencies/views.py:280 | an extension dot is the last dot, lies in the last component and follows a non-dot character of it |
| `EmergencyViews.SplitExt` | emergencies/views.py:280 | root plus extension is the name; the extension is empty or a dot followed by no dot or slash; the name splits at a dot iff that dot is its extension dot: the last dot, after some character of the last component other than a dot |
| `EmergencyViews.SplitExtExamples` | emergencies/views.py:280 | examples: `scene.jpg` splits at the dot, `.hidden` and `photo` have no extension |
| `EmergencyViews.UploadEmergencyImage` | emergencies/views.py:260-295 | 400 with no image, then for a type outside the five allowed, then above 5 MiB; a storage failure is a 500 with its message; a success names `emergency_images/` plus the uuid plus the original extension |
| `EmergencyViews.UploadSizeBoundary` | emergencies/views.py:274-276 | exactly 5 MiB is accepted, one byte more rejected |
| `EmergencyViews.DataUrlParts` | emergencies/views.py:43 | the two pieces rejoined with `;base64,` give the string back, and neither contains the marker |
| `EmergencyViews.NoMarkerWithoutSemicolon` | emergencies/views.py:43 | text without a semicolon holds no marker |
| `EmergencyViews.DataUrlPartsOfJoin` | emergencies/views.py:43 | a string with exactly one marker splits at it |
| `EmergencyViews.SemicolonFreeDataUrl` | emergencies/views.py:43 | two semicolon-free parts joined by the marker split back into themselves |
| `EmergencyViews.DataUrlPartsExample` | emergencies/views.py:43 | example: `data:image/png;base64,iVBO` splits into `data:image/png` and `iVBO` |
| `EmergencyViews.DataUrlExtension` | emergencies/views.py:44 | the extension is the suffix after the last `/`, or the whole format when it has none |
| `EmergencyViews.DataUrlExtensionExample` | emergencies/views.py:44 | example: `data:image/png` has the extension `png` |
| `EmergencyViews.ProcessItem` | emergencies/views.py:35-54 | a non-string or a string not starting `data:image` is skipped; a data URL raises iff it does not split in two or does not decode; otherwise it yields its payload and extension |
| `EmergencyViews.ProcessedImages` | emergencies/views.py:34-54 | at most one image per item, each decoded from some item of the list (the corrected loop) |
| `EmergencyViews.ProcessedImagesComplete` | emergencies/views.py:37-52 | every item that decodes contributes its image (the corrected loop) |
| `EmergencyViews.ProcessedImagesAppend` | emergencies/views.py:36-52 | one more item appends its image, if it decodes, at the end (the corrected loop) |
| `EmergencyViews.ProcessedImagesConcat` | emergencies/views.py:36-52 | the images of two lists in turn are the images of the lists one after the other: item order is kept (the corrected loop) |
| `EmergencyViews.ProcessedImagesAsWritten` | emergencies/views.py:34-54 | as written, the loop fails iff some data URL raises, because the handler's `logger` is undefined |
| `EmergencyViews.AsWrittenAgreesWhenNothingRaises` | emergencies/views.py:34-54 | when nothing raises, the loop as written yields the corrected images |
| `EmergencyViews.ProcessImages` | emergencies/views.py:34-54 | the loop computes `ProcessedImages` |
| `EmergencyViews.Placeholders` | emergencies/views.py:57 | one placeholder per image, the i-th being `temp_i` |
| `EmergencyViews.PlaceholdersDistinct` | emergencies/views.py:57 | the placeholders are pairwise distinct |
| `EmergencyViews.CreateAsWritten` | emergencies/views.py:25-97 | as written: 415 iff neither JSON nor multipart; 201 only for a valid multipart request without uploads; nothing is saved unless the fields are valid, nothing is announced unless saved, and no image is ever attached |
| `EmergencyViews.Create` | emergencies/views.py:25-97 | 415 unless JSON or multipart, 400 for invalid fields, otherwise created, saved and notified with every placeholder and upload attached (the corrected view) |
| `EmergencyViews.JsonCreateNeverSucceedsAsWritten` | emergencies/views.py:25-61 | as written, no JSON request is answered 201; a valid one is saved and notified and then fails |
| `EmergencyViews.MissingImageListCrashesAsWritten` | emergencies/views.py:32-61 | as written, a valid JSON body with no image list fails before saving, where the corrected view creates the call |
| `EmergencyViews.MalformedImageCrashesAsWritten` | emergencies/views.py:52-54 | as written, a data URL without `;base64,` makes the request fail; corrected, it is skipped |
| `EmergencyViews.AttachmentsCrashAfterSaveAsWritten` | emergencies/views.py:69-73 | as written, a multipart request with uploads saves the call and then fails without notifying |
| `EmergencyViews.PlainFormAgrees` | emergencies/views.py:63-85 | for non-JSON requests without uploads, the view as written and the corrected one agree |
| `ProfilesViews.ParseInt` | profiles/views.py:18-19 | text that is blank once `int()`'s white space is cut off does not parse, nor does a number of more than 4300 digits (CPython's `int()` limit); a parsed text ends in a digit, holds only digits and underscores after its first character, and starts with `-` when the value is negative |
| `ProfilesViews.DropUnderscores` | profiles/views.py:18-19 | removing underscores keeps only digits from a digit group |
| `ProfilesViews.DropUnderscoresOfDigits` | profiles/views.py:18-19 | a plain digit string has no underscores to remove |
| `ProfilesViews.StripNumberSpace` | profiles/views.py:18-19 | what `int()` reads neither starts nor ends with the white space it skips (ASCII 9-13, space, U+0085, U+00A0) and is no longer than the text |
| `ProfilesViews.StripNumberSpaceRemovesSpaces` | profiles/views.py:18-19 | what `int()` reads is a slice of the text, and everything around it is white space that `int()` skips |
| `ProfilesViews.SeparatorBeforeNumberRaises` | profiles/views.py:18-21 | a digit string behind one of the separators U+001C to U+001F does not parse (so the page falls back to 10 and 0), though `str.strip()` would remove the separator |
| `ProfilesViews.StripSignedDigits` | profiles/views.py:18-19 | a signed digit string has no white space to strip |
| `ProfilesViews.GroupOfDigits` | profiles/views.py:18-19 | a digit string is a digit group worth its decimal value |
| `ProfilesViews.ParseIntOfDigits` | profiles/views.py:18-19 | `int()` of a digit string, with or without a minus, is its signed value when it has at most 4300 digits, and raises otherwise |
| `ProfilesViews.ParseIntOfIntToString` | profiles/views.py:18-19 | `int()` reads back every integer as `str()` prints it when it has at most 4300 digits, and raises on a longer one |
| `ProfilesViews.PageParams` | profiles/views.py:17-21 | limit and offset default to 10 and 0, and a bad value in either resets both |
| `ProfilesViews.Slice` | profiles/views.py:25 | the slice is rows `[start, stop)` clipped to the list, empty when stop is not after start |
| `ProfilesViews.AssignedTo` | profiles/views.py:23 | exactly the caller's calls, each as often as the table holds it, latest received first |
| `ProfilesViews.PageOf` | profiles/views.py:24-31 | a negative offset or end raises; otherwise count is the total, results the slice, and `next_offset` is offset+limit iff that is below the total |
| `ProfilesViews.MyAssignments` | profiles/views.py:7-31 | 403 iff the caller is not a paramedic; otherwise the page of the caller's calls, holding only calls assigned to the caller |
| `ProfilesViews.DefaultPage` | profiles/views.py:17-25 | without parameters the first ten calls are returned |
| `ProfilesViews.ZeroLimitDoesNotAdvance` | profiles/views.py:29 | a zero limit returns the offset itself as `next_offset` |
| `ProfilesViews.WalkCoversRest` | profiles/views.py:25-29 | following `next_offset` with a positive limit returns every call from the offset on, once each and in order |
| `Text.IndexOf` | emergencies/views.py:43 | the first occurrence of the pattern, or none when it does not occur |
| `Text.LastIndexOf` | emergencies/views.py:44 | the last index of the character, or none when it does not occur |
| `Text.IntToString` | core/utils.py:53 | the decimal text is non-empty, starts with `-` iff the number is negative, and is digits otherwise |
| `Text.Strip` | emergencies/serializers.py:42-47 | the result neither starts nor ends with white space and is no longer than the text |
| `Text.TrimStartRemovesSpaces` | emergencies/serializers.py:42-47 | what the leading trim cuts off is white space |
| `Text.TrimEndRemovesSpaces` | emergencies/serializers.py:42-47 | what the trailing trim cuts off is white space |
| `Text.StripKeepsOthers` | emergencies/serializers.py:42-47 | stripping removes only white space: any other character is in the stripped text iff it is in the text |
| `Text.SplitOn` | emergencies/views.py:43-44 | a split has at least one piece |
| `Text.SplitOnPieces` | emergencies/views.py:43-44 | no piece of a split holds the separator |
| `Text.JoinSplitOn` | emergencies/views.py:43 | joining the pieces with the separator gives the text back |
| `Text.JoinLast` | emergencies/views.py:44 | a join of several pieces ends with the separator and the last piece |
| `Text.SplitOnCharPieces` | emergencies/views.py:44 | no piece of a split on one character holds that character |
| `DispatchViews.LocationReplyFor` | dispatch/views.py:28-62 | 404, then 403 for a paramedic not assigned to the unit, then 400; a raising send is a 500 after the save; success returns the moved unit |
| `DispatchViews.LocationAuthorization` | dispatch/views.py:37-38 | a dispatcher may move any unit, a paramedic not assigned to it may not |
| `DispatchViews.UpdateAmbulanceLocation` | dispatch/views.py:28-62 | the reply is `LocationReplyFor` of the stored unit; only a valid, permitted request moves it; one `LOCATION_UPDATE` to `dispatchers` follows a success |
| `DispatchViews.ParamedicFor` | dispatch/views.py:84-88 | the call gets a paramedic iff an id other than 0 is given |
| `DispatchViews.DispatchedCall` | dispatch/views.py:94-97 | the call is bound to the unit, the paramedic and the dispatcher and is `DISPATCHED`; its dispatch time is set only if unset; `updated_at` is the save's time; no other field or stamp changes |
| `DispatchViews.DispatchIgnoresCurrentStatus` | dispatch/views.py:91-97 | a closed call is moved back to `DISPATCHED`, which the status validator would refuse |
| `DispatchViews.DispatchReplyFor` | dispatch/views.py:67-132 | 403 iff not a dispatcher, then 400, then 500 for a missing call; a dispatch succeeds iff everything is found and the sends do not raise, and returns the dispatched call and unit (the corrected view) |
| `DispatchViews.DispatchReplyAsWritten` | dispatch/views.py:116-130 | as written, no dispatch succeeds without a channel layer: it fails after committing |
| `DispatchViews.DispatchWithoutLayerCrashesAsWritten` | dispatch/views.py:116-128 | without a layer, a dispatch the corrected view completes fails as written |
| `DispatchViews.DispatchRoles` | dispatch/views.py:70-88 | a non-dispatcher is refused; a dispatcher dispatches with no paramedic when the id is absent or 0 |
| `DispatchViews.DispatchSends` | dispatch/views.py:106-124 | two messages to `dispatchers`: `UNIT_DISPATCHED` with the unit, then `STATUS_UPDATE` with the call |
| `DispatchViews.CommitDispatch` | dispatch/views.py:91-97 | the unit and the call take their dispatched values |
| `DispatchViews.SendDispatchNotifications` | dispatch/views.py:103-124 | both messages are published in order, or none when the first send raises |
| `DispatchViews.CommitAndAnnounce` | dispatch/views.py:91-128 | the found call and unit take their dispatched values and every other record stays as it was; the reply is a send error when the layer raises and otherwise the dispatched call and unit, and only a success publishes `DispatchSends` (the corrected view) |
| `DispatchViews.DispatchAmbulance` | dispatch/views.py:67-132 | the reply is `DispatchReplyFor` of the stored records; nothing changes before everything is found and assigned; after that the call and unit keep their dispatched values whatever the sends do; the outbox gains `DispatchSends` on success (the corrected view) |

## Left out

- The Django ORM, `serializer.save()` persistence and file storage. The tables
  are maps from primary key to object. `default_storage.save`/`url` are one
  `StorageOutcome` parameter. Base64 decoding is a `decodes` predicate
  parameter.
- `uuid.uuid4()` and `timezone.now()` are parameters (`hex`, `uuid`, `now`).
  One `now` stands for all the clock reads of one operation. These are
  `update_status`'s own read and the separate reads `save` makes for
  `received_at`, `created_at` and `updated_at`. In the source these times can
  differ by the time between the reads; in the model, for example,
  `dispatched_at` and `updated_at` of a dispatched call are equal.
  `GenerateCallId` requires `hex` to have the shape of `uuid4().hex`.
- Binary websocket frames. Channels hands them to `receive` as `bytes_data`,
  and both consumers' `receive(self, text_data)` then raises TypeError
  (emergencies/consumers.py:37, 139). `Consumers.Incoming` has only text
  frames.
- The channel transport, `async_to_sync` and the async machinery. Concurrency
  and interleaving are not modelled.
- Partial send failure: a layer either raises on every send or on none, so
  "the first send succeeds and the second raises" is not represented.
- Ties in `order_by('-received_at')`: SQL leaves their order open, and the
  model only states latest-first order and which rows appear how often.
- dispatch/models.py and dispatch/serializers.py are not part of this model.
  Their content is abstracted as follows:
  - `assign_to_emergency` is a caller-supplied `AssignOutcome`, which
    chooses every field of the ambulance except its id;
  - the location serializer's result is the location or `None` when invalid;
  - the dispatch serializer's result is a `DispatchRequest` or `None`;
  - the ambulance's other fields are one `state` value;
  - hospitals are opaque records.
- Authentication: the detail view, `update_emergency_status`,
  `active_emergencies`, `dispatch_ambulance`, `update_ambulance_location` and
  `my_assignments` sit behind `IsAuthenticated`. It answers an anonymous request
  before the view runs. The models of these views take an authenticated
  `UserInfo` and have no reply for that case. The list/create view and the
  image upload allow anonymous requests.
- `ProfilesViews.PageOf`: the page bounds are unbounded integers. The database
  takes `LIMIT`/`OFFSET` as 64-bit integers, so a bound above 2^63-1 makes the
  query fail rather than return a page. That failure is not modelled.
- Only the three lookup failures that `dispatch_ambulance` raises are modelled.
  Ids are natural numbers, so a negative `paramedic_id` is not represented; it
  would fail like any missing id.
- Django REST framework request parsing: JSON parse errors, non-string values
  in the status patch, and fields other than `status`, `patient_condition`
  and `hospital_destination`. The generic detail update models `status`,
  `priority`, `patient_condition` and `hospital_destination`; its other
  writable fields (timestamps, assignments, caller data) are not modelled.
- The `Content-Type` header is compared exactly as written: no parameter
  parsing and no case folding.
- Python `int()` and `str.strip()` on non-ASCII digits, and on white space
  beyond Latin-1. `Text.IsSpace` is the white space of `str.strip()`, which is
  the trim of the status serializer's text fields: ASCII 9-13, the separators
  28-31, space, U+0085 and U+00A0. `ProfilesViews.IsNumberSpace` is what
  `int()` skips around a number: the same set without the separators 28-31.
- Latitude, longitude and hospital capacity. A location is an opaque pair.
- Password hashing (`set_password`): the model records which password was set,
  not its hash.
- Logging (`logger.warning`) prints nothing observable and is omitted.
- `DispatchViews.DispatchAmbulance`: it models `dispatch_ambulance` as
  corrected. Without a channel layer it answers the dispatched call and unit,
  where the code as written fails after committing (see Findings and
  `DispatchViews.DispatchReplyAsWritten`). `assign_to_emergency` is also
  taken not to change the call object it is given: only the dispatch view's
  own writes to the call are modelled.
- `EmergencyViews.Create`: the `NEW_EMERGENCY` notification is recorded only
  as the `notified` flag. The request model holds no call fields, so the
  message itself is not built. Its shape, the send to `dispatchers` and the
  swallowed send failure are those of `EmergencyViews.NotifyDispatchers`.
- `EmergencyViews.DetailPatched`: it takes the patch after the detail
  serializer's own field checks (choices, lengths, NUL characters, white-space
  stripping), which are not modelled on the detail route.
- `Consumers.DispatcherConsumer.HandleGroupMessage`: it is modelled with the
  `hospital_update` handler that the corrected consumer has (see Findings).
  The as-written handler set is `Consumers.DispatcherHandlesAsWritten`.

## Findings

| source | as written | input that shows it | evidently intended | confidence | as-written member | corrected member |
|---|---|---|---|---|---|---|
| emergencies/views.py:53 | the handler for a bad data-URL image calls `logger.error`, but the module defines no `logger`, so the handler raises NameError | a JSON body whose `emergency_images` is `["data:image/png"]` | log the error and skip the image | not executed | `EmergencyViews.MalformedImageCrashesAsWritten` | `EmergencyViews.ProcessImages` |
| emergencies/views.py:61 | `processed_images` is bound only when the body holds an image list, so UnboundLocalError follows otherwise | a valid JSON body without `emergency_images` | create the call with no images | not executed | `EmergencyViews.MissingImageListCrashesAsWritten` | `EmergencyViews.Create` |
| emergencies/views.py:25-61 | the JSON branch ends without a `return`, so the view returns None after saving and notifying | any valid JSON body with an image list, e.g. `[]` | answer 201 with the created call | not executed | `EmergencyViews.JsonCreateNeverSucceedsAsWritten` | `EmergencyViews.Create` |
| emergencies/views.py:73 | `add_emergency_image` is not a method of `EmergencyCall`, so the call is saved and the request then fails | a multipart request carrying one image | attach each file, then notify | not executed | `EmergencyViews.AttachmentsCrashAfterSaveAsWritten` | `EmergencyViews.Create` |
| emergencies/consumers.py:30-35 | `disconnect` reads `self.group_name`, which a refused `connect` never set | an anonymous websocket connection that then closes | skip the discard, as `ParamedicConsumer.disconnect` does | not executed | `Consumers.RefusedDispatcherDisconnectRaises` | `Consumers.DispatcherConsumer.Disconnect` |
| core/utils.py:118-123 | hospital notifications go to `dispatchers` with type `hospital_update`, and `DispatcherConsumer` has no handler for that type | any `send_hospital_notification` while a dispatcher is connected | forward it like the other updates | not executed | `Consumers.HospitalUpdateUnhandledAsWritten` | `Consumers.DispatcherConsumer.HandleGroupMessage` |
| dispatch/views.py:116-128 | `EmergencyCallSerializer` is imported only inside `if channel_layer:` but used for the response, so without a layer the committed dispatch fails with UnboundLocalError | a valid dispatch with no channel layer configured | import it unconditionally and answer 200 | not executed | `DispatchViews.DispatchWithoutLayerCrashesAsWritten` | `DispatchViews.DispatchAmbulance` |
