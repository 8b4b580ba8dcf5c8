# Calendar-to-Salesmap deal stage sync: a Dafny model

This project models the core of a small service that watches Google
Calendars and moves Salesmap deals between pipeline stages. A user signs in
with Google, stores a Salesmap API key and maps each calendar to a pipeline
stage. A watch channel is registered per calendar. When Google pushes a
change notification, the service acknowledges it, works out which user the
channel belongs to, fetches the changed event, reads the deal tag
`[SALESMAP:<deal id>]` from its description, and moves that deal to the stage
mapped for the event's calendar.

The model is functional. Records are immutable datatypes and operations are
pure functions. Every outside call is an input: the Google API, the Salesmap
API, user-file reads and writes, and the clock. Each operation returns what
it would send or store.

| Dafny module (file) | models |
|---|---|
| `Js` (js.dfy) | the JavaScript semantics relied on: `undefined`, string truthiness, `x \|\| fallback`, `Array.prototype.find` |
| `Text` (text.dfy) | `String.prototype.split`/`join` on one character, `trim` with the ECMAScript white-space set, decimal rendering of a timestamp |
| `Helpers` (helpers.dfy) | src/utils/helpers.js: deal-tag extraction and the environment mapping table |
| `Mappings` (mappings.dfy) | src/models/Mapping.js: the mapping record |
| `Users` (users.dfy) | src/models/User.js: user defaults, mapping upsert and delete |
| `GoogleCalendar` (google_calendar.dfy) | src/services/googleCalendar.js: channel id, watch request, stop, event fetch |
| `WebhookController` (webhook_controller.dfy) | src/controllers/webhookController.js: header decoding, the notification handler, manual setup |
| `RenewWebhook` (renew_webhook.dfy) | src/scripts/renewWebhook.js: channel renewal |
| `UserController` (user_controller.dfy) | src/controllers/userController.js: the settings endpoints |

The handler `WebhookController.Handle` is a function of four things: the
notification headers, a channel-id decoder, a deal-id reader, and a `World`.
The handler as written plugs in the positional decoder and
`Helpers.ExtractDealId`; the handler lemmas hold for any decoder and reader.
The `World` holds
the stored users, the settled event fetch and the settled deal update. The
handler returns an ordered effect trace (acknowledge, look up the user, fetch
the event, update the deal) and the reason processing stopped.

The model follows the code as written. In particular:
- The deal tag is `[SALESMAP:...]`.
- Renewal stops the old channel *before* it sets up the new one.
- The user id is read positionally, as the third `-`-separated piece of the
  channel id.

## Model

| member | source | states |
|---|---|---|
| Text.JoinSplit | src/controllers/webhookController.js:113 | joining the pieces of `split` with the separator gives back the string |
| Text.FirstPieceIsWhole | src/controllers/webhookController.js:113-116 | the first piece of `split` is the whole string exactly when the separator does not occur |
| Text.SplitLength | src/controllers/webhookController.js:113-116 | `split` gives one more piece than there are separators |
| Text.SplitPieceLacksSeparator | src/controllers/webhookController.js:113-116 | no piece of `split` contains the separator |
| Text.SplitAroundSeparator | src/controllers/webhookController.js:113 | splitting `a + sep + b` gives the pieces of `a` followed by the pieces of `b` |
| Text.TrimIsInfix | src/utils/helpers.js:41 | `trim` returns the infix left after removing the leading and the trailing white space, and only white space is removed |
| Text.TrimEmptyIffAllWhite | src/utils/helpers.js:40-41 | `trim` gives the empty string exactly when every character is white space |
| Text.TrimIdempotent | src/utils/helpers.js:41 | trimming twice is trimming once |
| Text.ParseDecimalOfDecimal | src/services/googleCalendar.js:39-50 | reading back the decimal rendering of a timestamp gives the timestamp |
| Helpers.ExtractDealId | src/utils/helpers.js:32-45 | a missing or empty description gives no deal id, and a returned id never contains `]` |
| Helpers.ExtractDealIdIsLeftmostTrimmedCapture | src/utils/helpers.js:38-42 | when the tag pattern matches at a position and nowhere to its left, the id is the trimmed capture at that position |
| Helpers.LeftmostMatch | src/utils/helpers.js:38 | the regular expression's match is the leftmost position where the tag pattern matches; none exactly when it matches nowhere |
| Helpers.MatchAtDetermined | src/utils/helpers.js:38 | at one position the capture is unique, because it ends at the first `]` |
| Helpers.ExtractDealIdNoMatch | src/utils/helpers.js:38-44 | a description the pattern matches nowhere gives no deal id |
| Helpers.WhiteOnlyTagYieldsEmptyId | src/utils/helpers.js:40-41 | a tag holding only white space gives the empty id, not an absent one |
| Helpers.AllCalendarMappings | src/utils/helpers.js:51-64 | a calendar id is in the table exactly when some prefixed variable with non-empty calendar and stage ids names it; its stage comes from the last such variable |
| Helpers.EntryKeepsFirstTwoPieces | src/utils/helpers.js:56 | destructuring a variable's value keeps its first two `=`-pieces as calendar and stage id; text after a second `=` is dropped |
| Helpers.NonEntryLeavesTable | src/utils/helpers.js:54-60 | a variable without the prefix, or with an empty calendar or stage id, does not change the table |
| Helpers.StageIdForCalendar | src/utils/helpers.js:6-25 | a returned stage id is never empty |
| Helpers.StageIdAgreesWithTable | src/utils/helpers.js:6-25 | for a non-empty calendar id, the stage lookup agrees with the mapping table; the A/B/C presets add nothing |
| Helpers.UnmappedCalendarHasNoStage | src/utils/helpers.js:24 | a calendar no table entry names has no stage |
| Mappings.NewMapping | src/models/Mapping.js:9-20 | the seven descriptive fields are the given non-empty values or `''`; `active` is the given boolean and is true only when missing; missing timestamps take the clock reading |
| Mappings.ToObject | src/models/Mapping.js:26-39 | the plain object carries all ten fields, with `active` the mapping's boolean; a stamped mapping is rebuilt from it unchanged at any clock reading |
| Mappings.IsValid | src/models/Mapping.js:45-52 | a mapping is valid exactly when the user, calendar, pipeline and stage ids of its plain object are all truthy |
| Mappings.ToObjectRoundTrip | src/models/Mapping.js:9-39 | rebuilding a mapping from its plain object reproduces it, exactly when its empty timestamps could be refilled by the clock |
| Mappings.NewMappingIsStamped | src/models/Mapping.js:18-39 | a mapping built at a non-empty clock reading has both timestamps and survives the round trip |
| Mappings.NewMappingValidIff | src/models/Mapping.js:45-52 | a built mapping is valid exactly when the user, calendar, pipeline and stage ids were given non-empty |
| Mappings.EmptyMappingDefaults | src/models/Mapping.js:9-20 | a mapping built from nothing is empty, active, stamped with the clock, and not valid |
| Users.NewUser | src/models/User.js:16-25 | missing fields default to `''`, `{}` and `[]`; a missing or empty `createdAt` or `updatedAt` takes the clock reading, a non-empty one is kept |
| Users.FindIndex | src/models/User.js:138 | the index of the first entry with the calendar id, or -1 when none has it |
| Users.UpsertMapping | src/models/User.js:136-157 | an existing calendar id replaces only its first entry, in place, by that entry overridden with the incoming fields; a new one is appended once with both timestamps set |
| Users.UpsertThenFind | src/models/User.js:136-157 | after an upsert, the first entry with the calendar id carries the incoming stage, pipeline and active flag |
| Users.UpsertKeepsCalendarsUnique | src/models/User.js:138-153 | an upsert keeps calendar ids unique |
| Users.DeleteMapping | src/models/User.js:164-166 | the survivors are exactly the entries with another calendar id |
| Users.DeleteDistributes | src/models/User.js:165 | deletion keeps the order of the survivors |
| Users.DeleteAbsentIsIdentity | src/models/User.js:165 | deleting an id no entry has changes nothing |
| Users.DeleteIdempotent | src/models/User.js:165 | deleting twice is deleting once |
| Users.AddOrUpdateMapping | src/models/User.js:136-158 | the user's list becomes the upsert of the incoming mapping; id, email, name, key, tokens and `createdAt` are unchanged, and the save stamps `updatedAt` |
| Users.DeleteUserMapping | src/models/User.js:164-167 | the user's list becomes the filtered list, so no mapping has the calendar id; id, email, name, key, tokens and `createdAt` are unchanged, and the save stamps `updatedAt` |
| Users.DeleteUndoesUpsert | src/models/User.js:136-166 | deleting a calendar id after upserting it gives the same list as deleting it before |
| GoogleCalendar.ChannelIdFor | src/services/googleCalendar.js:42 | the channel id is the fixed prefix followed by the user id, `-` and the timestamp |
| GoogleCalendar.WatchRequestFor | src/services/googleCalendar.js:34-52 | the calendar defaults to `primary` only when missing; the expiry reads back as the clock plus seven days in milliseconds |
| GoogleCalendar.SetupWebhookForUser | src/services/googleCalendar.js:34-71 | the watch request carries the channel id and calendar, and the gateway's answer or failure is passed on unchanged |
| GoogleCalendar.LaterSetupExpiresLater | src/services/googleCalendar.js:39 | a later setup asks for a later expiry |
| GoogleCalendar.StopWebhook | src/services/googleCalendar.js:80-100 | `channels.stop` is sent with the given credentials and ids; the result is true on success and the failure is rethrown |
| GoogleCalendar.GetEvent | src/services/googleCalendar.js:109-127 | the fetch never fails; a failure yields no event, and the calendar defaults to `primary` |
| WebhookController.ExtractUserId | src/controllers/webhookController.js:111-126 | a user id is returned exactly when the channel id has at least two `-`; it contains no `-`; a missing header gives none |
| WebhookController.ExtractUserIdIsThirdPiece | src/controllers/webhookController.js:113-116 | for `-`-free `a`, `b`, `c`, the id decoded from `a-b-c-t` is `c`, whatever `t` holds |
| WebhookController.ExtractUserIdIsThirdOfThree | src/controllers/webhookController.js:113-116 | for `-`-free `a`, `b`, `c`, the id decoded from `a-b-c` is `c` |
| WebhookController.BarePrefixDecodesToEmpty | src/controllers/webhookController.js:113-116 | the bare prefix decodes to the empty id, which is not a usable id |
| WebhookController.BarePrefixStopsHandler | src/controllers/webhookController.js:39-44 | an `exists` notification on the bare prefix stops after the 200 with no user id |
| WebhookController.PositionalDecodeRoundTrip | src/controllers/webhookController.js:113-118 | decoding a channel id built for a user gives the user id's first `-` piece; it gives the whole id exactly when the id has no `-` |
| WebhookController.PositionalDecodeAttributes | src/services/googleCalendar.js:42 | the handler looks up the right user exactly when the id is non-empty and has no `-` |
| WebhookController.PositionalDecodeTakesFirstPiece | src/controllers/webhookController.js:113-116 | a user id with a `-` is decoded to the text before its first `-` |
| WebhookController.PositionalDecodeLosesUuid | src/controllers/authController.js:42 | the sample UUID user id `0f8c2a1e-4b7d-4c3a-9e21-5d6f7a8b9c0d` is decoded to its first eight hex digits, `0f8c2a1e` |
| WebhookController.DecodeUserId | src/services/googleCalendar.js:42 | the corrected decoder answers exactly when a `-` follows the fixed prefix, and then the channel id starts with the prefix, the decoded id and a `-` |
| WebhookController.DecodeUserIdRoundTrip | src/services/googleCalendar.js:42 | the corrected decoder recovers every user id from the channel id built for it |
| WebhookController.ExtractEventId | src/controllers/webhookController.js:131-144 | an event id is returned exactly when the header is present, and it contains no `_` |
| WebhookController.ExtractEventIdIsLastPiece | src/controllers/webhookController.js:135-136 | the event id is the suffix after the last `_`, or the whole id when there is no `_` |
| WebhookController.EventCalendarId | src/controllers/webhookController.js:76 | the organizer's email when non-empty, otherwise the event's calendar id |
| WebhookController.FindActive | src/controllers/webhookController.js:79-81 | the first entry with the calendar id and `active === true`; none exactly when no entry is both |
| WebhookController.Handle | src/controllers/webhookController.js:10-105 | the 200 `OK` comes first and only once; `sync` and any state other than `exists` end processing with no call; an unusable user id stops with no call; an unknown user stops after the lookup, with no fetch; for a known user the lookup is followed by the event fetch, and processing stops there with `EventNotFound`, `NoDealId` or `NoActiveMapping` when that check fails |
| WebhookController.HandleNotification | src/controllers/webhookController.js:10-105 | the handler as written acknowledges first |
| WebhookController.HandleNotificationCorrected | src/controllers/webhookController.js:10-105 | the handler with the corrected decoder acknowledges first |
| WebhookController.ActionableEffects | src/controllers/webhookController.js:39-97 | when every check passes, the trace is: acknowledge, look up the user, fetch the event, update the deal with the user's key, the deal id and the first active mapping's stage |
| WebhookController.NotActionableNoUpdate | src/controllers/webhookController.js:39-88 | when some check fails, the deal is not updated |
| WebhookController.UpdateIffActionable | src/controllers/webhookController.js:39-97 | the deal is updated exactly when every check passes |
| WebhookController.DealUpdateComesLast | src/controllers/webhookController.js:90-97 | a deal update is made at most once, as the fourth and last effect |
| WebhookController.DealFailureIsOnlyLogged | src/controllers/webhookController.js:91-104 | a failed deal update changes no effect, only the logged reason |
| WebhookController.InactiveMappingNeverUpdates | src/controllers/webhookController.js:79-88 | without an active mapping for the event's calendar, no deal is updated |
| WebhookController.NoUserIdNoCalls | src/controllers/webhookController.js:39-44 | without a usable user id, nothing follows the acknowledgement |
| WebhookController.LooksUpDecodedUser | src/controllers/webhookController.js:39-47 | an `exists` notification with a usable id looks up exactly that id |
| WebhookController.CorrectedHandlerAttributes | src/controllers/webhookController.js:39-47 | with the corrected decoder, a notification is attributed to the user its channel was made for |
| WebhookController.PositionalHandlerMisattributes | src/controllers/webhookController.js:39-47 | as written, a notification on the channel of the sample UUID user `0f8c2a1e-4b7d-4c3a-9e21-5d6f7a8b9c0d` looks up `0f8c2a1e` instead |
| WebhookController.EntryFor | src/controllers/webhookController.js:166-192 | the entry names its calendar and is a success exactly when the setup succeeded; a success carries the channel id, resource id and expiry returned, a failure the error message |
| WebhookController.SetupEntries | src/controllers/webhookController.js:165-193 | one entry per calendar, in order; a failure is recorded and the loop goes on |
| WebhookController.SetupUserWebhooksWith | src/controllers/webhookController.js:154-199 | a missing or empty calendar list is refused with 400 and no entries; otherwise 200 with one entry per calendar |
| WebhookController.SetupUserWebhooks | src/controllers/webhookController.js:154-199 | as written: a missing or empty list gives 400 and no entries; otherwise 200 and, for each calendar in order, a failure entry carrying the `ReferenceError` |
| WebhookController.SetupUserWebhooksCorrected | src/controllers/webhookController.js:154-199 | corrected: a missing or empty list gives 400 and no entries; otherwise 200 with one entry per calendar, in order |
| WebhookController.SetupAlwaysFails | src/controllers/webhookController.js:167 | as written, every calendar's entry is a failure |
| WebhookController.CorrectedCall | src/services/googleCalendar.js:34-71 | the corrected setup call for one calendar settles as its watch request does |
| WebhookController.CorrectedSetupReportsEachCalendar | src/controllers/webhookController.js:165-193 | corrected: each entry succeeds exactly when its watch request does; a success reports the channel id, resource id and expiry the gateway returned, a failure its error message |
| RenewWebhook.RenewWith | src/scripts/renewWebhook.js:16-76 | renewal succeeds exactly when the setup and the write do; a failure leaves the file as it was; success stores the new channel; a watch request appears exactly when the setup sent one |
| RenewWebhook.StopIffBothIds | src/scripts/renewWebhook.js:20-43 | the old channel is stopped exactly when the file was read and holds both ids; then the stop is the first call, made once |
| RenewWebhook.UnreadableIsLikeMissing | src/scripts/renewWebhook.js:20-31 | an absent or unreadable file is not an error: no stop, same calls, same outcome |
| RenewWebhook.StopFailureIsSwallowed | src/scripts/renewWebhook.js:35-42 | how the stop settles changes nothing |
| RenewWebhook.StopBeforeSetup | src/scripts/renewWebhook.js:33-61 | the stop comes before the new watch request, and the write is the last call |
| RenewWebhook.FileChangesOnlyOnSuccess | src/scripts/renewWebhook.js:46-75 | renewal succeeds exactly when the setup and the write do; a failure is rethrown and leaves the file as it was; success stores the new ids, write time and expiry |
| RenewWebhook.RenewWebhook | src/scripts/renewWebhook.js:8-76 | as written, the run fails with the missing `setupWebhook`, leaves the file unchanged and sends no watch request |
| RenewWebhook.RenewalAlwaysFails | src/scripts/renewWebhook.js:8 | as written, renewal always fails, sends no watch request and leaves the file unchanged |
| RenewWebhook.StopArgumentsShifted | src/scripts/renewWebhook.js:36 | as written, the stop sends the channel id as credentials, the resource id as channel id, and no resource id |
| RenewWebhook.RenewWebhookCorrected | src/scripts/renewWebhook.js:16-76 | corrected: the run succeeds exactly when the watch and the write do, a failure leaves the file unchanged, and the user's watch request is always sent |
| RenewWebhook.CorrectedRenewalReplacesChannel | src/scripts/renewWebhook.js:16-76 | corrected: the old channel is stopped with its own ids, a channel for the user is requested, and the file then holds the new channel |
| UserController.GetUserInfo | src/controllers/userController.js:11-44 | 401, then 404; Google auth iff the access token is truthy, Salesmap iff the key is non-empty, count = number of mappings |
| UserController.UpdateSalesmapApiKey | src/controllers/userController.js:49-94 | checks 401, 400, 404, then key validation (400); the key is stored only after validation and save succeed, otherwise nothing changes |
| UserController.ApiKeyShowsInUserInfo | src/controllers/userController.js:32-33 | after the key is stored, the user summary reports a Salesmap key |
| UserController.GetMappings | src/controllers/userController.js:99-122 | 401, then 404, otherwise the stored list |
| UserController.MappingFor | src/controllers/userController.js:198-207 | the built mapping is active and copies the ids and names of the found calendar, pipeline and stage |
| UserController.AddOrUpdateMapping | src/controllers/userController.js:127-224 | the checks run in the fixed order 401, 400, 404, 400 token, 400 key, 500 listing, 404 calendar; success stores an active mapping with the requested ids; any refusal changes nothing |
| UserController.AddMappingStageLookup | src/controllers/userController.js:179-222 | 404 for an unknown pipeline; otherwise the stage is looked up only in the first pipeline with that id, and 500 with nothing changed when that pipeline has no stage list |
| UserController.AddMappingStoresWhenChecksPass | src/controllers/userController.js:127-224 | a request that passes every check (the calendar is listed, and the first pipeline with the id lists the stage) is stored as the upsert of the new mapping when the save succeeds, and answered with 500, changing nothing, when it fails |
| UserController.AddMappingCopiesFoundNames | src/controllers/userController.js:170-207 | the saved names are those of the first listed calendar with the requested id, the first pipeline with the requested id, and the first stage with the requested id in that pipeline's stage list |
| UserController.UpsertedMappingIsFoundActive | src/models/User.js:138-146 | the mapping an upsert stores as active is the one the notification handler then finds for that calendar |
| UserController.SavedMappingDrivesDealUpdate | src/controllers/userController.js:198-210 | once a mapping is saved, a notification for a tagged event on that calendar moves the deal to the mapped stage |
| UserController.DeleteMapping | src/controllers/userController.js:229-276 | checks 401, 400, 404 user, then 404 when no mapping has the id, changing nothing; otherwise every such mapping is removed |
| UserController.DeleteShrinks | src/controllers/userController.js:253-263 | deleting an id some mapping has makes the list shorter |
| UserController.DeletedMappingStopsDealUpdates | src/controllers/userController.js:263 | after a deletion, no notification for that calendar updates a deal for that user |
| UserController.EntryOf | src/controllers/userController.js:307-313 | `primary` is true only when the listed flag is exactly `true` |
| UserController.GetUserCalendars | src/controllers/userController.js:281-323 | 401, 404, 400 without a Google token, 500 on a failed listing; otherwise one entry per calendar with `primary` only for an exact `true` |
| UserController.GetPipelines | src/controllers/userController.js:328-361 | 401, 404, 400 without a key, 500 on a failed listing; otherwise the listed pipelines |

## Left out

- The remote calls are inputs: Google `events.watch`, `channels.stop`, `events.get` and `calendarList.list`, and Salesmap `updateDealStage` and `listPipelines`. The model does not build OAuth clients or HTTP requests.
- User files are a map from id to user. `findById` of an unreadable file, `findByEmail`, `findAll` and `delete` are left out. `save` is a flag saying whether the write succeeded, and a successful save writes the user under its own id.
- Logging is left out. The handler's final log line is kept only as a `Reason`.
- The handler's "respond, then keep working" is modelled as ordered phases in one trace, not as concurrency.
- Clock reads are one parameter per operation, even where the source reads the clock several times. ISO date rendering is not modelled: timestamps are opaque strings, and expiries are milliseconds as natural numbers.
- JSON values of the wrong type are not modelled: a non-string header, description or id, or a non-boolean `active`. Fields are either a string (a boolean for `active`) or missing.
- JavaScript object-key quirks in the environment table are not modelled. Prototype names such as `__proto__` are treated as ordinary keys. The order of the environment follows its sequence, and `Object.keys` integer-key ordering is ignored.
- The `mkdir` before the renewal write is part of the write outcome. A partial write is treated as no write.
- `Promise.all` in `addOrUpdateMapping` is modelled as both listings settling first. If either fails the answer is 500, whichever fails first.
- The environment is a sequence of name and value bindings; `process.env` cannot hold a name twice. With a repeated name, `EnvGet` reads the last binding while `AllCalendarMappings` folds every binding in order, so the model is meant only for environments with distinct names.
- Helpers.StageIdAgreesWithTable: stated only for non-empty calendar ids. For the empty id, a `CALENDAR_MAPPING_A/B/C` value starting with `=` gives the presets an empty key with a stage that the table does not hold.
- WebhookController.HandleNotification: its own contract states only the acknowledgement. What it does for channel ids this service builds is stated by PositionalDecodeRoundTrip, PositionalHandlerMisattributes and the generic `Handle` lemmas.
- WebhookController.HandleNotificationCorrected: its own contract states only the acknowledgement. The rest is stated by CorrectedHandlerAttributes and the generic `Handle` lemmas.
- UserController.AddOrUpdateMapping: its own contract states the refusals up to the calendar check and what a success stores. The pipeline and stage refusals are stated by AddMappingStageLookup, and that a request passing every check is stored is stated by AddMappingStoresWhenChecksPass. A pipeline without a stage list gives 500, as the thrown `TypeError` caught by the handler does; this too is stated by AddMappingStageLookup.
- Authentication routes, Express wiring, sessions (the session's user id is an input), the browser pages and the logger configuration are not part of this model.

## Findings

| source | as written | input that shows it | evidently intended | confidence | as-written member | corrected member |
|---|---|---|---|---|---|---|
| src/controllers/webhookController.js:113-116 | the user id is the third `-`-separated piece of the channel id | user id `0f8c2a1e-4b7d-4c3a-9e21-5d6f7a8b9c0d` (every id is a UUID, src/controllers/authController.js:42) decodes to `0f8c2a1e`, so the user is not found and no deal is ever updated | strip `calendar-webhook-` and drop the trailing timestamp, keeping every `-` of the user id | high; not executed | WebhookController.PositionalHandlerMisattributes | WebhookController.CorrectedHandlerAttributes |
| src/controllers/webhookController.js:167 | `setupWebhookForUser` is called but never imported in this file | any non-empty `calendarIds`: each call throws `ReferenceError` and every entry reports failure | import the service function so each calendar is watched | high; not executed | WebhookController.SetupAlwaysFails | WebhookController.CorrectedSetupReportsEachCalendar |
| src/scripts/renewWebhook.js:8 | imports `setupWebhook`, which src/services/googleCalendar.js:197-207 does not export; calls `stopWebhook(oldChannelId, oldResourceId)` against the three-parameter `stopWebhook(tokens, channelId, resourceId)` | any run: the setup throws `setupWebhook is not a function` and renewal fails; a stored channel is stopped with its ids shifted one place | set up through `setupWebhookForUser` and stop with the tokens and both ids | high; not executed | RenewWebhook.RenewalAlwaysFails | RenewWebhook.CorrectedRenewalReplacesChannel |
