# Timely alarm sync engine — a Dafny model

This project models the core of the Timely backend, an alarm service that
keeps one user's alarms in step across devices. It covers:

- the alarms, devices and refresh-token tables and their row mapping;
- the sync engine, which uploads a device's drafts and returns every alarm
  changed since that device's last sync watermark;
- the single-alarm create, update, delete and toggle operations, with their
  socket and push fan-out;
- the socket presence maps;
- the push-notification guard and its token pruning;
- the alarm payload middleware and the alarm controller's request checks and
  status mapping;
- the refresh-token state machine: rotation, reuse detection, revocation and
  purge.

Each table is a class holding `rows: seq<Row>` and an AUTOINCREMENT counter
`nextId`. Each of its methods is proved equal to a pure transition function
on the rows, and the properties are lemmas about those functions. Time is a
natural number of milliseconds, and clock readings are parameters. An
operation that reads the clock several times may get one reading for all of
them; "## Left out" lists where. Several calls become function parameters or
fields:

- `JSON.parse`;
- JWT sign and verify;
- bcrypt hash and compare;
- the user lookups of `UserModel`;
- the Firebase provider;
- the random selector and verifier.

A database fault the code branches on becomes a boolean argument
(`insertOk`). Uniqueness is an invariant of the row sequences (`Valid()`):
one device row per `(user_id, device_id)` and one refresh-token row per
selector.

Modules, one per source file:

- `Common`, `Json`: shared helpers and the JSON value type.
- `Alarms`: src/models/Alarm.ts.
- `Devices`: src/models/Device.ts.
- `DeviceRegistration`: src/services/deviceService.ts.
- `Sockets`: src/services/socketService.ts.
- `Notifications`: src/services/notificationService.ts.
- `AlarmSync`: src/services/alarmService.ts.
- `PayloadValidation`: src/middleware/validateAlarmPayload.ts.
- `AlarmRequests`: src/controllers/alarmController.ts.
- `RefreshTokens`: src/models/RefreshToken.ts.
- `Auth`: src/services/authService.ts.

Where the code does something other than its comments and names suggest,
the model follows the code:

- A client's own uploads can come back on its next sync. The watermark is
  the sync's start time, and a draft write is stamped with a later clock
  reading. The row is selected again only when `updated_at > last_sync`, so
  only when the write falls strictly after the start; a write in the same
  millisecond is not returned. This is why `AlarmSync.UploadComesBack` requires
  the first write's reading to exceed the start.
- Sync re-upserts the device with the default name `Device <first 6 chars>`,
  so a custom device name is reset.
- `create` uses `||` defaults, so a snooze interval or count of 0 becomes 5
  or 3 (`Alarms.CreateZeroSnoozeReadsBackFive`). An empty sound or device id
  becomes null.
- The middleware checks `no_repeat`, while the controller and the table use
  `noRepeat`.
- The sync engine checks for a missing device after the upsert, but that
  branch is unreachable: the upsert throws instead of returning nothing.
- The controller passes no sender device id to create, update, delete or
  toggle, so push goes to every device of the user that holds a token.
- `deleteExpiredTokens` compares `revoked_at` with SQLite `date(now, '-30
  days')`. That is a midnight cutoff, not exactly 30 days
  (`RefreshTokens.PurgeCutoff`).
- The controller's days check does not require integers
  (`AlarmRequests.HandlersAcceptFractionalDay`). Only the middleware, which
  runs before create and update, rejects `2.5`; toggle and sync are not
  behind it.

## Model

| member | source | states |
|---|---|---|
| Alarms.DecodeRow | src/models/Alarm.ts:23-43 | every row column becomes the record field; a boolean decodes as true exactly when the stored value is 1 |
| Alarms.MapRowToAlarm | src/models/Alarm.ts:23-43 | a missing row gives null; a present row gives its decoded record |
| Alarms.DecodeAll | src/models/Alarm.ts:77-84 | rows are decoded one by one, keeping length and order |
| Alarms.MapAlarmToDbValues | src/models/Alarm.ts:45-65 | a column is emitted exactly for each defined field; `id` is never a column; booleans are stored as 0/1 |
| Alarms.TextColumnsOfRecord | src/models/Alarm.ts:45-65 | each text column of the dictionary reads as the record's field, absent when the field is undefined |
| Alarms.IntColumnsOfRecord | src/models/Alarm.ts:45-65 | each integer column holds its field, booleans as 1/0, absent when undefined |
| Alarms.InsertRowFlags | src/models/Alarm.ts:95-123 | every flag column of an inserted row is 0 or 1 |
| Alarms.CreateIn | src/models/Alarm.ts:95-123 | insert succeeds exactly when the NOT NULL fields are present; it appends one row with the next id, the owner and updated_at = now; failure changes nothing |
| Alarms.CreateReadBack | src/models/Alarm.ts:95-123 | reading a created alarm back gives the given fields, or defaults: vibration and active true, no_repeat false, snooze 5 and 3 whenever falsy, sync status 'pending', device id null |
| Alarms.CreateZeroSnoozeReadsBackFive | src/models/Alarm.ts:109-116 | a snooze interval of 0 is stored as 5, so the read-back differs from what was given |
| Alarms.RowFor | src/models/Alarm.ts:68-75 | the row found matches both id and user; none is found only when no row matches both |
| Alarms.Writable | src/models/Alarm.ts:132-142 | the update columns are exactly the given columns minus id, user_id, created_at and updated_at |
| Alarms.WritableReads | src/models/Alarm.ts:132-142 | filtering out the protected columns does not change any other column |
| Alarms.WrittenSkipsProtected | src/models/Alarm.ts:132-142 | dropping the protected columns from the dictionary leaves the written row the same |
| Alarms.NothingWritable | src/models/Alarm.ts:132-144 | when no `SET` clause remains, the partial defines none of the editable fields, the vibration and snooze settings included |
| Alarms.WrittenTextReadBack | src/models/Alarm.ts:130-153 | writing a record's dictionary replaces exactly the text fields it defines |
| Alarms.WrittenFlagReadBack | src/models/Alarm.ts:130-153 | writing a record's dictionary replaces exactly the active and no-repeat flags it defines |
| Alarms.WrittenSnoozeReadBack | src/models/Alarm.ts:130-153 | writing a record's dictionary replaces exactly the vibration flag and the snooze interval and count it defines |
| Alarms.Written | src/models/Alarm.ts:125-154 | writing a partial never changes id, user_id, created_at or updated_at |
| Alarms.UpdateRows | src/models/Alarm.ts:125-154 | only rows matching id and user change; with no writable column nothing changes; otherwise matching rows get updated_at = now; keys are kept |
| Alarms.UpdateReadBack | src/models/Alarm.ts:125-154 | a matching row reads back with each given field replaced and each omitted field kept, for every editable field from title to snooze count; id, owner and creation time never change |
| Alarms.UpdateRowsWellFormed | src/models/Alarm.ts:125-154 | update keeps the table invariant (distinct ids below the counter, 0/1 flags) |
| Alarms.ToggleRows | src/models/Alarm.ts:172-180 | only matching rows change, and only is_active (now the requested value) and updated_at = now |
| Alarms.DeleteRows | src/models/Alarm.ts:164-170 | the rows kept are exactly those not matching both id and user |
| Alarms.DeleteRowsWellFormed | src/models/Alarm.ts:164-170 | delete keeps the table invariant |
| Alarms.DeleteRowsSubsequence | src/models/Alarm.ts:164-170 | delete keeps ids distinct |
| Alarms.ChangedSince | src/models/Alarm.ts:182-189 | the delta holds exactly the user's rows with updated_at strictly above the timestamp |
| Alarms.NothingChangedSince | src/models/Alarm.ts:182-189 | when no row is newer than the timestamp the delta is empty |
| Alarms.ChangedSinceAntitone | src/models/Alarm.ts:182-189 | a later timestamp never returns a row an earlier one would not |
| Alarms.RowsOf | src/models/Alarm.ts:77-84 | the rows listed are exactly the user's rows |
| Alarms.TextLeTotal | src/models/Alarm.ts:77-84 | the text order used by ORDER BY time is total |
| Alarms.TextLeTransitive | src/models/Alarm.ts:77-84 | that order is transitive |
| Alarms.InsertByTime | src/models/Alarm.ts:77-84 | inserting one row into a list adds exactly that row |
| Alarms.InsertByTimeSorted | src/models/Alarm.ts:77-84 | inserting into a time-sorted list keeps it sorted |
| Alarms.SortByTime | src/models/Alarm.ts:77-84 | sorting is a permutation of the rows |
| Alarms.SortByTimeSorted | src/models/Alarm.ts:77-84 | the sorted rows are in ascending time order |
| Alarms.DecodeAllMultiset | src/models/Alarm.ts:77-84 | decoding a permutation of rows gives a permutation of records |
| Alarms.AlarmTable.FindById | src/models/Alarm.ts:68-75 | a record is found exactly when some row matches id and user, and it is that row decoded |
| Alarms.AlarmTable.FindAllByUserId | src/models/Alarm.ts:77-84 | the records are a permutation of the user's decoded rows, in ascending time order |
| Alarms.AlarmTable.GetAlarmsForSync | src/models/Alarm.ts:182-189 | the records are the user's rows changed strictly after the timestamp |
| Alarms.AlarmTable.Create | src/models/Alarm.ts:95-123 | the new table and result are CreateIn's, and the invariant holds |
| Alarms.AlarmTable.Update | src/models/Alarm.ts:125-154 | the new rows are UpdateRows's, and the counter is unchanged |
| Alarms.AlarmTable.Delete | src/models/Alarm.ts:164-170 | the new rows are DeleteRows's |
| Alarms.AlarmTable.ToggleActive | src/models/Alarm.ts:172-180 | the new rows are ToggleRows's |
| Devices.Find | src/models/Device.ts:16-23 | a row found has the key; none is found only when no row has it |
| Devices.FindUnique | src/models/Device.ts:45-50 | with unique keys the lookup returns the one row holding the key |
| Devices.Filter | src/models/Device.ts:165-174 | the rows kept are exactly those passing the test |
| Devices.FilterDistinct | src/models/Device.ts:165-174 | filtering keeps ids and keys unique |
| Devices.FilterWellFormed | src/models/Device.ts:151-174 | delete and prune keep the table invariant |
| Devices.Merged | src/models/Device.ts:55-92 | the name is the new one; an omitted token keeps the old one; keys and last_sync are kept; nothing differing returns the row unchanged, else updated_at = now |
| Devices.NewRow | src/models/Device.ts:95-96 | a new row has the key, last_sync null, and the given token or null |
| Devices.Upsert | src/models/Device.ts:39-115 | an existing key is merged in place and returned; an unchanged one writes nothing; an unknown key appends one row with the next id; an insert with no lastID is an error and changes nothing |
| Devices.UpsertWellFormed | src/models/Device.ts:39-115 | upsert keeps one row per key, and the row returned is the stored one |
| Devices.OmittedTokenKept | src/models/Device.ts:62-66 | upserting an existing device without a token keeps its stored token |
| Devices.UpdateRows | src/models/Device.ts:117-141 | only the keyed row changes, and only in name and/or last_sync with updated_at = now; neither given is a no-op |
| Devices.UpdateRowsFind | src/models/Device.ts:117-141 | after update the keyed row reads back with exactly those fields changed |
| Devices.SetTokenRows | src/models/Device.ts:181-188 | the keyed row's token is set unconditionally and updated_at = now; others unchanged |
| Devices.DeviceTable.FindByDeviceId | src/models/Device.ts:16-23 | a row is found exactly when one has the key |
| Devices.DeviceTable.Exists | src/models/Device.ts:159-162 | true exactly when a row has the key |
| Devices.DeviceTable.FindAllByUserId | src/models/Device.ts:31-37 | the rows returned are exactly the user's |
| Devices.DeviceTable.Create | src/models/Device.ts:39-115 | table and result are Upsert's; the invariant holds |
| Devices.DeviceTable.Update | src/models/Device.ts:117-141 | the new rows are UpdateRows's |
| Devices.DeviceTable.Delete | src/models/Device.ts:151-157 | exactly the keyed row is removed |
| Devices.DeviceTable.RemoveByFcmToken | src/models/Device.ts:165-174 | exactly the rows holding the token are removed |
| Devices.DeviceTable.UpdateFcmToken | src/models/Device.ts:181-188 | the token is set and the re-read row, when found, holds it |
| DeviceRegistration.RegisterIsNormalisedUpsert | src/services/deviceService.ts:3-42 | registration is an upsert with the token normalised to null; an unknown device is created with the given token or null, and a changed one is re-upserted |
| DeviceRegistration.OmittedTokenClears | src/services/deviceService.ts:16-20 | registering without a token leaves the stored row with no token |
| DeviceRegistration.UnchangedRegistrationWritesNothing | src/services/deviceService.ts:11-23 | same name and same normalised token return the existing row and leave the table as it was |
| DeviceRegistration.RegisterOrUpdateDevice | src/services/deviceService.ts:3-42 | the new table and result are the registration's |
| DeviceRegistration.UpdateDeviceFcmToken | src/services/deviceService.ts:44-51 | the token is set and the re-read row is returned |
| Sockets.ConnectMaps | src/services/socketService.ts:65-69 | the socket joins its user's set, created if absent, and maps to the user; other entries are unchanged |
| Sockets.DisconnectMaps | src/services/socketService.ts:73-88 | a mapped socket leaves its set and the reverse map, and an emptied user entry is removed; an unmapped socket changes nothing |
| Sockets.ConnectConsistent | src/services/socketService.ts:65-69 | connect keeps the maps mutually consistent with no empty user set |
| Sockets.DisconnectConsistent | src/services/socketService.ts:73-88 | disconnect keeps that invariant |
| Sockets.DisconnectUndoesConnect | src/services/socketService.ts:65-88 | disconnecting a just-connected socket restores both maps |
| Sockets.ConnectedUsers | src/services/socketService.ts:153-159 | each connected user maps to the number of their sockets |
| Sockets.ConnectCounts | src/services/socketService.ts:153-159 | every connected user has at least one socket, and a connect raises only that user's count by one |
| Sockets.BearerToken | src/services/socketService.ts:22-25 | a `Bearer ` prefix is stripped; any other header is taken as it is |
| Sockets.AuthenticateHandshake | src/services/socketService.ts:20-53 | a handshake is accepted exactly when a token is present and verifies and a device id comes from the query or the token; the query's device wins; no token gives the no-token error |
| Sockets.SendEach | src/services/socketService.ts:105-123 | one delivery is sent to each target socket except those excluded, and the count is their number |
| Sockets.SocketRegistry.Configure | src/services/socketService.ts:15-18 | the io instance becomes configured and nothing else changes |
| Sockets.SocketRegistry.Connect | src/services/socketService.ts:55-69 | a connection is kept exactly when it has a non-zero user and a device id; it then updates the maps as ConnectMaps, and a refused one changes neither |
| Sockets.SocketRegistry.Disconnect | src/services/socketService.ts:73-88 | the maps become DisconnectMaps's |
| Sockets.SocketRegistry.EmitToUser | src/services/socketService.ts:100-124 | each of the user's sockets except the originating one gets the event once; nothing is sent when unconfigured or the user has no sockets; the count is the number sent |
| Sockets.SocketRegistry.EmitToAll | src/services/socketService.ts:126-143 | unconfigured sends nothing; without origin one broadcast; with origin one emission to each mapped socket but the origin, and exactly that many |
| Notifications.NotificationMessage | src/services/notificationService.ts:25-50 | the message carries token, title, body and data, high Android priority, badge 1, and content-available only with data |
| Notifications.DataMessage | src/services/notificationService.ts:94-111 | a data-only message, background push type, priority 5, content-available |
| Notifications.AfterSend | src/services/notificationService.ts:54-75 | the result is true exactly on delivery; the token is pruned exactly on not-registered |
| Notifications.PushGateway.Send | src/services/notificationService.ts:54-75 | the message is logged; a not-registered token's device rows are removed; other outcomes change no rows |
| Notifications.PushGateway.SendPushNotification | src/services/notificationService.ts:17-76 | an empty token returns false with no send; otherwise one message is sent, true exactly on delivery, and not-registered removes the token's rows |
| Notifications.PushGateway.SendDataNotification | src/services/notificationService.ts:84-137 | an empty token or missing or empty data returns false with no send; otherwise as above with a data message |
| AlarmSync.StoredDays | src/services/alarmService.ts:45-48 | days text is stored as it is; a list is stored JSON-encoded |
| AlarmSync.ForStorage | src/services/alarmService.ts:43-48 | only days is re-encoded; the other fields pass through |
| AlarmSync.Stamped | src/services/alarmService.ts:268-274 | every draft gets the caller's user id and device id and status 'synced', whatever the client sent |
| AlarmSync.ApplyDraft | src/services/alarmService.ts:277-292 | an id the user owns is updated in place; otherwise the draft is created without its id; a draft that cannot be stored is skipped and changes nothing |
| AlarmSync.ApplyDraftOwnership | src/services/alarmService.ts:267-293 | a draft never adds or removes another user's rows |
| AlarmSync.ApplyDraftsOwnership | src/services/alarmService.ts:267-293 | the whole upload never touches another user's rows |
| AlarmSync.ApplyDraftMarksSynced | src/services/alarmService.ts:268-289 | every row written by an upload reads back as 'synced', from the syncing device, owned by the caller |
| AlarmSync.DefaultName | src/services/alarmService.ts:245 | the device name is `Device ` followed by at most six characters of the device id |
| AlarmSync.SyncMovesWatermark | src/services/alarmService.ts:234-299 | sync fails exactly when the device is unknown and cannot be inserted, changing nothing; otherwise the device's last_sync is the start time, its name the default and its token kept |
| AlarmSync.SyncReadsFromWatermark | src/services/alarmService.ts:257-295 | the drafts are applied in order, and the delta is exactly the user's rows changed after the old watermark (epoch when null) |
| AlarmSync.NextSyncStartsAtThisStart | src/services/alarmService.ts:234-299 | the next sync's delta is read from this sync's start time |
| AlarmSync.SyncOfSyncedDevice | src/services/alarmService.ts:234-299 | a sync of a device already registered under its default name with watermark `start` answers with the caller's alarms written after `start` |
| AlarmSync.SecondEmptySyncIsEmpty | src/services/alarmService.ts:228-315 | with no writes after the first start, a second empty sync returns an empty delta |
| AlarmSync.UploadComesBack | src/services/alarmService.ts:268-299 | a draft created during a sync is returned by the next empty sync |
| AlarmSync.Announcements | src/services/alarmService.ts:17-41 | at most one push per device considered |
| AlarmSync.AnnouncementsExact | src/services/alarmService.ts:22-35 | a push goes exactly to each device holding a token and not the excluded one, with the sync-request payload |
| AlarmSync.Pruned | src/services/notificationService.ts:65-69 | the rows kept are exactly those not holding a pruned token |
| AlarmSync.PrunedNothing | src/services/notificationService.ts:54-56 | pruning no token keeps every row |
| AlarmSync.PruneOneMore | src/services/notificationService.ts:65-69 | removing one more token's rows equals pruning it with the others |
| AlarmSync.AnnounceTo | src/services/alarmService.ts:22-35 | one device: a push when it is a recipient, and its token pruned when rejected |
| AlarmSync.Announce | src/services/alarmService.ts:17-41 | the pushes sent are Announcements, and the rows lost are exactly the rejected tokens' |
| AlarmSync.AlarmService.NotifyOtherDevices | src/services/alarmService.ts:17-41 | the user's devices are pushed as Announcements and the rejected tokens pruned |
| AlarmSync.AlarmService.Broadcast | src/services/alarmService.ts:54-57 | the socket event reaches the user's other sockets, one push per device of the user with a token other than the sender's is sent in table order, unregistered tokens are cleared, and the socket maps are untouched |
| AlarmSync.AlarmService.CreateAlarm | src/services/alarmService.ts:43-78 | success exactly when the alarm can be stored; then the new row is emitted and pushed with operation create, with the broadcast's whole effect on the push log, the device rows and the socket maps; failure leaves devices, sockets and pushes untouched |
| AlarmSync.AlarmService.UpdateAlarm | src/services/alarmService.ts:80-118 | not owned gives 'Alarm not found' and leaves the alarms, devices, sockets and pushes untouched; otherwise the update is applied and the re-read alarm is broadcast, with its whole effect on the push log, the device rows and the socket maps |
| AlarmSync.AlarmService.DeleteAlarm | src/services/alarmService.ts:120-149 | not owned gives 'Alarm not found' with no effect; otherwise the row is removed and its id broadcast, with its whole effect on the push log, the device rows and the socket maps |
| AlarmSync.AlarmService.ToggleAlarmActive | src/services/alarmService.ts:151-184 | not owned gives 'Alarm not found' with no effect; otherwise is_active is set, the message names activation or deactivation, and the alarm is broadcast, with its whole effect on the push log, the device rows and the socket maps |
| AlarmSync.AlarmService.GetAlarm | src/services/alarmService.ts:186-208 | the owned alarm, or 'Alarm not found' |
| AlarmSync.AlarmService.GetAllAlarms | src/services/alarmService.ts:210-226 | a permutation of the user's decoded alarms, every one owned by the user, in ascending time order |
| AlarmSync.AlarmService.SyncAlarms | src/services/alarmService.ts:228-315 | the new tables and result are the sync's |
| AlarmSync.UpdateAndRead | src/services/alarmService.ts:96-98 | the update is applied and the row re-read is present |
| AlarmSync.ToggleAndRead | src/services/alarmService.ts:162-164 | the toggle is applied and the re-read alarm has the requested state |
| AlarmSync.ApplyClientAlarm | src/services/alarmService.ts:267-292 | one draft changes the table as ApplyDraft |
| AlarmSync.ApplyClientAlarms | src/services/alarmService.ts:267-293 | the loop applies every draft in order |
| AlarmSync.FindByIdIsLast | src/services/alarmService.ts:49-52 | a created row is what findById returns for it |
| AlarmSync.UpdateKeepsRow | src/services/alarmService.ts:96-98 | the updated row can still be found |
| AlarmSync.ToggleKeepsRow | src/services/alarmService.ts:162-164 | the toggled row can still be found and has the requested state |
| Json.StringifyInts | src/services/alarmService.ts:45-48 | a day list is encoded as a bracketed JSON array |
| Json.StringifyIntsInjective | src/services/alarmService.ts:45-48 | distinct day lists are stored as distinct text |
| Json.JoinIntsInjective | src/services/alarmService.ts:45-48 | the comma-joined renderings of distinct integer lists differ |
| PayloadValidation.ParsedDays | src/middleware/validateAlarmPayload.ts:8-17 | a string goes through JSON.parse; any other value is checked as sent |
| PayloadValidation.CheckNoRepeat | src/middleware/validateAlarmPayload.ts:26-29 | a present non-boolean no_repeat is rejected with 400 |
| PayloadValidation.Check | src/middleware/validateAlarmPayload.ts:3-37 | parsed days replace the string in the body, even when then refused; missing days skip the days checks; no other field changes |
| PayloadValidation.CheckVerdict | src/middleware/validateAlarmPayload.ts:3-37 | next() exactly when every check passes; each rejection, with its message, exactly when its check fails |
| PayloadValidation.CheckStable | src/middleware/validateAlarmPayload.ts:3-37 | a body let through passes again unchanged |
| PayloadValidation.Request.ValidateAlarmPayload | src/middleware/validateAlarmPayload.ts:3-37 | the verdict and new body are Check's |
| AlarmRequests.ClockIsValid | src/controllers/alarmController.ts:34-41 | every hour 0-23 and minute 0-59 written HH:MM is accepted |
| AlarmRequests.ValidTimeIsClock | src/controllers/alarmController.ts:34-41 | every accepted time is such an HH:MM |
| AlarmRequests.TimeText | src/controllers/alarmController.ts:34-41 | a string time is tested as it is; numbers, booleans, null and objects never match |
| AlarmRequests.ToNumber | src/controllers/alarmController.ts:44-50 | a number day is compared as it is |
| AlarmRequests.MiddlewareDaysPassHandlers | src/controllers/alarmController.ts:44-50 | days the middleware accepts also pass the controller's range check |
| AlarmRequests.HandlersAcceptFractionalDay | src/controllers/alarmController.ts:44-50 | the controller accepts day 2.5, which the middleware refuses |
| AlarmRequests.ParseIntNegative | src/controllers/alarmController.ts:82-89 | parseInt of `-` and digits is the negated value |
| AlarmRequests.ParseIntUnsigned | src/controllers/alarmController.ts:82-89 | parseInt of a digit-led string reads it without sign |
| AlarmRequests.ParseIntOfDigits | src/controllers/alarmController.ts:82-89 | parseInt reads the leading decimal digits and ignores the rest |
| AlarmRequests.ParseIntOfNegatedDigits | src/controllers/alarmController.ts:82-89 | with a minus sign in front, parseInt reads the leading digits negated |
| AlarmRequests.ParseIntReadsDecimal | src/controllers/alarmController.ts:82-89 | a number followed by non-digits parses to that number |
| AlarmRequests.ParseIntOfIntToString | src/controllers/alarmController.ts:82-89 | every integer id written in decimal parses back to itself |
| AlarmRequests.ParseIntRejectsNonNumeric | src/controllers/alarmController.ts:82-89 | an id with no digit after its leading white space and sign is NaN, hence 'Invalid alarm ID' |
| AlarmRequests.DaysOf | src/controllers/alarmController.ts:18-22 | string days are passed on as text |
| AlarmRequests.RecordOf | src/controllers/alarmController.ts:79 | each body field of the right type becomes the partial record's field |
| AlarmRequests.DraftsOf | src/controllers/alarmController.ts:300-309 | each uploaded element becomes one draft, in order |
| AlarmRequests.CreateGate | src/controllers/alarmController.ts:7-53 | 401 without a user; 400 for a missing title, time or days; the service is called exactly when every check passes, with the user's id and the token's device id before the body's |
| AlarmRequests.IdGate | src/controllers/alarmController.ts:82-89 | 401 without a user; a non-numeric id gives 400 'Invalid alarm ID'; otherwise the parsed id |
| AlarmRequests.UpdateGate | src/controllers/alarmController.ts:69-112 | the id gate first; time and days are checked only when present |
| AlarmRequests.ToggleGate | src/controllers/alarmController.ts:229-258 | the id gate first; a non-boolean isActive gives 400 |
| AlarmRequests.SyncDevice | src/controllers/alarmController.ts:284-290 | the token's device id, else the body's |
| AlarmRequests.SyncGate | src/controllers/alarmController.ts:277-309 | 401 without a user; 400 without any device id; the service runs exactly when the alarms are an array |
| AlarmRequests.CreateStatus | src/controllers/alarmController.ts:55-59 | 201 on success, else 400 |
| AlarmRequests.ByIdStatus | src/controllers/alarmController.ts:117-121 | 200 on success, 404 exactly for 'Alarm not found', 400 for any other failure |
| AlarmRequests.ListStatus | src/controllers/alarmController.ts:311-315 | 200 on success, else 400 |
| AlarmRequests.AlarmController.CreateAlarm | src/controllers/alarmController.ts:7-67 | an early refusal changes nothing; otherwise the alarm is created, the status follows the result, and a success is broadcast with no sender device, so every device of the user with a token is pushed |
| AlarmRequests.AlarmController.UpdateAlarm | src/controllers/alarmController.ts:69-129 | an early refusal or a 404 changes nothing; 404 exactly when not owned; 200 applies the update, returns the re-read alarm and broadcasts it with no sender device |
| AlarmRequests.AlarmController.DeleteAlarm | src/controllers/alarmController.ts:131-167 | an early refusal or a 404 changes nothing; 404 exactly when not owned; 200 removes the row and broadcasts its id with no sender device |
| AlarmRequests.AlarmController.GetAlarm | src/controllers/alarmController.ts:169-203 | 404 exactly when not owned; 200 returns the alarm |
| AlarmRequests.AlarmController.GetAllAlarms | src/controllers/alarmController.ts:205-227 | 401 without a user; otherwise 200 and a permutation of the user's alarms, all owned by the user, in ascending time order |
| AlarmRequests.AlarmController.ToggleActive | src/controllers/alarmController.ts:229-275 | an early refusal or a 404 changes nothing; 404 exactly when not owned; 200 sets is_active, returns the alarm with the new state and broadcasts it with no sender device |
| AlarmRequests.AlarmController.SyncAlarms | src/controllers/alarmController.ts:277-323 | an early refusal changes no table; otherwise the tables and result are the sync's |
| RefreshTokens.BySelector | src/models/RefreshToken.ts:29-33 | the token found has the selector; none only when no row has it |
| RefreshTokens.BySelectorUnique | src/models/RefreshToken.ts:29-33 | with unique selectors the lookup returns that row |
| RefreshTokens.Insert | src/models/RefreshToken.ts:16-27 | a free selector and a successful insert append one live row with the next id and created_at = now; otherwise an error and no change |
| RefreshTokens.InsertWellFormed | src/models/RefreshToken.ts:16-27 | insert keeps selectors unique and the new token is found live |
| RefreshTokens.RevokeRows | src/models/RefreshToken.ts:44-48 | exactly the row with that id gets revoked_at = now, even if already revoked |
| RefreshTokens.RevokeRowsRevokes | src/models/RefreshToken.ts:44-48 | after revoke the token is found revoked and every other row is unchanged |
| RefreshTokens.RevokeAllRows | src/models/RefreshToken.ts:50-74 | exactly the user's live tokens, for the device if given and skipping the excepted selector, get revoked_at = now |
| RefreshTokens.RevokeAllKeepsEarlierRevocations | src/models/RefreshToken.ts:50-74 | earlier revoked_at values are preserved |
| RefreshTokens.RevokeAllLeavesNoLiveToken | src/models/RefreshToken.ts:50-60 | afterwards the user has no live token |
| RefreshTokens.PurgeCutoff | src/models/RefreshToken.ts:76-83 | the revocation cutoff is midnight of the day 30 days back |
| RefreshTokens.PurgeRows | src/models/RefreshToken.ts:76-83 | the rows kept are exactly those neither expired nor revoked before the cutoff |
| RefreshTokens.RecentRevocationSurvives | src/models/RefreshToken.ts:76-83 | a token revoked within 30 days and not expired is kept |
| RefreshTokens.PurgeRowsSubsequence | src/models/RefreshToken.ts:76-83 | purge keeps ids and selectors distinct |
| RefreshTokens.PurgeRowsWellFormed | src/models/RefreshToken.ts:76-83 | purge keeps the store invariant |
| RefreshTokens.RefreshTokenStore.Create | src/models/RefreshToken.ts:16-27 | store and result are Insert's |
| RefreshTokens.RefreshTokenStore.FindBySelector | src/models/RefreshToken.ts:29-33 | the token with that selector, or none |
| RefreshTokens.RefreshTokenStore.FindByUserIdAndDeviceId | src/models/RefreshToken.ts:35-42 | none exactly when the pair has no live token; otherwise a live token of the pair created no earlier than any other |
| RefreshTokens.RefreshTokenStore.Revoke | src/models/RefreshToken.ts:44-48 | the rows become RevokeRows's |
| RefreshTokens.RefreshTokenStore.RevokeAllByUserId | src/models/RefreshToken.ts:50-60 | the rows become RevokeAllRows's with no device |
| RefreshTokens.RefreshTokenStore.RevokeAllByUserIdAndDeviceId | src/models/RefreshToken.ts:62-74 | the rows become RevokeAllRows's for that device |
| RefreshTokens.RefreshTokenStore.DeleteExpiredTokens | src/models/RefreshToken.ts:76-83 | exactly the purgeable rows are removed |
| Auth.SplitCount | src/services/authService.ts:188-191 | splitting on ':' yields one more piece than there are colons |
| Auth.SplitJoin | src/services/authService.ts:188-191 | the pieces joined with ':' give back the string, and no piece holds ':' |
| Auth.SplitOfToken | src/services/authService.ts:188-191 | `selector:verifier` splits back into its two parts |
| Auth.ClaimsFor | src/services/authService.ts:146-149 | the access-token claims carry user id and name, and the device id only when it is non-empty |
| Auth.IssueStoresToken | src/services/authService.ts:34-59 | a token is issued exactly when the insert succeeds; it is `selector:verifier` and stored live, hashed, for 7 days; with a device, the user's other tokens for it are revoked first |
| Auth.SameIdsAfterIssue | src/services/authService.ts:34-59 | issuing never unrevokes or rekeys an existing token |
| Auth.RefreshStepOf | src/services/authService.ts:186-220 | the guard order: bad format exactly when not two parts; not found exactly when no row has the selector; rotation exactly for a found, live, unexpired, verified token of a known user; a reuse exactly for a found revoked token, naming its owner |
| Auth.RefreshBadFormat | src/services/authService.ts:188-191 | a malformed token fails with 'Invalid refresh token format' and no store change |
| Auth.RefreshReuseRevokesAll | src/services/authService.ts:200-204 | presenting a revoked token revokes every token of its user and fails |
| Auth.RefreshExpiredChangesNothing | src/services/authService.ts:206-208 | an expired token fails with no revocation |
| Auth.RefreshBadVerifierRevokesIt | src/services/authService.ts:210-215 | a wrong verifier revokes exactly that token and fails |
| Auth.RefreshRotates | src/services/authService.ts:222-255 | success revokes the old token, signs for the stored device or else the passed one, and binds the new token to that device |
| Auth.RefreshOfRotate | src/services/authService.ts:222-255 | the rotation branch is the last guard passed |
| Auth.RevokeByToken | src/services/authService.ts:263-283 | a malformed token fails with 'Invalid refresh token format' and no change |
| Auth.RevokeIgnoresVerifier | src/services/authService.ts:263-278 | revoking does not look at the verifier; a found selector's token is revoked |
| Auth.Registration | src/services/authService.ts:61-118 | a taken username is refused before the email is checked; success signs claims and issues a refresh token |
| Auth.LoginAttempt | src/services/authService.ts:120-184 | '@' selects lookup by email; failure exactly for an unknown user or wrong password, with no store change and 'User not found' or 'Invalid password' respectively; success signs, issues, returns the user's id and username, and names a refresh failure in its message |
| Auth.AuthService.GenerateAndStoreRefreshToken | src/services/authService.ts:34-59 | store and token are Issue's |
| Auth.AuthService.RefreshAccessToken | src/services/authService.ts:186-261 | store and result are Refresh's |
| Auth.AuthService.RotateRefreshToken | src/services/authService.ts:222-255 | store and result are Rotation's: the presented token revoked, a replacement issued |
| Auth.AuthService.RevokeRefreshToken | src/services/authService.ts:263-283 | store and result are RevokeByToken's |
| Auth.AuthService.CleanupExpiredRefreshTokens | src/services/authService.ts:285-292 | the rows become PurgeRows's |
| Auth.AuthService.Register | src/services/authService.ts:61-118 | store and result are Registration's |
| Auth.AuthService.Login | src/services/authService.ts:120-184 | store and result are LoginAttempt's |

## Left out

- Compiled builds under dist/, database and server setup, logging, and HTTP
  routing: not part of this model.
- The uniqueness constraints on `(user_id, device_id)` and on the selector
  are assumed as table invariants, not derived from the schema.
- Asynchrony: `notifyOtherDevices` is not awaited by its callers. The model
  runs it to completion in sequence.
- Every `catch` that turns an unexpected exception into a generic failure or
  a 500 response, other than the two modelled here. The model has no other
  exceptions. This covers:
  - 'Error creating alarm' beyond the insert that fails for a missing NOT
    NULL field, which is modelled;
  - 'Error syncing alarms' beyond a device insert that fails;
  - the controllers' 500 replies;
  - the catch around the token removal on push failure;
  - 'Registration failed', 'Login failed' and 'Failed to refresh access token'.
- 'Failed to create alarm' in `createAlarm`: the model never takes that
  branch. It needs a `lastID` of 0, and an insert that succeeds always
  yields a positive id.
- A `null` element of the sync array: the code throws reading
  `clientAlarm.days` outside the per-draft `try`. The drafts before it are
  written, `last_sync` is not moved, and the sync answers 'Error syncing
  alarms'. The model reads such an element as an empty draft and continues.
- AlarmRequests.DaysOf: a `days` array with an element that is not an
  integer, such as `[2.5]` or `["1"]`, reads as no days. The code stores
  `JSON.stringify` of any array, and the sync route does not run the
  middleware that would reject it. `JSON.stringify` of arbitrary values is
  not modelled.
- The clock readings taken more than once per operation get one reading in
  the model:
  - `notifyOtherDevices` stamps each push with its own `new Date()`; the
    model uses one `at` for all of them;
  - `AlarmModel.create` reads the clock separately for `created_at` and
    `updated_at`; the model uses one `now` for both;
  - `generateAndStoreRefreshToken` reads it for the expiry, for the
    revocation of older tokens and for `created_at`; the model uses one
    `now` for all three.
  - `refreshAccessToken` reads it for the expiry check and for the
    revocation of the presented token before issuing a new one; the model
    uses one `now` for the whole refresh.
- The `processedClientIds` bookkeeping in the sync loop: it is never read.
- Foreign key cascades and src/models/User.ts: `UserModel` lookups and
  creation are function parameters, and a created user's id is an argument.
- bcrypt, JWT and `crypto.randomBytes`: hashing, password checks and signing
  are uninterpreted functions. The random selector and verifier (hex, so
  without ':') are arguments.
- `findAllPendingSync`, `updateSyncStatus`, `updateLastSync`,
  `getSocketIdByUserId`, `getUserIdBySocketId` and the socket `my_event` and
  `error` handlers: the modelled operations never call them.
- ISO date text and the SQLite `CURRENT_TIMESTAMP` format: timestamps are
  milliseconds compared as numbers.
- Floating point: numbers in JSON bodies are reals. `parseInt` is exact,
  with no rounding beyond 2^53.
- AlarmRequests.RecordOf: a body field of the wrong JSON type is read as
  absent. JavaScript would pass it through to the SQL layer.
- AlarmRequests.ToNumber: JavaScript's coercion of an array or object day
  element to a number is treated as NaN. A string's conversion is a
  parameter.
- AlarmRequests.TimeText: `String()` of a non-string time is approximated.
  A string can match the pattern, and so can an array whose single element
  converts to a matching text, such as `["12:30"]`. Every other value is
  read as a non-matching text.
- AlarmRequests.SyncDevice, AlarmRequests.SyncGate: a body `deviceId` that
  is truthy but not a string, such as `5`, `true` or `["a"]`, is read as
  absent, so the model answers 400 'Device ID is required (from token or request body)'. The code takes
  it as the device and then throws at `deviceId.substring` in the service,
  which ends in 'Error syncing alarms'.
- RefreshTokens.RefreshTokenStore.FindByUserIdAndDeviceId: among live tokens
  with equal `created_at` it returns one of them, and does not promise which
  one SQLite picks.
- Sockets.ConnectedUsers: `getConnectedUsers` is a function over the map.
  The loop that fills the result object is not modelled.
- The socket delivery itself and the Firebase send are logs of messages sent;
  the provider's answer is a function of the token.
