/** The alarm service (src/services/alarmService.ts): the sync engine that
    merges a device's drafts into the alarms table and returns what changed
    since the device last synced, and the single-alarm operations that write
    the table, notify the user's open sockets and push to the user's other
    devices. */
module AlarmSync {
  import opened Common
  import Json
  import opened Alarms
  import Devices
  import Sockets
  import Notifications

  /** The messages the service answers with. */
  const ActivatedMessage := "Alarm activated successfully"
  const CreatedMessage := "Alarm created successfully"
  const DeactivatedMessage := "Alarm deactivated successfully"
  const DeletedMessage := "Alarm deleted successfully"
  const NotFoundMessage := "Alarm not found"
  const RetrievedMessage := "Alarm retrieved successfully"
  const UpdatedMessage := "Alarm updated successfully"
  const AlarmsChangedMessage := "Alarms have been updated."
  const ListedMessage := "Alarms retrieved successfully"
  const CreateFailedMessage := "Error creating alarm"
  const SyncFailedMessage := "Error syncing alarms"
  const SyncedMessage := "Sync completed successfully"

  /** The socket events, the operations named in push data, and the push
      notification's title. */
  const AlarmCreatedEvent := "alarm_created"
  const AlarmUpdatedEvent := "alarm_updated"
  const AlarmDeletedEvent := "alarm_deleted"
  const CreateOperation := "create"
  const UpdateOperation := "update"
  const DeleteOperation := "delete"
  const SyncTitle := "Timely Sync"

  // ---------------------------------------------------------------------
  // Client records

  /** The `days` a client sends: a list of weekdays, or text as stored. */
  datatype DaysValue = DaysText(text: string) | DaysList(items: seq<int>)

  /** An alarm as a client sends it. */
  type ClientAlarm = AlarmOf<DaysValue>

  /** `Array.isArray(days) ? JSON.stringify(days) : days`. */
  function StoredDays(d: Option<DaysValue>): (r: Option<string>)
    ensures r.Some? <==> d.Some?
    ensures d.Some? && d.value.DaysText? ==> r == Some(d.value.text)
    ensures d.Some? && d.value.DaysList? ==> r == Some(Json.StringifyInts(d.value.items))
  {
    match d
    case None => None
    case Some(DaysText(t)) => Some(t)
    case Some(DaysList(xs)) => Some(Json.StringifyInts(xs))
  }

  /** The record handed to the alarms table: the client's, with days as
      text. */
  function ForStorage(c: ClientAlarm): (a: Alarm)
    ensures a.days == StoredDays(c.days) && a.id == c.id && a.userId == c.userId && a.title == c.title
  {
    c.WithDays(StoredDays(c.days))
  }

  /** The outcome of a service operation. */
  datatype OperationResult =
    | Failure(message: string)
    | Success(message: string, alarm: Option<Alarm>, id: Option<int>)
    | AlarmList(message: string, alarms: seq<Alarm>)

  // ---------------------------------------------------------------------
  // The sync engine as functions

  /** The record sync writes for a draft: whatever the client sent, it
      belongs to the caller and the calling device and is marked synced. */
  function Stamped(c: ClientAlarm, userId: int, deviceId: string): (a: Alarm)
    ensures a.userId == Some(userId) && a.deviceId == Some(deviceId) && a.syncStatus == Some(SyncedStatus)
    ensures a.id == c.id && a.title == c.title && a.time == c.time && a.days == StoredDays(c.days)
  {
    ForStorage(c).(userId := Some(userId), deviceId := Some(deviceId), syncStatus := Some(SyncedStatus))
  }

  /** `if (clientAlarm.id)`: an id of 0 counts as none. */
  predicate HasClientId(c: ClientAlarm)
  {
    c.id.Some? && c.id.value != 0
  }

  /** A draft whose id names one of the caller's alarms updates it. */
  predicate IsUpdate(s: Snapshot, userId: int, c: ClientAlarm)
  {
    HasClientId(c) && RowFor(s.rows, c.id.value, userId).Some?
  }

  /** One draft, written at time `now`: an update in place when its id names
      one of the caller's alarms, otherwise an insert (without the id). An
      insert the table refuses leaves the table as it was: the error is
      swallowed. */
  function ApplyDraft(s: Snapshot, userId: int, deviceId: string, c: ClientAlarm, now: Time): (r: Snapshot)
    ensures r.nextId >= s.nextId
    ensures IsUpdate(s, userId, c) ==>
              r == Snapshot(UpdateRows(s.rows, c.id.value, userId, Stamped(c, userId, deviceId), now), s.nextId)
    ensures !IsUpdate(s, userId, c) && HasRequired(Stamped(c, userId, deviceId)) ==>
              r.nextId == s.nextId + 1 && |r.rows| == |s.rows| + 1 && r.rows[..|s.rows|] == s.rows
              && r.rows[|s.rows|].id == s.nextId && r.rows[|s.rows|].userId == userId
              && r.rows[|s.rows|].updatedAt == now
    ensures !IsUpdate(s, userId, c) && !HasRequired(Stamped(c, userId, deviceId)) ==> r == s
  {
    var data := Stamped(c, userId, deviceId);
    if HasClientId(c) then
      if RowFor(s.rows, c.id.value, userId).Some? then
        Snapshot(UpdateRows(s.rows, c.id.value, userId, data, now), s.nextId)
      else CreateIn(s, data.(id := None), now).0
    else CreateIn(s, data, now).0
  }

  /** The drafts applied in order, the i-th written at `times[i]`. */
  function ApplyDrafts(s: Snapshot, userId: int, deviceId: string, drafts: seq<ClientAlarm>, times: seq<Time>): Snapshot
    requires |times| == |drafts|
  {
    if drafts == [] then s
    else
      var n := |drafts| - 1;
      ApplyDraft(ApplyDrafts(s, userId, deviceId, drafts[..n], times[..n]), userId, deviceId, drafts[n], times[n])
  }

  /** One more draft applies on top of the ones before it. */
  lemma ApplyDraftsStep(s: Snapshot, userId: int, deviceId: string, drafts: seq<ClientAlarm>, times: seq<Time>, i: int)
    requires |times| == |drafts| && 0 <= i < |drafts|
    ensures ApplyDrafts(s, userId, deviceId, drafts[..i + 1], times[..i + 1])
         == ApplyDraft(ApplyDrafts(s, userId, deviceId, drafts[..i], times[..i]), userId, deviceId, drafts[i], times[i])
  {
    assert drafts[..i + 1][..i] == drafts[..i];
    assert times[..i + 1][..i] == times[..i];
  }

  /** The clock readings of one sync: its start, the device upsert, one
      write per draft, and the watermark update. */
  datatype SyncClock = SyncClock(start: Time, upsert: Time, writes: seq<Time>, finish: Time)

  /** The name sync registers a device under: "Device " and the first six
      characters of its id. */
  function DefaultName(deviceId: string): (n: string)
    ensures 7 <= |n| <= 13 && n[..7] == "Device "
  {
    "Device " + (if |deviceId| <= 6 then deviceId else deviceId[..6])
  }

  /** A device's watermark; one that never synced has the epoch. */
  function Watermark(d: Devices.DeviceRow): Time
  {
    if d.lastSync.Some? then d.lastSync.value else Epoch
  }

  /** `syncAlarms` on the two tables: upsert the device under its default
      name without touching its token; read its watermark; apply the drafts;
      collect the caller's alarms changed strictly after the watermark; and
      move the watermark to the start of this sync. A failed upsert fails the
      whole sync and changes nothing. */
  function Sync(s: Snapshot, t: Devices.Table, userId: int, deviceId: string, drafts: seq<ClientAlarm>,
                clock: SyncClock, insertOk: bool): (r: (Snapshot, Devices.Table, OperationResult))
    requires |clock.writes| == |drafts|
  {
    var (t1, device) := Devices.Upsert(t, userId, deviceId, DefaultName(deviceId), Devices.Omitted, clock.upsert, insertOk);
    if device.Err? then (s, t, Failure(SyncFailedMessage))
    else
      var since := Watermark(device.value);
      var s1 := ApplyDrafts(s, userId, deviceId, drafts, clock.writes);
      var changes := DecodeAll(ChangedSince(s1.rows, userId, since));
      var t2 := Devices.Table(Devices.UpdateRows(t1.rows, userId, deviceId, None, Some(clock.start), clock.finish), t1.nextId);
      (s1, t2, AlarmList(SyncedMessage, changes))
  }

  /** A draft leaves every other user's rows as they were and adds none. */
  lemma ApplyDraftOwnership(s: Snapshot, userId: int, deviceId: string, c: ClientAlarm, now: Time)
    ensures var r := ApplyDraft(s, userId, deviceId, c, now);
      && (forall x :: x in s.rows && x.userId != userId ==> x in r.rows)
      && (forall x :: x in r.rows && x.userId != userId ==> x in s.rows)
  {
    var r := ApplyDraft(s, userId, deviceId, c, now);
    if IsUpdate(s, userId, c) {
      forall x | x in s.rows && x.userId != userId ensures x in r.rows {
        var i :| 0 <= i < |s.rows| && s.rows[i] == x;
        assert r.rows[i] == x;
      }
      forall x | x in r.rows && x.userId != userId ensures x in s.rows {
        var i :| 0 <= i < |r.rows| && r.rows[i] == x;
        assert s.rows[i] in s.rows;
      }
    } else if HasRequired(Stamped(c, userId, deviceId)) {
      forall x | x in s.rows ensures x in r.rows {
        var i :| 0 <= i < |s.rows| && s.rows[i] == x;
        assert r.rows[i] == x;
      }
      forall x | x in r.rows && x.userId != userId ensures x in s.rows {
        var i :| 0 <= i < |r.rows| && r.rows[i] == x;
        assert s.rows[i] in s.rows;
      }
    }
  }

  /** Sync writes only the caller's alarms: every other user's rows survive
      it unchanged, and every row it leaves behind that is not the caller's
      was there before. */
  lemma {:induction false} ApplyDraftsOwnership(s: Snapshot, userId: int, deviceId: string, drafts: seq<ClientAlarm>,
                                               times: seq<Time>)
    requires |times| == |drafts|
    ensures var r := ApplyDrafts(s, userId, deviceId, drafts, times);
      && (forall x :: x in s.rows && x.userId != userId ==> x in r.rows)
      && (forall x :: x in r.rows && x.userId != userId ==> x in s.rows)
  {
    if drafts != [] {
      var n := |drafts| - 1;
      ApplyDraftsOwnership(s, userId, deviceId, drafts[..n], times[..n]);
      ApplyDraftOwnership(ApplyDrafts(s, userId, deviceId, drafts[..n], times[..n]), userId, deviceId, drafts[n], times[n]);
    }
  }

  /** A draft sync writes is stored for the calling device and marked
      synced, whatever the client sent in those fields; a device id is
      stored only when it is non-empty. */
  lemma ApplyDraftMarksSynced(s: Snapshot, userId: int, deviceId: string, c: ClientAlarm, now: Time)
    requires deviceId != ""
    ensures var r := ApplyDraft(s, userId, deviceId, c, now);
      && (IsUpdate(s, userId, c) ==> forall i :: 0 <= i < |s.rows| && Matches(s.rows[i], c.id.value, userId) ==>
            DecodeRow(r.rows[i]).syncStatus == Some(SyncedStatus) && DecodeRow(r.rows[i]).deviceId == Some(deviceId))
      && (!IsUpdate(s, userId, c) && HasRequired(Stamped(c, userId, deviceId)) ==>
            DecodeRow(r.rows[|s.rows|]).syncStatus == Some(SyncedStatus)
            && DecodeRow(r.rows[|s.rows|]).deviceId == Some(deviceId)
            && DecodeRow(r.rows[|s.rows|]).userId == Some(userId))
  {
    var data := Stamped(c, userId, deviceId);
    if IsUpdate(s, userId, c) {
      forall i | 0 <= i < |s.rows| && Matches(s.rows[i], c.id.value, userId)
        ensures DecodeRow(UpdateRows(s.rows, c.id.value, userId, data, now)[i]).syncStatus == Some(SyncedStatus)
        ensures DecodeRow(UpdateRows(s.rows, c.id.value, userId, data, now)[i]).deviceId == Some(deviceId)
      {
        UpdateReadBack(s.rows, c.id.value, userId, data, now, i);
      }
    } else if HasRequired(data) {
      var a := if HasClientId(c) then data.(id := None) else data;
      CreateReadBack(a, s.nextId, now);
      assert CreateIn(s, a, now).0.rows[|s.rows|] == InsertRow(MapAlarmToDbValues(a), s.nextId, now).value;
    }
  }

  /** A successful sync leaves the calling device registered under its
      default name with its watermark at the start of the sync; its token is
      the one it had, or none for a new device. A sync fails only when the
      device is new and cannot be inserted, and then changes nothing. */
  lemma SyncMovesWatermark(s: Snapshot, t: Devices.Table, userId: int, deviceId: string, drafts: seq<ClientAlarm>,
                           clock: SyncClock, insertOk: bool)
    requires Devices.WellFormed(t) && |clock.writes| == |drafts|
    ensures var r := Sync(s, t, userId, deviceId, drafts, clock, insertOk);
      && (r.2.Failure? <==> Devices.Find(t.rows, userId, deviceId).None? && !insertOk)
      && (r.2.Failure? ==> r.0 == s && r.1 == t && r.2.message == SyncFailedMessage)
      && (!r.2.Failure? ==>
            && Devices.WellFormed(r.1)
            && Devices.Find(r.1.rows, userId, deviceId).Some?
            && Devices.Find(r.1.rows, userId, deviceId).value.lastSync == Some(clock.start)
            && Devices.Find(r.1.rows, userId, deviceId).value.deviceName == DefaultName(deviceId)
            && Devices.Find(r.1.rows, userId, deviceId).value.fcmToken
               == (if Devices.Find(t.rows, userId, deviceId).Some? then Devices.Find(t.rows, userId, deviceId).value.fcmToken
                   else None))
  {
    var (t1, device) := Devices.Upsert(t, userId, deviceId, DefaultName(deviceId), Devices.Omitted, clock.upsert, insertOk);
    Devices.UpsertWellFormed(t, userId, deviceId, DefaultName(deviceId), Devices.Omitted, clock.upsert, insertOk);
    if device.Ok? {
      Devices.UpdateRowsFind(t1, userId, deviceId, None, Some(clock.start), clock.finish);
    }
  }

  /** A successful sync returns exactly the caller's alarms written after
      the device's previous watermark, or all of them for a device that never
      synced. */
  lemma SyncReadsFromWatermark(s: Snapshot, t: Devices.Table, userId: int, deviceId: string, drafts: seq<ClientAlarm>,
                               clock: SyncClock, insertOk: bool)
    requires Devices.WellFormed(t) && |clock.writes| == |drafts|
    requires Sync(s, t, userId, deviceId, drafts, clock, insertOk).2.AlarmList?
    ensures var r := Sync(s, t, userId, deviceId, drafts, clock, insertOk);
      var since := if Devices.Find(t.rows, userId, deviceId).Some? then Watermark(Devices.Find(t.rows, userId, deviceId).value)
                   else Epoch;
      && r.0 == ApplyDrafts(s, userId, deviceId, drafts, clock.writes)
      && r.2.alarms == DecodeAll(ChangedSince(r.0.rows, userId, since))
      && (forall a :: a in r.2.alarms ==> a.userId == Some(userId) && a.updatedAt.Some? && a.updatedAt.value > since)
  {
    var r := Sync(s, t, userId, deviceId, drafts, clock, insertOk);
    var since := if Devices.Find(t.rows, userId, deviceId).Some? then Watermark(Devices.Find(t.rows, userId, deviceId).value)
                 else Epoch;
    var changed := ChangedSince(r.0.rows, userId, since);
    forall a | a in r.2.alarms ensures a.userId == Some(userId) && a.updatedAt.Some? && a.updatedAt.value > since {
      var i :| 0 <= i < |changed| && a == DecodeRow(changed[i]);
      assert changed[i] in changed;
    }
  }

  /** The next sync of the same device reads from the watermark this one
      set: it returns exactly the caller's alarms written after this sync
      started. */
  lemma {:induction false} NextSyncStartsAtThisStart(s: Snapshot, t: Devices.Table, userId: int, deviceId: string, drafts: seq<ClientAlarm>,
                                  clock: SyncClock, insertOk: bool,
                                  drafts2: seq<ClientAlarm>, clock2: SyncClock, insertOk2: bool)
    requires Devices.WellFormed(t) && |clock.writes| == |drafts| && |clock2.writes| == |drafts2|
    requires Sync(s, t, userId, deviceId, drafts, clock, insertOk).2.AlarmList?
    ensures var first := Sync(s, t, userId, deviceId, drafts, clock, insertOk);
      var second := Sync(first.0, first.1, userId, deviceId, drafts2, clock2, insertOk2);
      second.2 == AlarmList(SyncedMessage,
                            DecodeAll(ChangedSince(ApplyDrafts(first.0, userId, deviceId, drafts2, clock2.writes).rows,
                                                   userId, clock.start)))
  {
    var first := Sync(s, t, userId, deviceId, drafts, clock, insertOk);
    SyncMovesWatermark(s, t, userId, deviceId, drafts, clock, insertOk);
    SyncOfSyncedDevice(first.0, first.1, userId, deviceId, drafts2, clock2, insertOk2, clock.start);
  }

  /** A sync of a device registered under its default name with watermark
      `start` answers with the caller's alarms written after `start`. */
  lemma SyncOfSyncedDevice(s: Snapshot, t: Devices.Table, userId: int, deviceId: string, drafts: seq<ClientAlarm>,
                           clock: SyncClock, insertOk: bool, start: Time)
    requires |clock.writes| == |drafts|
    requires Devices.Find(t.rows, userId, deviceId).Some?
    requires Devices.Find(t.rows, userId, deviceId).value.lastSync == Some(start)
    requires Devices.Find(t.rows, userId, deviceId).value.deviceName == DefaultName(deviceId)
    ensures Sync(s, t, userId, deviceId, drafts, clock, insertOk).2
         == AlarmList(SyncedMessage, DecodeAll(ChangedSince(ApplyDrafts(s, userId, deviceId, drafts, clock.writes).rows,
                                                            userId, start)))
  {
    ResyncUpsert(t, userId, deviceId, start, clock.upsert, insertOk);
  }

  /** Upserting a device already registered under its default name changes
      nothing and reads back its watermark. */
  lemma ResyncUpsert(t: Devices.Table, userId: int, deviceId: string, start: Time, now: Time, insertOk: bool)
    requires Devices.Find(t.rows, userId, deviceId).Some?
    requires Devices.Find(t.rows, userId, deviceId).value.lastSync == Some(start)
    requires Devices.Find(t.rows, userId, deviceId).value.deviceName == DefaultName(deviceId)
    ensures var d := Devices.Find(t.rows, userId, deviceId).value;
      Devices.Upsert(t, userId, deviceId, DefaultName(deviceId), Devices.Omitted, now, insertOk) == (t, Ok(d))
      && Watermark(d) == start
  {
    var d := Devices.Find(t.rows, userId, deviceId).value;
    assert !Devices.NameChanges(d, DefaultName(deviceId)) && !Devices.TokenChanges(d, Devices.Omitted);
  }

  /** With a monotone clock and no intervening writes, a second sync with
      no drafts right after one with no drafts returns nothing: every row was
      written no later than the first sync started. */
  lemma SecondEmptySyncIsEmpty(s: Snapshot, t: Devices.Table, userId: int, deviceId: string,
                               clock: SyncClock, insertOk: bool, clock2: SyncClock, insertOk2: bool)
    requires Devices.WellFormed(t) && clock.writes == [] && clock2.writes == []
    requires forall x :: x in s.rows ==> x.updatedAt <= clock.start
    requires Sync(s, t, userId, deviceId, [], clock, insertOk).2.AlarmList?
    ensures var first := Sync(s, t, userId, deviceId, [], clock, insertOk);
      Sync(first.0, first.1, userId, deviceId, [], clock2, insertOk2).2 == AlarmList(SyncedMessage, [])
  {
    var first := Sync(s, t, userId, deviceId, [], clock, insertOk);
    NextSyncStartsAtThisStart(s, t, userId, deviceId, [], clock, insertOk, [], clock2, insertOk2);
    assert first.0 == s;
    NothingChangedSince(s.rows, userId, clock.start);
  }

  /** What this repository's sync does with the client's own writes: an
      alarm a device uploads in one sync, written after the sync started, is
      sent back to that same device by its next sync, even when nothing else
      changed. */
  lemma UploadComesBack(s: Snapshot, t: Devices.Table, userId: int, deviceId: string, c: ClientAlarm,
                        clock: SyncClock, insertOk: bool, clock2: SyncClock, insertOk2: bool)
    requires Devices.WellFormed(t) && |clock.writes| == 1 && clock2.writes == []
    requires !IsUpdate(s, userId, c) && HasRequired(Stamped(c, userId, deviceId)) && clock.writes[0] > clock.start
    requires Sync(s, t, userId, deviceId, [c], clock, insertOk).2.AlarmList?
    ensures var first := Sync(s, t, userId, deviceId, [c], clock, insertOk);
      var second := Sync(first.0, first.1, userId, deviceId, [], clock2, insertOk2);
      && |first.0.rows| == |s.rows| + 1
      && second.2.AlarmList? && DecodeRow(first.0.rows[|s.rows|]) in second.2.alarms
  {
    var first := Sync(s, t, userId, deviceId, [c], clock, insertOk);
    NextSyncStartsAtThisStart(s, t, userId, deviceId, [c], clock, insertOk, [], clock2, insertOk2);
    assert [c][..0] == [] && clock.writes[..0] == [];
    var s1 := ApplyDraft(s, userId, deviceId, c, clock.writes[0]);
    assert ApplyDrafts(s, userId, deviceId, [c], clock.writes) == s1;
    assert first.0 == s1;
    assert ApplyDrafts(first.0, userId, deviceId, [], clock2.writes) == first.0;
    var row := s1.rows[|s.rows|];
    assert row.userId == userId && row.updatedAt == clock.writes[0];
    assert row in ChangedSince(first.0.rows, userId, clock.start);
    assert DecodeRow(row) in DecodeAll(ChangedSince(first.0.rows, userId, clock.start));
  }

  // ---------------------------------------------------------------------
  // Fan-out to the user's other devices

  /** A device `notifyOtherDevices` pushes to: it has a token and is not the
      excluded device. */
  predicate IsRecipient(d: Devices.DeviceRow, exclude: Option<string>)
  {
    Truthy(d.fcmToken) && Some(d.deviceId) != exclude
  }

  /** The data payload of a sync request push; the timestamp is the clock
      reading in decimal milliseconds. */
  function SyncRequest(operation: string, entityId: int, at: Time): Notifications.DataMap
  {
    map["type" := "ALARM_SYNC_REQUEST", "operation" := operation,
        "entityId" := IntToString(entityId), "timestamp" := IntToString(at)]
  }

  function Announcement(d: Devices.DeviceRow, operation: string, entityId: int, at: Time): Notifications.PushMessage
    requires d.fcmToken.Some?
  {
    Notifications.NotificationMessage(d.fcmToken.value, SyncTitle, AlarmsChangedMessage,
                                      Some(SyncRequest(operation, entityId, at)))
  }

  /** The message pushed for one device: none unless it is a recipient. */
  function Notice(d: Devices.DeviceRow, exclude: Option<string>, operation: string, entityId: int, at: Time)
    : seq<Notifications.PushMessage>
  {
    if IsRecipient(d, exclude) then [Announcement(d, operation, entityId, at)] else []
  }

  /** The token one device loses: a recipient's token that the provider
      reports as no longer registered. */
  function Rejected(d: Devices.DeviceRow, exclude: Option<string>, provider: string -> Notifications.SendOutcome)
    : set<string>
  {
    if IsRecipient(d, exclude) && provider(d.fcmToken.value) == Notifications.Failed(Notifications.TokenNotRegistered)
    then {d.fcmToken.value} else {}
  }

  /** The messages pushed for the devices `ds`, in their order. */
  function Announcements(ds: seq<Devices.DeviceRow>, exclude: Option<string>, operation: string, entityId: int, at: Time)
    : (ms: seq<Notifications.PushMessage>)
    ensures |ms| <= |ds|
  {
    if ds == [] then []
    else
      var n := |ds| - 1;
      Announcements(ds[..n], exclude, operation, entityId, at) + Notice(ds[n], exclude, operation, entityId, at)
  }

  /** The tokens among the recipients of `ds` that the provider reports as
      no longer registered. */
  function PrunedTokens(ds: seq<Devices.DeviceRow>, exclude: Option<string>, provider: string -> Notifications.SendOutcome)
    : set<string>
  {
    if ds == [] then {}
    else
      var n := |ds| - 1;
      PrunedTokens(ds[..n], exclude, provider) + Rejected(ds[n], exclude, provider)
  }

  /** The rows holding none of the given tokens, in table order. */
  function Pruned(rows: seq<Devices.DeviceRow>, tokens: set<string>): (r: seq<Devices.DeviceRow>)
    ensures forall x :: x in r <==> x in rows && !(x.fcmToken.Some? && x.fcmToken.value in tokens)
  {
    if rows == [] then []
    else
      var n := |rows| - 1;
      Pruned(rows[..n], tokens) + (if rows[n].fcmToken.Some? && rows[n].fcmToken.value in tokens then [] else [rows[n]])
  }

  /** Pruning no token keeps every row. */
  lemma {:induction false} PrunedNothing(rows: seq<Devices.DeviceRow>)
    ensures Pruned(rows, {}) == rows
  {
    if rows != [] {
      var n := |rows| - 1;
      PrunedNothing(rows[..n]);
      assert rows[..n] + [rows[n]] == rows;
    }
  }

  /** Pruning one more token after a set of them is pruning the union. */
  lemma {:induction false} PruneOneMore(rows: seq<Devices.DeviceRow>, tokens: set<string>, token: string)
    ensures Devices.Filter(Pruned(rows, tokens), Devices.NotHolding(token)) == Pruned(rows, tokens + {token})
  {
    if rows != [] {
      var n := |rows| - 1;
      var x := rows[n];
      PruneOneMore(rows[..n], tokens, token);
      var before := Pruned(rows[..n], tokens);
      var after := Pruned(rows[..n], tokens + {token});
      if x.fcmToken.Some? && x.fcmToken.value in tokens {
        assert Pruned(rows, tokens) == before;
        assert Pruned(rows, tokens + {token}) == after;
      } else {
        assert Pruned(rows, tokens) == before + [x];
        Devices.FilterSnoc(before, x, Devices.NotHolding(token));
        assert Pruned(rows, tokens + {token}) == after + (if x.fcmToken == Some(token) then [] else [x]);
      }
    }
  }

  /** Exactly the recipients get a message: one per device with a token
      other than the excluded one, carrying that device's token. */
  lemma {:induction false} AnnouncementsExact(ds: seq<Devices.DeviceRow>, exclude: Option<string>, operation: string,
                                             entityId: int, at: Time)
    ensures forall m :: m in Announcements(ds, exclude, operation, entityId, at) <==>
              exists d :: d in ds && IsRecipient(d, exclude) && m == Announcement(d, operation, entityId, at)
  {
    if ds != [] {
      var n := |ds| - 1;
      AnnouncementsExact(ds[..n], exclude, operation, entityId, at);
      assert ds == ds[..n] + [ds[n]];
      forall m | m in Announcements(ds, exclude, operation, entityId, at)
        ensures exists d :: d in ds && IsRecipient(d, exclude) && m == Announcement(d, operation, entityId, at)
      {
        if m in Announcements(ds[..n], exclude, operation, entityId, at) {
          var d :| d in ds[..n] && IsRecipient(d, exclude) && m == Announcement(d, operation, entityId, at);
          assert d in ds;
        } else {
          assert m == Announcement(ds[n], operation, entityId, at);
        }
      }
      forall d | d in ds && IsRecipient(d, exclude)
        ensures Announcement(d, operation, entityId, at) in Announcements(ds, exclude, operation, entityId, at)
      {
        if d != ds[n] {
          assert d in ds[..n];
        }
      }
    }
  }

  // ---------------------------------------------------------------------
  // The service

  class AlarmService {
    const alarms: AlarmTable
    const devices: Devices.DeviceTable
    const sockets: Sockets.SocketRegistry
    const push: Notifications.PushGateway

    ghost predicate Valid()
      reads this, alarms, devices, push
    {
      alarms.Valid() && devices.Valid() && push.devices == devices
    }

    constructor (alarms: AlarmTable, devices: Devices.DeviceTable, sockets: Sockets.SocketRegistry,
                 push: Notifications.PushGateway)
      requires alarms.Valid() && devices.Valid() && push.devices == devices
      ensures Valid()
      ensures this.alarms == alarms && this.devices == devices && this.sockets == sockets && this.push == push
    {
      this.alarms := alarms;
      this.devices := devices;
      this.sockets := sockets;
      this.push := push;
    }

    /** `notifyOtherDevices`: one push per device of the user that has a
        token and is not the excluded one, in table order; tokens the
        provider reports as unregistered are pruned along the way. */
    method NotifyOtherDevices(userId: int, operation: string, entityId: int, exclude: Option<string>, at: Time)
      requires Valid()
      modifies push, devices
      ensures Valid() && devices.nextId == old(devices.nextId)
      ensures var ds := Devices.Filter(old(devices.rows), Devices.OwnedBy(userId));
        && push.sent == old(push.sent) + Announcements(ds, exclude, operation, entityId, at)
        && devices.rows == Pruned(old(devices.rows), PrunedTokens(ds, exclude, push.provider))
    {
      var ds := devices.FindAllByUserId(userId);
      Announce(push, ds, exclude, operation, entityId, at);
    }

    /** The state a broadcast leaves behind: the event went to the user's
        sockets other than the sender's, one announcement per device of the
        user with a token other than the sender's was appended to the push
        log, the tokens the provider reported unregistered were cleared, and
        the socket registry's maps are as they were. */
    twostate predicate Broadcasted(userId: int, event: string, payload: Sockets.Payload,
                                   senderSocketId: Option<Sockets.SocketId>, operation: string, entityId: int,
                                   senderDeviceId: Option<string>, at: Time)
      reads this, sockets, push, devices
    {
      var ds := Devices.Filter(old(devices.rows), Devices.OwnedBy(userId));
      && sockets.userSockets == old(sockets.userSockets) && sockets.socketUserMap == old(sockets.socketUserMap)
      && sockets.ioConfigured == old(sockets.ioConfigured)
      && Sockets.EmittedToUser(old(sockets.sent), sockets.sent, sockets.ioConfigured, sockets.userSockets,
                               userId, event, payload, senderSocketId)
      && push.sent == old(push.sent) + Announcements(ds, senderDeviceId, operation, entityId, at)
      && devices.rows == Pruned(old(devices.rows), PrunedTokens(ds, senderDeviceId, push.provider))
      && devices.nextId == old(devices.nextId)
    }

    /** What every successful write does after its table operation: emit
        the event to the user's other sockets, then announce the change to
        the user's other devices. */
    method Broadcast(userId: int, event: string, payload: Sockets.Payload, senderSocketId: Option<Sockets.SocketId>,
                     operation: string, entityId: int, senderDeviceId: Option<string>, at: Time)
      requires Valid()
      modifies sockets, push, devices
      ensures Valid()
      ensures Broadcasted(userId, event, payload, senderSocketId, operation, entityId, senderDeviceId, at)
    {
      var _ := sockets.EmitToUser(userId, event, payload, senderSocketId);
      NotifyOtherDevices(userId, operation, entityId, senderDeviceId, at);
    }

    /** `createAlarm`. A record the table refuses fails the operation with no
        emission; otherwise the stored alarm is read back, sent to the user's
        other sockets and announced to the user's other devices. */
    method CreateAlarm(alarm: ClientAlarm, senderSocketId: Option<Sockets.SocketId>, senderDeviceId: Option<string>,
                       now: Time, at: Time) returns (r: OperationResult)
      requires Valid()
      modifies alarms, devices, sockets, push
      ensures Valid()
      ensures (alarms.Snap(), r.Success?) == (CreateIn(old(alarms.Snap()), ForStorage(alarm), now).0,
                                              CreateIn(old(alarms.Snap()), ForStorage(alarm), now).1.Ok?)
      ensures r.Success? <==> HasRequired(ForStorage(alarm))
      ensures !r.Success? ==> r == Failure(CreateFailedMessage) && unchanged(devices, sockets, push)
      ensures r.Success? ==>
                && r.message == CreatedMessage && r.id == Some(old(alarms.nextId))
                && r.alarm == Some(DecodeRow(alarms.rows[|alarms.rows| - 1]))
                && Broadcasted(alarm.userId.value, AlarmCreatedEvent, Sockets.AlarmData(r.alarm.value), senderSocketId,
                               CreateOperation, r.id.value, senderDeviceId, at)
    {
      var stored := ForStorage(alarm);
      var created := alarms.Create(stored, now);
      if created.Err? {
        return Failure(CreateFailedMessage);
      }
      var userId := stored.userId.value;
      var newAlarm := alarms.FindById(created.value, userId);
      FindByIdIsLast(alarms.Snap(), created.value, userId);
      r := Success(CreatedMessage, newAlarm, Some(created.value));
      Broadcast(userId, AlarmCreatedEvent, Sockets.AlarmData(newAlarm.value), senderSocketId,
                CreateOperation, created.value, senderDeviceId, at);
    }

    /** `updateAlarm`. An alarm the user does not own is "not found" and
        nothing is written, emitted or pushed. */
    method UpdateAlarm(id: int, userId: int, data: ClientAlarm, senderSocketId: Option<Sockets.SocketId>,
                       senderDeviceId: Option<string>, now: Time, at: Time) returns (r: OperationResult)
      requires Valid()
      modifies alarms, devices, sockets, push
      ensures Valid()
      ensures r.Failure? || r.Success?
      ensures r.Failure? <==> RowFor(old(alarms.rows), id, userId).None?
      ensures r.Failure? ==> r == Failure(NotFoundMessage) && alarms.rows == old(alarms.rows)
                             && unchanged(devices, sockets, push)
      ensures r.Success? ==>
                && alarms.rows == UpdateRows(old(alarms.rows), id, userId, ForStorage(data), now)
                && r.message == UpdatedMessage && r.id.None?
                && r.alarm == MapRowToAlarm(RowFor(alarms.rows, id, userId)) && r.alarm.Some?
                && Broadcasted(userId, AlarmUpdatedEvent, Sockets.AlarmData(r.alarm.value), senderSocketId,
                               UpdateOperation, id, senderDeviceId, at)
    {
      var existing := alarms.FindById(id, userId);
      if existing.None? {
        return Failure(NotFoundMessage);
      }
      var updated := UpdateAndRead(alarms, id, userId, ForStorage(data), now);
      r := Success(UpdatedMessage, updated, None);
      Broadcast(userId, AlarmUpdatedEvent, Sockets.AlarmData(updated.value), senderSocketId,
                UpdateOperation, id, senderDeviceId, at);
    }

    /** `deleteAlarm`. */
    method DeleteAlarm(id: int, userId: int, senderSocketId: Option<Sockets.SocketId>, senderDeviceId: Option<string>,
                       at: Time) returns (r: OperationResult)
      requires Valid()
      modifies alarms, devices, sockets, push
      ensures Valid()
      ensures r.Failure? || r.Success?
      ensures r.Failure? <==> RowFor(old(alarms.rows), id, userId).None?
      ensures r.Failure? ==> r == Failure(NotFoundMessage) && alarms.rows == old(alarms.rows)
                             && unchanged(devices, sockets, push)
      ensures r.Success? ==>
                && alarms.rows == DeleteRows(old(alarms.rows), id, userId)
                && r == Success(DeletedMessage, None, None)
                && Broadcasted(userId, AlarmDeletedEvent, Sockets.DeletedId(id), senderSocketId,
                               DeleteOperation, id, senderDeviceId, at)
    {
      var existing := alarms.FindById(id, userId);
      if existing.None? {
        return Failure(NotFoundMessage);
      }
      alarms.Delete(id, userId);
      r := Success(DeletedMessage, None, None);
      Broadcast(userId, AlarmDeletedEvent, Sockets.DeletedId(id), senderSocketId,
                               DeleteOperation, id, senderDeviceId, at);
    }

    /** `toggleAlarmActive`. */
    method ToggleAlarmActive(id: int, userId: int, isActive: bool, senderSocketId: Option<Sockets.SocketId>,
                             senderDeviceId: Option<string>, now: Time, at: Time) returns (r: OperationResult)
      requires Valid()
      modifies alarms, devices, sockets, push
      ensures Valid()
      ensures r.Failure? || r.Success?
      ensures r.Failure? <==> RowFor(old(alarms.rows), id, userId).None?
      ensures r.Failure? ==> r == Failure(NotFoundMessage) && alarms.rows == old(alarms.rows)
                             && unchanged(devices, sockets, push)
      ensures r.Success? ==>
                && alarms.rows == ToggleRows(old(alarms.rows), id, userId, isActive, now)
                && r.message == (if isActive then ActivatedMessage else DeactivatedMessage)
                && r.id.None? && r.alarm == MapRowToAlarm(RowFor(alarms.rows, id, userId)) && r.alarm.Some?
                && r.alarm.value.isActive == Some(isActive)
                && Broadcasted(userId, AlarmUpdatedEvent, Sockets.AlarmData(r.alarm.value), senderSocketId,
                               UpdateOperation, id, senderDeviceId, at)
    {
      var existing := alarms.FindById(id, userId);
      if existing.None? {
        return Failure(NotFoundMessage);
      }
      var updated := ToggleAndRead(alarms, id, userId, isActive, now);
      r := Success(if isActive then ActivatedMessage else DeactivatedMessage, updated, None);
      Broadcast(userId, AlarmUpdatedEvent, Sockets.AlarmData(updated.value), senderSocketId,
                UpdateOperation, id, senderDeviceId, at);
    }

    /** `getAlarm`: the user's alarm with that id, or "not found". */
    method GetAlarm(id: int, userId: int) returns (r: OperationResult)
      requires Valid()
      ensures r.Failure? || r.Success?
      ensures RowFor(alarms.rows, id, userId).None? ==> r == Failure(NotFoundMessage)
      ensures RowFor(alarms.rows, id, userId).Some? ==>
                r == Success(RetrievedMessage, Some(DecodeRow(RowFor(alarms.rows, id, userId).value)), None)
    {
      var alarm := alarms.FindById(id, userId);
      if alarm.Some? {
        r := Success(RetrievedMessage, alarm, None);
      } else {
        r := Failure(NotFoundMessage);
      }
    }

    /** `getAllAlarms`: all of the user's alarms, ordered by time. */
    method GetAllAlarms(userId: int) returns (r: OperationResult)
      requires Valid()
      ensures r.AlarmList? && r.message == ListedMessage
      ensures multiset(r.alarms) == multiset(DecodeAll(RowsOf(alarms.rows, userId)))
      ensures forall a :: a in r.alarms ==> a.userId == Some(userId)
      ensures InTimeOrder(r.alarms)
    {
      var all := alarms.FindAllByUserId(userId);
      r := AlarmList(ListedMessage, all);
    }

    /** `syncAlarms`. It writes only the alarms and devices tables: it emits
        nothing and pushes nothing. */
    method SyncAlarms(userId: int, deviceId: string, clientAlarms: seq<ClientAlarm>, clock: SyncClock, insertOk: bool)
      returns (r: OperationResult)
      requires Valid() && |clock.writes| == |clientAlarms|
      modifies alarms, devices
      ensures Valid()
      ensures (alarms.Snap(), devices.Snap(), r)
           == Sync(old(alarms.Snap()), old(devices.Snap()), userId, deviceId, clientAlarms, clock, insertOk)
    {
      var device := devices.Create(userId, deviceId, DefaultName(deviceId), Devices.Omitted, clock.upsert, insertOk);
      if device.Err? {
        return Failure(SyncFailedMessage);
      }
      var lastSync := if device.value.lastSync.Some? then device.value.lastSync.value else Epoch;
      ApplyClientAlarms(alarms, userId, deviceId, clientAlarms, clock.writes);
      var changes := alarms.GetAlarmsForSync(userId, lastSync);
      devices.Update(userId, deviceId, None, Some(clock.start), clock.finish);
      r := AlarmList(SyncedMessage, changes);
    }
  }

  /** The update of `updateAlarm` and the read-back that follows it. */
  method UpdateAndRead(alarms: AlarmTable, id: int, userId: int, data: Alarm, now: Time) returns (updated: Option<Alarm>)
    requires alarms.Valid() && RowFor(alarms.rows, id, userId).Some?
    modifies alarms
    ensures alarms.Valid() && alarms.nextId == old(alarms.nextId)
    ensures alarms.rows == UpdateRows(old(alarms.rows), id, userId, data, now)
    ensures updated == MapRowToAlarm(RowFor(alarms.rows, id, userId)) && updated.Some?
  {
    alarms.Update(id, userId, data, now);
    updated := alarms.FindById(id, userId);
    UpdateKeepsRow(old(alarms.rows), id, userId, data, now);
  }

  /** The write of `toggleAlarmActive` and the read-back that follows it. */
  method ToggleAndRead(alarms: AlarmTable, id: int, userId: int, isActive: bool, now: Time) returns (updated: Option<Alarm>)
    requires alarms.Valid() && RowFor(alarms.rows, id, userId).Some?
    modifies alarms
    ensures alarms.Valid() && alarms.nextId == old(alarms.nextId)
    ensures alarms.rows == ToggleRows(old(alarms.rows), id, userId, isActive, now)
    ensures updated == MapRowToAlarm(RowFor(alarms.rows, id, userId)) && updated.Some?
    ensures updated.value.isActive == Some(isActive)
  {
    alarms.ToggleActive(id, userId, isActive, now);
    updated := alarms.FindById(id, userId);
    ToggleKeepsRow(old(alarms.rows), id, userId, isActive, now);
  }

  /** One draft of `syncAlarms`: updated in place when its id names one of
      the caller's alarms, inserted otherwise; a refused insert is
      ignored. */
  method ApplyClientAlarm(alarms: AlarmTable, userId: int, deviceId: string, c: ClientAlarm, now: Time)
    requires alarms.Valid()
    modifies alarms
    ensures alarms.Valid()
    ensures alarms.Snap() == ApplyDraft(old(alarms.Snap()), userId, deviceId, c, now)
  {
    var data := Stamped(c, userId, deviceId);
    if c.id.Some? && c.id.value != 0 {
      var existing := alarms.FindById(c.id.value, userId);
      if existing.Some? {
        alarms.Update(c.id.value, userId, data, now);
      } else {
        var _ := alarms.Create(data.(id := None), now);
      }
    } else {
      var _ := alarms.Create(data, now);
    }
  }

  /** The loop of `syncAlarms` over the drafts, the i-th written at
      `times[i]`. */
  method ApplyClientAlarms(alarms: AlarmTable, userId: int, deviceId: string, drafts: seq<ClientAlarm>, times: seq<Time>)
    requires alarms.Valid() && |times| == |drafts|
    modifies alarms
    ensures alarms.Valid()
    ensures alarms.Snap() == ApplyDrafts(old(alarms.Snap()), userId, deviceId, drafts, times)
  {
    ghost var s0 := alarms.Snap();
    var i := 0;
    while i < |drafts|
      invariant 0 <= i <= |drafts|
      invariant alarms.Valid()
      invariant alarms.Snap() == ApplyDrafts(s0, userId, deviceId, drafts[..i], times[..i])
    {
      ApplyDraftsStep(s0, userId, deviceId, drafts, times, i);
      ApplyClientAlarm(alarms, userId, deviceId, drafts[i], times[i]);
      i := i + 1;
    }
    assert drafts[..i] == drafts;
    assert times[..i] == times;
  }

  /** One device of `notifyOtherDevices`: a recipient is sent its
      announcement; the token the provider reports as unregistered is
      returned, after it has been pruned. */
  method AnnounceTo(push: Notifications.PushGateway, d: Devices.DeviceRow, exclude: Option<string>,
                    operation: string, entityId: int, at: Time, ghost rows0: seq<Devices.DeviceRow>, ghost tokens: set<string>)
    requires push.devices.Valid() && push.devices.rows == Pruned(rows0, tokens)
    modifies push, push.devices
    ensures push.devices.Valid() && push.devices.nextId == old(push.devices.nextId)
    ensures push.sent == old(push.sent) + Notice(d, exclude, operation, entityId, at)
    ensures push.devices.rows == Pruned(rows0, tokens + Rejected(d, exclude, push.provider))
  {
    if d.fcmToken.Some? && d.fcmToken.value != "" && Some(d.deviceId) != exclude {
      var token := d.fcmToken.value;
      var _ := push.SendPushNotification(token, SyncTitle, AlarmsChangedMessage,
                                         Some(SyncRequest(operation, entityId, at)));
      if push.provider(token) == Notifications.Failed(Notifications.TokenNotRegistered) {
        PruneOneMore(rows0, tokens, token);
      } else {
        assert tokens + Rejected(d, exclude, push.provider) == tokens;
      }
    } else {
      assert tokens + Rejected(d, exclude, push.provider) == tokens;
    }
  }

  /** The loop of `notifyOtherDevices` over the devices `ds`. */
  method Announce(push: Notifications.PushGateway, ds: seq<Devices.DeviceRow>, exclude: Option<string>,
                  operation: string, entityId: int, at: Time)
    requires push.devices.Valid()
    modifies push, push.devices
    ensures push.devices.Valid() && push.devices.nextId == old(push.devices.nextId)
    ensures push.sent == old(push.sent) + Announcements(ds, exclude, operation, entityId, at)
    ensures push.devices.rows == Pruned(old(push.devices.rows), PrunedTokens(ds, exclude, push.provider))
  {
    ghost var rows0 := push.devices.rows;
    ghost var sent0 := push.sent;
    PrunedNothing(rows0);
    var i := 0;
    while i < |ds|
      invariant 0 <= i <= |ds|
      invariant push.devices.Valid() && push.devices.nextId == old(push.devices.nextId)
      invariant push.sent == sent0 + Announcements(ds[..i], exclude, operation, entityId, at)
      invariant push.devices.rows == Pruned(rows0, PrunedTokens(ds[..i], exclude, push.provider))
    {
      AnnounceStep(ds, exclude, operation, entityId, at, push.provider, i);
      AppendAssociates(sent0, Announcements(ds[..i], exclude, operation, entityId, at),
                       Notice(ds[i], exclude, operation, entityId, at));
      AnnounceTo(push, ds[i], exclude, operation, entityId, at, rows0, PrunedTokens(ds[..i], exclude, push.provider));
      i := i + 1;
    }
    assert ds[..i] == ds;
  }

  lemma AppendAssociates<T>(a: seq<T>, b: seq<T>, c: seq<T>)
    ensures (a + b) + c == a + (b + c)
  {
  }

  /** The announcements and pruned tokens of one more device. */
  lemma AnnounceStep(ds: seq<Devices.DeviceRow>, exclude: Option<string>, operation: string, entityId: int, at: Time,
                     provider: string -> Notifications.SendOutcome, i: int)
    requires 0 <= i < |ds|
    ensures Announcements(ds[..i + 1], exclude, operation, entityId, at)
         == Announcements(ds[..i], exclude, operation, entityId, at) + Notice(ds[i], exclude, operation, entityId, at)
    ensures PrunedTokens(ds[..i + 1], exclude, provider) == PrunedTokens(ds[..i], exclude, provider) + Rejected(ds[i], exclude, provider)
  {
    assert ds[..i + 1][..i] == ds[..i];
  }

  /** The row just appended is the one `findById` returns. */
  lemma FindByIdIsLast(s: Snapshot, id: int, userId: int)
    requires WellFormed(s) && |s.rows| > 0 && Matches(s.rows[|s.rows| - 1], id, userId)
    ensures RowFor(s.rows, id, userId) == Some(s.rows[|s.rows| - 1])
  {
    var r := RowFor(s.rows, id, userId).value;
    var j :| 0 <= j < |s.rows| && s.rows[j] == r;
    if j != |s.rows| - 1 {
      assert s.rows[j].id != s.rows[|s.rows| - 1].id;
    }
  }

  /** An update keeps the row it writes: the user can still find it. */
  lemma UpdateKeepsRow(rows: seq<AlarmRow>, id: int, userId: int, a: Alarm, now: Time)
    requires RowFor(rows, id, userId).Some?
    ensures RowFor(UpdateRows(rows, id, userId, a, now), id, userId).Some?
  {
    var i :| 0 <= i < |rows| && rows[i] == RowFor(rows, id, userId).value;
    assert Matches(UpdateRows(rows, id, userId, a, now)[i], id, userId);
  }

  /** Toggling keeps the row it writes, with the requested state. */
  lemma ToggleKeepsRow(rows: seq<AlarmRow>, id: int, userId: int, isActive: bool, now: Time)
    requires RowFor(rows, id, userId).Some?
    ensures RowFor(ToggleRows(rows, id, userId, isActive, now), id, userId).Some?
    ensures DecodeRow(RowFor(ToggleRows(rows, id, userId, isActive, now), id, userId).value).isActive == Some(isActive)
  {
    var i :| 0 <= i < |rows| && rows[i] == RowFor(rows, id, userId).value;
    assert Matches(ToggleRows(rows, id, userId, isActive, now)[i], id, userId);
  }
}
