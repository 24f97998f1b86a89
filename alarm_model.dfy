/** The alarms table (src/models/Alarm.ts): the mapping between the camelCase
    alarm record and the snake_case row, and the table operations the sync
    engine and the single-alarm endpoints use. */
module Alarms {
  import opened Common

  /** The error an insert without a title, time or days raises. */
  const NotNullError := "NOT NULL constraint failed"

  /** The camelCase alarm record. Every field is optional, so the same type
      serves `Alarm` and `Partial<Alarm>`. `D` is the type of `days`: the
      stored JSON text (`Alarm`), or what a client sent (see AlarmSync). */
  datatype AlarmOf<D> = Alarm(
    id: Option<int>,
    userId: Option<int>,
    title: Option<string>,
    time: Option<string>,
    days: Option<D>,
    sound: Option<string>,
    vibration: Option<bool>,
    snoozeInterval: Option<int>,
    snoozeCount: Option<int>,
    isActive: Option<bool>,
    noRepeat: Option<bool>,
    createdAt: Option<Time>,
    updatedAt: Option<Time>,
    deviceId: Option<string>,
    syncStatus: Option<string>)
  {
    /** The same record with another `days` field. */
    function WithDays<E>(d: Option<E>): (r: AlarmOf<E>)
      ensures r.days == d && r.id == id && r.userId == userId && r.title == title
      ensures r.time == time && r.deviceId == deviceId && r.syncStatus == syncStatus
    {
      Alarm(id, userId, title, time, d, sound, vibration, snoozeInterval, snoozeCount,
            isActive, noRepeat, createdAt, updatedAt, deviceId, syncStatus)
    }
  }

  type Alarm = AlarmOf<string>

  const SyncedStatus := "synced"
  const PendingStatus := "pending"

  /** A row of the alarms table. Booleans are stored as integers. */
  datatype AlarmRow = AlarmRow(
    id: int,
    userId: int,
    title: string,
    time: string,
    days: string,
    sound: Option<string>,
    vibration: int,
    snoozeInterval: int,
    snoozeCount: int,
    isActive: int,
    noRepeat: int,
    createdAt: Time,
    updatedAt: Time,
    deviceId: Option<string>,
    syncStatus: string)

  /** The columns of the alarms table. */
  datatype Column =
    | ColId | ColUserId | ColTitle | ColTime | ColDays | ColSound | ColVibration
    | ColSnoozeInterval | ColSnoozeCount | ColIsActive | ColNoRepeat | ColDeviceId
    | ColSyncStatus | ColCreatedAt | ColUpdatedAt

  datatype DbValue = DInt(i: int) | DText(s: string) | DTime(t: Time)

  /** The dictionary `mapAlarmToDbValues` builds: one entry per column written. */
  type DbValues = map<Column, DbValue>

  function BoolToDb(b: bool): int
  {
    if b then 1 else 0
  }

  /** `row.x === 1`. */
  function DbToBool(v: int): bool
  {
    v == 1
  }

  // ---------------------------------------------------------------------
  // Row to record

  /** The record a stored row is read back as. */
  function DecodeRow(row: AlarmRow): (a: Alarm)
    ensures a.id == Some(row.id) && a.userId == Some(row.userId)
    ensures a.updatedAt == Some(row.updatedAt) && a.time == Some(row.time)
    ensures a.vibration == Some(row.vibration == 1)
    ensures a.isActive == Some(row.isActive == 1)
    ensures a.noRepeat == Some(row.noRepeat == 1)
  {
    Alarm(Some(row.id), Some(row.userId), Some(row.title), Some(row.time), Some(row.days),
          row.sound, Some(DbToBool(row.vibration)), Some(row.snoozeInterval),
          Some(row.snoozeCount), Some(DbToBool(row.isActive)), Some(DbToBool(row.noRepeat)),
          Some(row.createdAt), Some(row.updatedAt), row.deviceId, Some(row.syncStatus))
  }

  /** `mapRowToAlarm`: a missing row reads as `null`. */
  function MapRowToAlarm(row: Option<AlarmRow>): (r: Option<Alarm>)
    ensures r.Some? <==> row.Some?
    ensures row.Some? ==> r.value == DecodeRow(row.value)
  {
    match row
    case None => None
    case Some(x) => Some(DecodeRow(x))
  }

  function DecodeAll(rows: seq<AlarmRow>): (r: seq<Alarm>)
    ensures |r| == |rows|
    ensures forall i :: 0 <= i < |rows| ==> r[i] == DecodeRow(rows[i])
  {
    seq(|rows|, i requires 0 <= i < |rows| => DecodeRow(rows[i]))
  }

  // ---------------------------------------------------------------------
  // Record to column values

  /** The value a record gives a column, by the camelCase to snake_case
      correspondence; `None` when the field is undefined. `id` has no
      counterpart: it is never mapped. */
  function Encoded(a: Alarm, c: Column): Option<DbValue>
  {
    match c
    case ColId => None
    case ColUserId => if a.userId.Some? then Some(DInt(a.userId.value)) else None
    case ColTitle => if a.title.Some? then Some(DText(a.title.value)) else None
    case ColTime => if a.time.Some? then Some(DText(a.time.value)) else None
    case ColDays => if a.days.Some? then Some(DText(a.days.value)) else None
    case ColSound => if a.sound.Some? then Some(DText(a.sound.value)) else None
    case ColVibration => if a.vibration.Some? then Some(DInt(BoolToDb(a.vibration.value))) else None
    case ColSnoozeInterval => if a.snoozeInterval.Some? then Some(DInt(a.snoozeInterval.value)) else None
    case ColSnoozeCount => if a.snoozeCount.Some? then Some(DInt(a.snoozeCount.value)) else None
    case ColIsActive => if a.isActive.Some? then Some(DInt(BoolToDb(a.isActive.value))) else None
    case ColNoRepeat => if a.noRepeat.Some? then Some(DInt(BoolToDb(a.noRepeat.value))) else None
    case ColDeviceId => if a.deviceId.Some? then Some(DText(a.deviceId.value)) else None
    case ColSyncStatus => if a.syncStatus.Some? then Some(DText(a.syncStatus.value)) else None
    case ColCreatedAt => if a.createdAt.Some? then Some(DTime(a.createdAt.value)) else None
    case ColUpdatedAt => if a.updatedAt.Some? then Some(DTime(a.updatedAt.value)) else None
  }

  const AllColumns: set<Column> := {
    ColId, ColUserId, ColTitle, ColTime, ColDays, ColSound, ColVibration,
    ColSnoozeInterval, ColSnoozeCount, ColIsActive, ColNoRepeat, ColDeviceId,
    ColSyncStatus, ColCreatedAt, ColUpdatedAt }

  /** A stored flag is 0 or 1. */
  predicate IsFlag(v: DbValue)
  {
    v == DInt(0) || v == DInt(1)
  }

  /** `mapAlarmToDbValues`: one entry per defined field, booleans as 1/0,
      and never an `id` entry. */
  function MapAlarmToDbValues(a: Alarm): (r: DbValues)
    ensures forall c :: c in r <==> Encoded(a, c).Some?
    ensures forall c :: c in r ==> r[c] == Encoded(a, c).value
    ensures ColId !in r
    ensures ColVibration in r ==> IsFlag(r[ColVibration])
    ensures ColIsActive in r ==> IsFlag(r[ColIsActive])
    ensures ColNoRepeat in r ==> IsFlag(r[ColNoRepeat])
  {
    map c | c in AllColumns && Encoded(a, c).Some? :: Encoded(a, c).value
  }

  // Typed reads of a column value; a value of another type reads as absent.

  function TextAt(m: DbValues, c: Column): Option<string>
  {
    if c in m && m[c].DText? then Some(m[c].s) else None
  }

  function IntAt(m: DbValues, c: Column): Option<int>
  {
    if c in m && m[c].DInt? then Some(m[c].i) else None
  }

  /** `x || null` on a text column. */
  function TextOrNull(m: DbValues, c: Column): Option<string>
  {
    if TextAt(m, c).Some? && TextAt(m, c).value != "" then TextAt(m, c) else None
  }

  /** `x !== undefined ? x : d` on an integer column. */
  function IntOrDefault(m: DbValues, c: Column, d: int): int
  {
    if IntAt(m, c).Some? then IntAt(m, c).value else d
  }

  /** `x || d` on an integer column: 0 counts as missing. */
  function IntOrFalsy(m: DbValues, c: Column, d: int): int
  {
    if IntAt(m, c).Some? && IntAt(m, c).value != 0 then IntAt(m, c).value else d
  }

  // ---------------------------------------------------------------------
  // The table as a value, and its operations as functions

  /** The table contents and the next AUTOINCREMENT id. */
  datatype Snapshot = Snapshot(rows: seq<AlarmRow>, nextId: int)

  predicate FlagsOk(r: AlarmRow)
  {
    r.vibration in {0, 1} && r.isActive in {0, 1} && r.noRepeat in {0, 1}
  }

  /** Row ids are positive, below the next id, and distinct; flags are 0/1. */
  ghost predicate WellFormed(s: Snapshot)
  {
    && 1 <= s.nextId
    && (forall i :: 0 <= i < |s.rows| ==> 1 <= s.rows[i].id < s.nextId && FlagsOk(s.rows[i]))
    && (forall i, j :: 0 <= i < j < |s.rows| ==> s.rows[i].id != s.rows[j].id)
  }

  /** The row the INSERT of `create` stores, or `None` when one of the
      NOT NULL columns user_id, title, time and days is given no value (the
      insert then throws). Both timestamps are the current time; values the
      caller gave for created_at and updated_at are ignored. */
  function InsertRow(m: DbValues, id: int, now: Time): Option<AlarmRow>
  {
    if IntAt(m, ColUserId).None? || TextAt(m, ColTitle).None? || TextAt(m, ColTime).None?
       || TextAt(m, ColDays).None?
    then None
    else Some(AlarmRow(
      id,
      IntAt(m, ColUserId).value,
      TextAt(m, ColTitle).value,
      TextAt(m, ColTime).value,
      TextAt(m, ColDays).value,
      TextOrNull(m, ColSound),
      IntOrDefault(m, ColVibration, 1),
      IntOrFalsy(m, ColSnoozeInterval, 5),
      IntOrFalsy(m, ColSnoozeCount, 3),
      IntOrDefault(m, ColIsActive, 1),
      IntOrDefault(m, ColNoRepeat, 0),
      now,
      now,
      TextOrNull(m, ColDeviceId),
      if TextAt(m, ColSyncStatus).Some? && TextAt(m, ColSyncStatus).value != "" then TextAt(m, ColSyncStatus).value else PendingStatus))
  }

  /** The fields the NOT NULL columns need. */
  predicate HasRequired(a: Alarm)
  {
    a.userId.Some? && a.title.Some? && a.time.Some? && a.days.Some?
  }

  /** `AlarmModel.create`: the new table and the id of the inserted row. The
      insert succeeds exactly when the required fields are given; it then
      appends one row and returns its fresh id, and otherwise changes nothing. */
  function CreateIn(s: Snapshot, a: Alarm, now: Time): (r: (Snapshot, Result<int>))
    ensures r.1.Ok? <==> HasRequired(a)
    ensures r.1.Ok? ==> r.1.value == s.nextId && r.0.nextId == s.nextId + 1
    ensures r.1.Ok? ==> |r.0.rows| == |s.rows| + 1 && r.0.rows[..|s.rows|] == s.rows
    ensures r.1.Ok? ==> r.0.rows[|s.rows|].id == s.nextId && r.0.rows[|s.rows|].userId == a.userId.value
    ensures r.1.Ok? ==> r.0.rows[|s.rows|].updatedAt == now
    ensures r.1.Err? ==> r.0 == s
  {
    match InsertRow(MapAlarmToDbValues(a), s.nextId, now)
    case None => (s, Err(NotNullError))
    case Some(row) => (Snapshot(s.rows + [row], s.nextId + 1), Ok(s.nextId))
  }

  predicate Matches(r: AlarmRow, id: int, userId: int)
  {
    r.id == id && r.userId == userId
  }

  /** The first row with that id and owner (there is at most one). */
  function RowFor(rows: seq<AlarmRow>, id: int, userId: int): (r: Option<AlarmRow>)
    ensures r.Some? ==> r.value in rows && Matches(r.value, id, userId)
    ensures r.None? ==> forall i :: 0 <= i < |rows| ==> !Matches(rows[i], id, userId)
  {
    if rows == [] then None
    else if Matches(rows[0], id, userId) then Some(rows[0])
    else RowFor(rows[1..], id, userId)
  }

  /** The columns `update` refuses to write from a partial record. */
  predicate Protected(c: Column)
  {
    c == ColId || c == ColUserId || c == ColCreatedAt || c == ColUpdatedAt
  }

  /** The entries `update` turns into `SET` clauses. */
  function Writable(m: DbValues): (w: DbValues)
    ensures forall c :: c in w <==> c in m && !Protected(c)
    ensures forall c :: c in w ==> w[c] == m[c]
  {
    map c | c in m && !Protected(c) :: m[c]
  }

  /** The value a `SET` clause gives a column, or `d` when there is none. */
  function ValueOr<T>(o: Option<T>, d: T): T
  {
    if o.Some? then o.value else d
  }

  /** A row after the `SET` clauses of `w`. Only the writable columns can
      change. */
  function Written(r: AlarmRow, w: DbValues): (r': AlarmRow)
    ensures r'.id == r.id && r'.userId == r.userId && r'.createdAt == r.createdAt
    ensures r'.updatedAt == r.updatedAt
  {
    r.(title := ValueOr(TextAt(w, ColTitle), r.title),
       time := ValueOr(TextAt(w, ColTime), r.time),
       days := ValueOr(TextAt(w, ColDays), r.days),
       sound := if TextAt(w, ColSound).Some? then TextAt(w, ColSound) else r.sound,
       vibration := ValueOr(IntAt(w, ColVibration), r.vibration),
       snoozeInterval := ValueOr(IntAt(w, ColSnoozeInterval), r.snoozeInterval),
       snoozeCount := ValueOr(IntAt(w, ColSnoozeCount), r.snoozeCount),
       isActive := ValueOr(IntAt(w, ColIsActive), r.isActive),
       noRepeat := ValueOr(IntAt(w, ColNoRepeat), r.noRepeat),
       deviceId := if TextAt(w, ColDeviceId).Some? then TextAt(w, ColDeviceId) else r.deviceId,
       syncStatus := ValueOr(TextAt(w, ColSyncStatus), r.syncStatus))
  }

  /** `AlarmModel.update`: the rows matching id and owner get the writable
      fields of the partial record and `updated_at = now`; with nothing
      writable nothing is written at all. */
  function UpdateRows(rows: seq<AlarmRow>, id: int, userId: int, a: Alarm, now: Time): (r: seq<AlarmRow>)
    ensures |r| == |rows|
    ensures forall i :: 0 <= i < |rows| ==>
              r[i].id == rows[i].id && r[i].userId == rows[i].userId && r[i].createdAt == rows[i].createdAt
    ensures forall i :: 0 <= i < |rows| && !Matches(rows[i], id, userId) ==> r[i] == rows[i]
    ensures Writable(MapAlarmToDbValues(a)) == map[] ==> r == rows
    ensures Writable(MapAlarmToDbValues(a)) != map[] ==>
              forall i :: 0 <= i < |rows| && Matches(rows[i], id, userId) ==> r[i].updatedAt == now
  {
    var w := Writable(MapAlarmToDbValues(a));
    if w == map[] then rows
    else seq(|rows|, i requires 0 <= i < |rows| =>
               if Matches(rows[i], id, userId) then Written(rows[i], w).(updatedAt := now) else rows[i])
  }

  /** `AlarmModel.toggleActive`. */
  function ToggleRows(rows: seq<AlarmRow>, id: int, userId: int, isActive: bool, now: Time): (r: seq<AlarmRow>)
    ensures |r| == |rows|
    ensures forall i :: 0 <= i < |rows| && !Matches(rows[i], id, userId) ==> r[i] == rows[i]
    ensures forall i :: 0 <= i < |rows| && Matches(rows[i], id, userId) ==>
              DecodeRow(r[i]).isActive == Some(isActive) && r[i].updatedAt == now
              && r[i] == rows[i].(isActive := r[i].isActive, updatedAt := now)
  {
    seq(|rows|, i requires 0 <= i < |rows| =>
          if Matches(rows[i], id, userId) then rows[i].(isActive := BoolToDb(isActive), updatedAt := now) else rows[i])
  }

  /** `AlarmModel.delete`: the rows matching id and owner are removed. */
  function DeleteRows(rows: seq<AlarmRow>, id: int, userId: int): (r: seq<AlarmRow>)
    ensures forall x :: x in r <==> x in rows && !Matches(x, id, userId)
  {
    if rows == [] then []
    else if Matches(rows[0], id, userId) then DeleteRows(rows[1..], id, userId)
    else [rows[0]] + DeleteRows(rows[1..], id, userId)
  }

  /** `getAlarmsForSync`'s WHERE clause: the owner's rows changed strictly
      after `since`, in table order. */
  function ChangedSince(rows: seq<AlarmRow>, userId: int, since: Time): (r: seq<AlarmRow>)
    ensures forall x :: x in r <==> x in rows && x.userId == userId && x.updatedAt > since
  {
    if rows == [] then []
    else if rows[0].userId == userId && rows[0].updatedAt > since
    then [rows[0]] + ChangedSince(rows[1..], userId, since)
    else ChangedSince(rows[1..], userId, since)
  }

  /** The owner's rows, in table order. */
  function RowsOf(rows: seq<AlarmRow>, userId: int): (r: seq<AlarmRow>)
    ensures forall x :: x in r <==> x in rows && x.userId == userId
  {
    if rows == [] then []
    else if rows[0].userId == userId then [rows[0]] + RowsOf(rows[1..], userId)
    else RowsOf(rows[1..], userId)
  }

  // ---------------------------------------------------------------------
  // ORDER BY time ASC: byte-wise string order, and a sort by it

  /** SQLite's BINARY collation on two strings. */
  predicate TextLe(a: string, b: string)
  {
    a == [] || (b != [] && (a[0] < b[0] || (a[0] == b[0] && TextLe(a[1..], b[1..]))))
  }

  lemma {:induction false} TextLeTotal(a: string, b: string)
    ensures TextLe(a, b) || TextLe(b, a)
  {
    if a != [] && b != [] && a[0] == b[0] {
      TextLeTotal(a[1..], b[1..]);
    }
  }

  lemma {:induction false} TextLeTransitive(a: string, b: string, c: string)
    requires TextLe(a, b) && TextLe(b, c)
    ensures TextLe(a, c)
  {
    if a != [] && b != [] && c != [] && a[0] == b[0] && b[0] == c[0] {
      TextLeTransitive(a[1..], b[1..], c[1..]);
    }
  }

  ghost predicate SortedByTime(rows: seq<AlarmRow>)
  {
    forall i, j :: 0 <= i < j < |rows| ==> TextLe(rows[i].time, rows[j].time)
  }

  /** Records in the order `findAllByUserId` returns them: every one has a
      time, and the times ascend. */
  predicate InTimeOrder(alarms: seq<Alarm>)
  {
    forall i, j :: 0 <= i < j < |alarms| ==>
      alarms[i].time.Some? && alarms[j].time.Some? && TextLe(alarms[i].time.value, alarms[j].time.value)
  }

  function InsertByTime(x: AlarmRow, sorted: seq<AlarmRow>): (r: seq<AlarmRow>)
    ensures multiset(r) == multiset(sorted) + multiset{x}
    ensures |r| == |sorted| + 1
  {
    if sorted == [] then [x]
    else if TextLe(x.time, sorted[0].time) then [x] + sorted
    else
      assert sorted == [sorted[0]] + sorted[1..];
      [sorted[0]] + InsertByTime(x, sorted[1..])
  }

  lemma {:induction false} InsertByTimeSorted(x: AlarmRow, sorted: seq<AlarmRow>)
    requires SortedByTime(sorted)
    ensures SortedByTime(InsertByTime(x, sorted))
  {
    if sorted != [] && !TextLe(x.time, sorted[0].time) {
      var rest := sorted[1..];
      assert SortedByTime(rest);
      InsertByTimeSorted(x, rest);
      var r := InsertByTime(x, rest);
      TextLeTotal(x.time, sorted[0].time);
      forall k | 0 <= k < |r| ensures TextLe(sorted[0].time, r[k].time) {
        assert r[k] in multiset(rest) + multiset{x};
        if r[k] == x {
        } else {
          assert r[k] in rest;
          var j :| 0 <= j < |rest| && rest[j] == r[k];
          assert sorted[j + 1] == r[k];
        }
      }
      assert InsertByTime(x, sorted) == [sorted[0]] + r;
      ConsSorted(sorted[0], r);
    } else if sorted != [] {
      forall k | 0 <= k < |sorted| ensures TextLe(x.time, sorted[k].time) {
        if k > 0 {
          TextLeTransitive(x.time, sorted[0].time, sorted[k].time);
        }
      }
      ConsSorted(x, sorted);
    }
  }

  /** A row no later than every row of a sorted list can go in front. */
  lemma ConsSorted(y: AlarmRow, rows: seq<AlarmRow>)
    requires SortedByTime(rows) && forall k :: 0 <= k < |rows| ==> TextLe(y.time, rows[k].time)
    ensures SortedByTime([y] + rows)
  {
    var out := [y] + rows;
    forall i, j | 0 <= i < j < |out| ensures TextLe(out[i].time, out[j].time) {
      assert out[j] == rows[j - 1];
      if i > 0 {
        assert out[i] == rows[i - 1];
      }
    }
  }

  /** Insertion sort by time; rows with equal times keep no particular order
      in SQL, here they end up in the order the sort produces. */
  function SortByTime(rows: seq<AlarmRow>): (r: seq<AlarmRow>)
    ensures multiset(r) == multiset(rows)
    ensures |r| == |rows|
  {
    if rows == [] then []
    else
      assert rows == [rows[0]] + rows[1..];
      InsertByTime(rows[0], SortByTime(rows[1..]))
  }

  lemma {:induction false} SortByTimeSorted(rows: seq<AlarmRow>)
    ensures SortedByTime(SortByTime(rows))
  {
    if rows != [] {
      SortByTimeSorted(rows[1..]);
      InsertByTimeSorted(rows[0], SortByTime(rows[1..]));
    }
  }

  // ---------------------------------------------------------------------
  // The table

  class AlarmTable {
    var rows: seq<AlarmRow>
    var nextId: int

    ghost predicate Valid()
      reads this
    {
      WellFormed(Snap())
    }

    function Snap(): Snapshot
      reads this
    {
      Snapshot(rows, nextId)
    }

    constructor ()
      ensures Valid() && rows == []
    {
      rows := [];
      nextId := 1;
    }

    /** `findById`: the alarm with that id, only if it belongs to the user. */
    method FindById(id: int, userId: int) returns (a: Option<Alarm>)
      requires Valid()
      ensures a.Some? <==> exists i :: 0 <= i < |rows| && Matches(rows[i], id, userId)
      ensures a.Some? ==> exists i :: 0 <= i < |rows| && Matches(rows[i], id, userId) && a.value == DecodeRow(rows[i])
      ensures a == MapRowToAlarm(RowFor(rows, id, userId))
    {
      a := MapRowToAlarm(RowFor(rows, id, userId));
    }

    /** `findAllByUserId`: every alarm of the user, ordered by time. */
    method FindAllByUserId(userId: int) returns (alarms: seq<Alarm>)
      requires Valid()
      ensures multiset(alarms) == multiset(DecodeAll(RowsOf(rows, userId)))
      ensures forall a :: a in alarms ==> a.userId == Some(userId)
      ensures InTimeOrder(alarms)
    {
      var mine := RowsOf(rows, userId);
      var sorted := SortByTime(mine);
      SortByTimeSorted(mine);
      alarms := DecodeAll(sorted);
      DecodeAllMultiset(sorted, mine);
      DecodeSortedOwned(sorted, mine, userId);
    }

    /** `getAlarmsForSync`: the user's alarms with updated_at strictly after
        the given time, and no others. */
    method GetAlarmsForSync(userId: int, since: Time) returns (alarms: seq<Alarm>)
      requires Valid()
      ensures alarms == DecodeAll(ChangedSince(rows, userId, since))
      ensures forall a :: a in alarms ==> a.userId == Some(userId) && a.updatedAt.value > since
    {
      alarms := DecodeAll(ChangedSince(rows, userId, since));
      forall a | a in alarms ensures a.userId == Some(userId) && a.updatedAt.value > since {
        var i :| 0 <= i < |alarms| && alarms[i] == a;
        assert ChangedSince(rows, userId, since)[i] in ChangedSince(rows, userId, since);
      }
    }

    /** `create`: inserts the row with its defaults and returns its id. */
    method Create(a: Alarm, now: Time) returns (r: Result<int>)
      requires Valid()
      modifies this
      ensures Valid()
      ensures (Snap(), r) == CreateIn(old(Snap()), a, now)
    {
      var row := InsertRow(MapAlarmToDbValues(a), nextId, now);
      if row.None? {
        r := Err(NotNullError);
      } else {
        InsertRowFlags(a, nextId, now);
        rows := rows + [row.value];
        r := Ok(nextId);
        nextId := nextId + 1;
      }
    }

    /** `update`: writes the writable fields of a partial record to the row
        with that id and owner. The entries of the column dictionary are
        collected one at a time, skipping the protected columns. */
    method Update(id: int, userId: int, data: Alarm, now: Time)
      requires Valid()
      modifies this
      ensures Valid()
      ensures rows == UpdateRows(old(rows), id, userId, data, now) && nextId == old(nextId)
    {
      var dbData := MapAlarmToDbValues(data);
      var updates: DbValues := map[];
      var pending := dbData.Keys;
      while pending != {}
        invariant pending <= dbData.Keys
        invariant forall c :: c in updates <==> c in dbData && c !in pending && !Protected(c)
        invariant forall c :: c in updates ==> updates[c] == dbData[c]
        decreases pending
      {
        var c :| c in pending;
        if !Protected(c) {
          updates := updates[c := dbData[c]];
        }
        pending := pending - {c};
      }
      assert updates == Writable(dbData);
      if updates == map[] {
        return;
      }
      UpdateRowsWellFormed(Snap(), id, userId, data, now);
      rows := UpdateRows(rows, id, userId, data, now);
    }

    /** `delete`. */
    method Delete(id: int, userId: int)
      requires Valid()
      modifies this
      ensures Valid()
      ensures rows == DeleteRows(old(rows), id, userId) && nextId == old(nextId)
    {
      DeleteRowsWellFormed(Snap(), id, userId);
      rows := DeleteRows(rows, id, userId);
    }

    /** `toggleActive`. */
    method ToggleActive(id: int, userId: int, isActive: bool, now: Time)
      requires Valid()
      modifies this
      ensures Valid()
      ensures rows == ToggleRows(old(rows), id, userId, isActive, now) && nextId == old(nextId)
    {
      rows := ToggleRows(rows, id, userId, isActive, now);
    }
  }

  /** Decoding a permutation of rows gives a permutation of the decoded
      records. */
  lemma {:induction false} DecodeAllMultiset(sorted: seq<AlarmRow>, rows: seq<AlarmRow>)
    requires multiset(sorted) == multiset(rows)
    ensures multiset(DecodeAll(sorted)) == multiset(DecodeAll(rows))
    decreases |sorted|
  {
    if sorted != [] {
      var n := |sorted| - 1;
      var x := sorted[n];
      assert x in multiset(rows);
      var j :| 0 <= j < |rows| && rows[j] == x;
      var rest := rows[..j] + rows[j + 1..];
      RemoveAt(sorted, n);
      RemoveAt(rows, j);
      assert sorted[..n] + sorted[n + 1..] == sorted[..n];
      CancelOne(multiset(sorted[..n]), multiset(rest), x);
      DecodeAllMultiset(sorted[..n], rest);
      DecodeAllRemoveAt(sorted, n);
      DecodeAllRemoveAt(rows, j);
    }
  }

  /** Decoding a time-ordered permutation of one user's rows gives that
      user's records, still ordered by time. */
  lemma DecodeSortedOwned(sorted: seq<AlarmRow>, mine: seq<AlarmRow>, userId: int)
    requires SortedByTime(sorted) && multiset(sorted) == multiset(mine)
    requires forall x :: x in mine ==> x.userId == userId
    ensures var alarms := DecodeAll(sorted);
      && (forall a :: a in alarms ==> a.userId == Some(userId))
      && InTimeOrder(alarms)
  {
    var alarms := DecodeAll(sorted);
    forall a | a in alarms ensures a.userId == Some(userId) {
      var i :| 0 <= i < |alarms| && alarms[i] == a;
      assert sorted[i] in multiset(mine);
    }
  }

  /** A sequence holds the element at `j` once more than the sequence
      without it. */
  lemma RemoveAt<T>(s: seq<T>, j: int)
    requires 0 <= j < |s|
    ensures multiset(s) == multiset(s[..j] + s[j + 1..]) + multiset{s[j]}
  {
    assert s == s[..j] + [s[j]] + s[j + 1..];
  }

  /** One occurrence of the same element added to both sides can be taken
      away again. */
  lemma CancelOne<T>(a: multiset<T>, b: multiset<T>, x: T)
    requires a + multiset{x} == b + multiset{x}
    ensures a == b
  {
    assert a == a + multiset{x} - multiset{x};
    assert b == b + multiset{x} - multiset{x};
  }

  /** Decoding commutes with taking out the row at `j`. */
  lemma DecodeAllRemoveAt(s: seq<AlarmRow>, j: int)
    requires 0 <= j < |s|
    ensures multiset(DecodeAll(s)) == multiset(DecodeAll(s[..j] + s[j + 1..])) + multiset{DecodeRow(s[j])}
  {
    var d := DecodeAll(s);
    var t := s[..j] + s[j + 1..];
    forall k | 0 <= k < |t|
      ensures DecodeAll(t)[k] == (d[..j] + d[j + 1..])[k]
    {
      if k >= j {
        assert t[k] == s[k + 1];
      }
    }
    assert DecodeAll(t) == d[..j] + d[j + 1..];
    RemoveAt(d, j);
  }

  lemma InsertRowFlags(a: Alarm, id: int, now: Time)
    ensures InsertRow(MapAlarmToDbValues(a), id, now).Some? ==> FlagsOk(InsertRow(MapAlarmToDbValues(a), id, now).value)
  {
  }

  lemma UpdateRowsWellFormed(s: Snapshot, id: int, userId: int, a: Alarm, now: Time)
    requires WellFormed(s)
    ensures WellFormed(Snapshot(UpdateRows(s.rows, id, userId, a, now), s.nextId))
  {
    var w := Writable(MapAlarmToDbValues(a));
    var r := UpdateRows(s.rows, id, userId, a, now);
    forall i | 0 <= i < |r| ensures 1 <= r[i].id < s.nextId && FlagsOk(r[i]) {
      assert FlagsOk(s.rows[i]);
    }
  }

  lemma DeleteRowsWellFormed(s: Snapshot, id: int, userId: int)
    requires WellFormed(s)
    ensures WellFormed(Snapshot(DeleteRows(s.rows, id, userId), s.nextId))
  {
    DeleteRowsSubsequence(s.rows, id, userId);
    var r := DeleteRows(s.rows, id, userId);
    forall i | 0 <= i < |r| ensures 1 <= r[i].id < s.nextId && FlagsOk(r[i]) {
      assert r[i] in r;
    }
  }

  /** No two rows of a sequence share an id. */
  ghost predicate DistinctIds(rows: seq<AlarmRow>)
  {
    forall i, j :: 0 <= i < j < |rows| ==> rows[i].id != rows[j].id
  }

  lemma {:induction false} DeleteRowsSubsequence(rows: seq<AlarmRow>, id: int, userId: int)
    requires DistinctIds(rows)
    ensures DistinctIds(DeleteRows(rows, id, userId))
  {
    if rows != [] {
      DeleteRowsSubsequence(rows[1..], id, userId);
      var rest := DeleteRows(rows[1..], id, userId);
      forall k | 0 <= k < |rest| ensures rest[k].id != rows[0].id {
        assert rest[k] in rows[1..];
      }
    }
  }
  // ---------------------------------------------------------------------
  // Read-back properties

  function FlagOf(b: Option<bool>): Option<int>
  {
    if b.Some? then Some(BoolToDb(b.value)) else None
  }

  /** Each text column of the dictionary holds its field's value. */
  lemma TextColumnsOfRecord(a: Alarm)
    ensures var m := MapAlarmToDbValues(a);
      && TextAt(m, ColTitle) == a.title && TextAt(m, ColTime) == a.time
      && TextAt(m, ColDays) == a.days && TextAt(m, ColSound) == a.sound
      && TextAt(m, ColDeviceId) == a.deviceId && TextAt(m, ColSyncStatus) == a.syncStatus
  {
    TextColumnRead(a, ColTitle);
    TextColumnRead(a, ColTime);
    TextColumnRead(a, ColDays);
    TextColumnRead(a, ColSound);
    TextColumnRead(a, ColDeviceId);
    TextColumnRead(a, ColSyncStatus);
  }

  /** Each integer column of the dictionary holds its field's value, the
      booleans as 1/0. */
  lemma IntColumnsOfRecord(a: Alarm)
    ensures var m := MapAlarmToDbValues(a);
      && IntAt(m, ColUserId) == a.userId && IntAt(m, ColVibration) == FlagOf(a.vibration)
      && IntAt(m, ColSnoozeInterval) == a.snoozeInterval && IntAt(m, ColSnoozeCount) == a.snoozeCount
      && IntAt(m, ColIsActive) == FlagOf(a.isActive) && IntAt(m, ColNoRepeat) == FlagOf(a.noRepeat)
  {
    IntColumnRead(a, ColUserId);
    IntColumnRead(a, ColVibration);
    IntColumnRead(a, ColSnoozeInterval);
    IntColumnRead(a, ColSnoozeCount);
    IntColumnRead(a, ColIsActive);
    IntColumnRead(a, ColNoRepeat);
  }

  /** The record field a text column holds. */
  function FieldText(a: Alarm, c: Column): Option<string>
  {
    match c
    case ColTitle => a.title
    case ColTime => a.time
    case ColDays => a.days
    case ColSound => a.sound
    case ColDeviceId => a.deviceId
    case ColSyncStatus => a.syncStatus
    case _ => None
  }

  /** The record field an integer column holds, the booleans as 1/0. */
  function FieldInt(a: Alarm, c: Column): Option<int>
  {
    match c
    case ColUserId => a.userId
    case ColVibration => FlagOf(a.vibration)
    case ColSnoozeInterval => a.snoozeInterval
    case ColSnoozeCount => a.snoozeCount
    case ColIsActive => FlagOf(a.isActive)
    case ColNoRepeat => FlagOf(a.noRepeat)
    case _ => None
  }

  /** A text read of one column of the dictionary sees that column's
      field. */
  lemma TextColumnRead(a: Alarm, c: Column)
    ensures TextAt(MapAlarmToDbValues(a), c) == FieldText(a, c)
  {
  }

  /** An integer read of one column of the dictionary sees that column's
      field. */
  lemma IntColumnRead(a: Alarm, c: Column)
    ensures IntAt(MapAlarmToDbValues(a), c) == FieldInt(a, c)
  {
  }

  /** Filtering out the protected columns keeps the values of the others. */
  lemma WritableReads(m: DbValues, c: Column)
    requires !Protected(c)
    ensures TextAt(Writable(m), c) == TextAt(m, c) && IntAt(Writable(m), c) == IntAt(m, c)
  {
  }

  /** Reading back a created alarm gives the fields it was created with, except
      where `create` substitutes a default: an undefined flag, and a falsy value
      of a field defaulted with `||` (a snooze setting of 0, an empty sound,
      device id or status). */
  lemma CreateReadBack(a: Alarm, id: int, now: Time)
    requires HasRequired(a)
    ensures InsertRow(MapAlarmToDbValues(a), id, now).Some?
    ensures var b := DecodeRow(InsertRow(MapAlarmToDbValues(a), id, now).value);
      && b.id == Some(id) && b.userId == a.userId && b.title == a.title
      && b.time == a.time && b.days == a.days
      && b.vibration == (if a.vibration.Some? then a.vibration else Some(true))
      && b.isActive == (if a.isActive.Some? then a.isActive else Some(true))
      && b.noRepeat == (if a.noRepeat.Some? then a.noRepeat else Some(false))
      && b.snoozeInterval == (if a.snoozeInterval.Some? && a.snoozeInterval.value != 0 then a.snoozeInterval else Some(5))
      && b.snoozeCount == (if a.snoozeCount.Some? && a.snoozeCount.value != 0 then a.snoozeCount else Some(3))
      && b.sound == (if Truthy(a.sound) then a.sound else None)
      && b.deviceId == (if Truthy(a.deviceId) then a.deviceId else None)
      && b.syncStatus == (if Truthy(a.syncStatus) then a.syncStatus else Some(PendingStatus))
      && b.createdAt == Some(now) && b.updatedAt == Some(now)
  {
    TextColumnsOfRecord(a);
    IntColumnsOfRecord(a);
  }

  /** A snooze interval of 0 does not survive `create`: it reads back as 5. */
  lemma CreateZeroSnoozeReadsBackFive(a: Alarm, id: int, now: Time)
    requires HasRequired(a) && a.snoozeInterval == Some(0)
    ensures InsertRow(MapAlarmToDbValues(a), id, now).Some?
    ensures DecodeRow(InsertRow(MapAlarmToDbValues(a), id, now).value).snoozeInterval == Some(5)
    ensures DecodeRow(InsertRow(MapAlarmToDbValues(a), id, now).value).snoozeInterval != a.snoozeInterval
  {
    CreateReadBack(a, id, now);
  }

  /** After `update`, the matching row reads back with every field the partial
      record defines (other than the protected ones) and keeps the others. */
  lemma UpdateReadBack(rows: seq<AlarmRow>, id: int, userId: int, a: Alarm, now: Time, i: int)
    requires 0 <= i < |rows| && Matches(rows[i], id, userId)
    ensures var b := DecodeRow(UpdateRows(rows, id, userId, a, now)[i]);
      var old_ := DecodeRow(rows[i]);
      && b.id == old_.id && b.userId == old_.userId && b.createdAt == old_.createdAt
      && b.title == (if a.title.Some? then a.title else old_.title)
      && b.time == (if a.time.Some? then a.time else old_.time)
      && b.days == (if a.days.Some? then a.days else old_.days)
      && b.sound == (if a.sound.Some? then a.sound else old_.sound)
      && b.isActive == (if a.isActive.Some? then a.isActive else old_.isActive)
      && b.noRepeat == (if a.noRepeat.Some? then a.noRepeat else old_.noRepeat)
      && b.deviceId == (if a.deviceId.Some? then a.deviceId else old_.deviceId)
      && b.syncStatus == (if a.syncStatus.Some? then a.syncStatus else old_.syncStatus)
      && b.vibration == (if a.vibration.Some? then a.vibration else old_.vibration)
      && b.snoozeInterval == (if a.snoozeInterval.Some? then a.snoozeInterval else old_.snoozeInterval)
      && b.snoozeCount == (if a.snoozeCount.Some? then a.snoozeCount else old_.snoozeCount)
  {
    var m := MapAlarmToDbValues(a);
    if Writable(m) == map[] {
      NothingWritable(a);
    } else {
      WrittenSkipsProtected(rows[i], m);
      WrittenTextReadBack(rows[i], a);
      WrittenFlagReadBack(rows[i], a);
      WrittenSnoozeReadBack(rows[i], a);
    }
  }

  /** A partial record with nothing writable defines none of the fields
      `update` could change. */
  lemma NothingWritable(a: Alarm)
    requires Writable(MapAlarmToDbValues(a)) == map[]
    ensures a.title.None? && a.time.None? && a.days.None? && a.sound.None?
    ensures a.isActive.None? && a.noRepeat.None? && a.deviceId.None? && a.syncStatus.None?
    ensures a.vibration.None? && a.snoozeInterval.None? && a.snoozeCount.None?
  {
    var m := MapAlarmToDbValues(a);
    TextColumnsOfRecord(a);
    IntColumnsOfRecord(a);
    forall c | !Protected(c)
      ensures TextAt(m, c).None? && IntAt(m, c).None?
    {
      WritableReads(m, c);
    }
  }

  /** Writing a record's dictionary into a row sets exactly the text fields the
      record defines. */
  lemma WrittenTextReadBack(row: AlarmRow, a: Alarm)
    ensures var b := DecodeRow(Written(row, MapAlarmToDbValues(a)));
      && b.title == (if a.title.Some? then a.title else Some(row.title))
      && b.time == (if a.time.Some? then a.time else Some(row.time))
      && b.days == (if a.days.Some? then a.days else Some(row.days))
      && b.sound == (if a.sound.Some? then a.sound else row.sound)
      && b.deviceId == (if a.deviceId.Some? then a.deviceId else row.deviceId)
      && b.syncStatus == (if a.syncStatus.Some? then a.syncStatus else Some(row.syncStatus))
  {
    TextColumnsOfRecord(a);
  }

  /** Writing a record's dictionary into a row sets exactly the vibration
      flag and snooze settings the record defines. */
  lemma WrittenSnoozeReadBack(row: AlarmRow, a: Alarm)
    ensures var b := DecodeRow(Written(row, MapAlarmToDbValues(a)));
      && b.vibration == (if a.vibration.Some? then a.vibration else Some(row.vibration == 1))
      && b.snoozeInterval == (if a.snoozeInterval.Some? then a.snoozeInterval else Some(row.snoozeInterval))
      && b.snoozeCount == (if a.snoozeCount.Some? then a.snoozeCount else Some(row.snoozeCount))
  {
    IntColumnRead(a, ColVibration);
    IntColumnRead(a, ColSnoozeInterval);
    IntColumnRead(a, ColSnoozeCount);
  }

  /** Writing a record's dictionary into a row sets exactly the active and
      no-repeat flags the record defines. */
  lemma WrittenFlagReadBack(row: AlarmRow, a: Alarm)
    ensures var b := DecodeRow(Written(row, MapAlarmToDbValues(a)));
      && b.isActive == (if a.isActive.Some? then a.isActive else Some(row.isActive == 1))
      && b.noRepeat == (if a.noRepeat.Some? then a.noRepeat else Some(row.noRepeat == 1))
  {
    IntColumnRead(a, ColIsActive);
    IntColumnRead(a, ColNoRepeat);
  }

  /** The `SET` clauses never name a protected column, so writing only the
      writable entries gives the row that writing the whole dictionary
      would. */
  lemma WrittenSkipsProtected(r: AlarmRow, m: DbValues)
    ensures Written(r, Writable(m)) == Written(r, m)
  {
    forall c | !Protected(c)
      ensures TextAt(Writable(m), c) == TextAt(m, c) && IntAt(Writable(m), c) == IntAt(m, c)
    {
      WritableReads(m, c);
    }
  }

  /** Nothing is changed since a time no row was written after. */
  lemma {:induction false} NothingChangedSince(rows: seq<AlarmRow>, userId: int, since: Time)
    requires forall x :: x in rows ==> x.updatedAt <= since
    ensures ChangedSince(rows, userId, since) == []
  {
    if rows != [] {
      assert rows[0] in rows;
      assert forall x :: x in rows[1..] ==> x in rows;
      NothingChangedSince(rows[1..], userId, since);
    }
  }

  /** A later watermark selects fewer rows: a row changed after `later` was
      changed after `earlier` as well. */
  lemma ChangedSinceAntitone(rows: seq<AlarmRow>, userId: int, earlier: Time, later: Time)
    requires earlier <= later
    ensures forall x :: x in ChangedSince(rows, userId, later) ==> x in ChangedSince(rows, userId, earlier)
  {
  }
}
