/** The devices table (src/models/Device.ts): one row per (user, device id)
    pair, with the device's display name, its sync watermark and its push
    token. */
module Devices {
  import opened Common

  /** The error an insert that reports no row id raises. */
  const NoRowIdError := "Database insert operation failed to return a valid row ID."

  datatype DeviceRow = DeviceRow(
    id: int,
    userId: int,
    deviceId: string,
    deviceName: string,
    lastSync: Option<Time>,
    fcmToken: Option<string>,
    createdAt: Time,
    updatedAt: Time)

  /** The `fcm_token` argument of the upsert: left out (`undefined`), or given
      as a token or as `null`. */
  datatype TokenArg = Omitted | Given(token: Option<string>)

  /** The table contents and the next AUTOINCREMENT id. */
  datatype Table = Table(rows: seq<DeviceRow>, nextId: int)

  predicate Keyed(r: DeviceRow, userId: int, deviceId: string)
  {
    r.userId == userId && r.deviceId == deviceId
  }

  /** The pair the UNIQUE (user_id, device_id) constraint is about. */
  function Key(r: DeviceRow): (int, string)
  {
    (r.userId, r.deviceId)
  }

  /** No two rows share an id or a (user, device id) pair. */
  ghost predicate Distinct(rows: seq<DeviceRow>)
  {
    forall i, j :: 0 <= i < j < |rows| ==> rows[i].id != rows[j].id && Key(rows[i]) != Key(rows[j])
  }

  /** Ids are positive and below the next id, and rows are distinct. */
  ghost predicate WellFormed(t: Table)
  {
    && 1 <= t.nextId
    && (forall r :: r in t.rows ==> 1 <= r.id < t.nextId)
    && Distinct(t.rows)
  }

  /** `SELECT * FROM devices WHERE user_id = ? AND device_id = ?`. */
  function Find(rows: seq<DeviceRow>, userId: int, deviceId: string): (r: Option<DeviceRow>)
    ensures r.Some? ==> r.value in rows && Keyed(r.value, userId, deviceId)
    ensures r.None? <==> forall i :: 0 <= i < |rows| ==> !Keyed(rows[i], userId, deviceId)
  {
    if rows == [] then None
    else if Keyed(rows[0], userId, deviceId) then Some(rows[0])
    else Find(rows[1..], userId, deviceId)
  }

  /** With distinct keys, the row found is the one at any matching index. */
  lemma FindUnique(rows: seq<DeviceRow>, userId: int, deviceId: string, i: int)
    requires Distinct(rows) && 0 <= i < |rows| && Keyed(rows[i], userId, deviceId)
    ensures Find(rows, userId, deviceId) == Some(rows[i])
  {
    var r := Find(rows, userId, deviceId);
    var j :| 0 <= j < |rows| && rows[j] == r.value;
    assert Key(rows[j]) == Key(rows[i]);
  }

  /** A row whose id and key no row has can be appended. */
  lemma DistinctAppend(rows: seq<DeviceRow>, x: DeviceRow)
    requires Distinct(rows)
    requires forall r :: r in rows ==> r.id != x.id && Key(r) != Key(x)
    ensures Distinct(rows + [x])
  {
    var rows' := rows + [x];
    forall i, j | 0 <= i < j < |rows'| ensures rows'[i].id != rows'[j].id && Key(rows'[i]) != Key(rows'[j]) {
      if j == |rows| {
        assert rows'[i] in rows;
      }
    }
  }

  /** The last row differs from all the others in id and key. */
  lemma DistinctLast(rows: seq<DeviceRow>)
    requires Distinct(rows) && rows != []
    ensures Distinct(rows[..|rows| - 1])
    ensures forall r :: r in rows[..|rows| - 1] ==> r.id != rows[|rows| - 1].id && Key(r) != Key(rows[|rows| - 1])
  {
    var init := rows[..|rows| - 1];
    forall r | r in init ensures r.id != rows[|rows| - 1].id && Key(r) != Key(rows[|rows| - 1]) {
      var k :| 0 <= k < |init| && init[k] == r;
      assert rows[k] == r;
    }
  }

  /** The rows satisfying `keep`, in table order. */
  function Filter(rows: seq<DeviceRow>, keep: DeviceRow -> bool): (r: seq<DeviceRow>)
    ensures forall x :: x in r <==> x in rows && keep(x)
    ensures |r| <= |rows|
  {
    if rows == [] then []
    else Filter(rows[..|rows| - 1], keep) + (if keep(rows[|rows| - 1]) then [rows[|rows| - 1]] else [])
  }

  /** Filtering a row list with one more row at its end. */
  lemma FilterSnoc(rows: seq<DeviceRow>, x: DeviceRow, keep: DeviceRow -> bool)
    ensures Filter(rows + [x], keep) == Filter(rows, keep) + (if keep(x) then [x] else [])
  {
    assert (rows + [x])[..|rows|] == rows;
  }

  /** Removing rows keeps the rows distinct. */
  lemma {:induction false} FilterDistinct(rows: seq<DeviceRow>, keep: DeviceRow -> bool)
    requires Distinct(rows)
    ensures Distinct(Filter(rows, keep))
    decreases |rows|
  {
    if rows != [] {
      var init := rows[..|rows| - 1];
      var last := rows[|rows| - 1];
      DistinctLast(rows);
      FilterDistinct(init, keep);
      if keep(last) {
        DistinctAppend(Filter(init, keep), last);
      } else {
        assert Filter(rows, keep) == Filter(init, keep);
      }
    }
  }

  lemma FilterWellFormed(t: Table, keep: DeviceRow -> bool)
    requires WellFormed(t)
    ensures WellFormed(Table(Filter(t.rows, keep), t.nextId))
  {
    FilterDistinct(t.rows, keep);
  }

  // ---------------------------------------------------------------------
  // The upsert

  /** The upsert changes the name of an existing row only when it differs. */
  predicate NameChanges(existing: DeviceRow, name: string)
  {
    name != existing.deviceName
  }

  /** ... and its token only when one is given (a token or `null`) and it
      differs from the stored one. */
  predicate TokenChanges(existing: DeviceRow, token: TokenArg)
  {
    token.Given? && token.token != existing.fcmToken
  }

  /** The existing row after the upsert's UPDATE, or the row itself when
      nothing differs. */
  function Merged(existing: DeviceRow, name: string, token: TokenArg, now: Time): (r: DeviceRow)
    ensures r.deviceName == name
    ensures token.Omitted? ==> r.fcmToken == existing.fcmToken
    ensures token.Given? ==> r.fcmToken == token.token
    ensures r.id == existing.id && r.userId == existing.userId && r.deviceId == existing.deviceId
    ensures r.lastSync == existing.lastSync && r.createdAt == existing.createdAt
    ensures !NameChanges(existing, name) && !TokenChanges(existing, token) ==> r == existing
    ensures NameChanges(existing, name) || TokenChanges(existing, token) ==> r.updatedAt == now
  {
    if !NameChanges(existing, name) && !TokenChanges(existing, token) then existing
    else existing.(deviceName := name,
                   fcmToken := if TokenChanges(existing, token) then token.token else existing.fcmToken,
                   updatedAt := now)
  }

  /** The row the upsert inserts: no watermark yet, and no token unless given. */
  function NewRow(id: int, userId: int, deviceId: string, name: string, token: TokenArg, now: Time): (r: DeviceRow)
    ensures r.lastSync.None? && r.id == id && Keyed(r, userId, deviceId) && r.deviceName == name
    ensures r.fcmToken == (if token.Given? then token.token else None)
  {
    DeviceRow(id, userId, deviceId, name, None, if token.Given? then token.token else None, now, now)
  }

  /** The rows with the row of that id replaced. */
  function Replace(rows: seq<DeviceRow>, id: int, r: DeviceRow): (rows': seq<DeviceRow>)
    ensures |rows'| == |rows|
    ensures forall i :: 0 <= i < |rows| ==> rows'[i] == (if rows[i].id == id then r else rows[i])
  {
    seq(|rows|, i requires 0 <= i < |rows| => if rows[i].id == id then r else rows[i])
  }

  /** `DeviceModel.create`: look the pair up; update the existing row where
      the name or the token differs, or return it untouched; otherwise insert
      a new row. `insertOk` is false when the insert reports no valid row id,
      which raises an error. */
  function Upsert(t: Table, userId: int, deviceId: string, name: string, token: TokenArg,
                  now: Time, insertOk: bool): (r: (Table, Result<DeviceRow>))
    ensures r.0.nextId >= t.nextId
    ensures Find(t.rows, userId, deviceId).Some? ==>
              var e := Find(t.rows, userId, deviceId).value;
              r.1 == Ok(Merged(e, name, token, now)) && r.0.nextId == t.nextId
              && (!NameChanges(e, name) && !TokenChanges(e, token) ==> r.0 == t)
    ensures Find(t.rows, userId, deviceId).None? && insertOk ==>
              var n := NewRow(t.nextId, userId, deviceId, name, token, now);
              r.1 == Ok(n) && r.0 == Table(t.rows + [n], t.nextId + 1)
    ensures Find(t.rows, userId, deviceId).None? && !insertOk ==> r.1.Err? && r.0 == t
  {
    match Find(t.rows, userId, deviceId)
    case Some(e) =>
      if !NameChanges(e, name) && !TokenChanges(e, token) then (t, Ok(e))
      else
        var m := Merged(e, name, token, now);
        (Table(Replace(t.rows, e.id, m), t.nextId), Ok(m))
    case None =>
      if !insertOk then (t, Err(NoRowIdError))
      else
        var n := NewRow(t.nextId, userId, deviceId, name, token, now);
        (Table(t.rows + [n], t.nextId + 1), Ok(n))
  }

  /** The upsert keeps at most one row per (user, device id) pair, and the row
      it returns is the one stored for the pair. */
  lemma UpsertWellFormed(t: Table, userId: int, deviceId: string, name: string, token: TokenArg,
                         now: Time, insertOk: bool)
    requires WellFormed(t)
    ensures var r := Upsert(t, userId, deviceId, name, token, now, insertOk);
      WellFormed(r.0) && (r.1.Ok? ==> Find(r.0.rows, userId, deviceId) == Some(r.1.value))
  {
    match Find(t.rows, userId, deviceId)
    case Some(e) =>
      var i :| 0 <= i < |t.rows| && t.rows[i] == e;
      if NameChanges(e, name) || TokenChanges(e, token) {
        ReplaceWellFormed(t, i, Merged(e, name, token, now));
      } else {
        FindUnique(t.rows, userId, deviceId, i);
      }
    case None =>
      if insertOk {
        AppendWellFormed(t, NewRow(t.nextId, userId, deviceId, name, token, now));
      }
  }

  /** The upsert of a pair found at index `i`. */
  lemma UpsertFound(t: Table, userId: int, deviceId: string, name: string, token: TokenArg,
                    now: Time, insertOk: bool, i: int)
    requires WellFormed(t) && 0 <= i < |t.rows| && Find(t.rows, userId, deviceId) == Some(t.rows[i])
    ensures var e := t.rows[i];
      Upsert(t, userId, deviceId, name, token, now, insertOk)
      == if NameChanges(e, name) || TokenChanges(e, token)
         then (Table(t.rows[i := Merged(e, name, token, now)], t.nextId), Ok(Merged(e, name, token, now)))
         else (t, Ok(e))
  {
    var e := t.rows[i];
    if NameChanges(e, name) || TokenChanges(e, token) {
      ReplaceWellFormed(t, i, Merged(e, name, token, now));
    }
  }

  /** The upsert of a pair with no row. */
  lemma UpsertMissing(t: Table, userId: int, deviceId: string, name: string, token: TokenArg,
                      now: Time, insertOk: bool)
    requires Find(t.rows, userId, deviceId).None?
    ensures Upsert(t, userId, deviceId, name, token, now, insertOk)
      == if !insertOk then (t, Err(NoRowIdError))
         else (Table(t.rows + [NewRow(t.nextId, userId, deviceId, name, token, now)], t.nextId + 1),
               Ok(NewRow(t.nextId, userId, deviceId, name, token, now)))
  {
  }

  /** Writing a row with the same id and key over row `i` keeps the table
      well formed, and the pair then finds the new row. */
  lemma ReplaceWellFormed(t: Table, i: int, m: DeviceRow)
    requires WellFormed(t) && 0 <= i < |t.rows| && m.id == t.rows[i].id && Key(m) == Key(t.rows[i])
    ensures t.rows[i := m] == Replace(t.rows, m.id, m)
    ensures WellFormed(Table(t.rows[i := m], t.nextId))
    ensures Find(t.rows[i := m], m.userId, m.deviceId) == Some(m)
  {
    var rows := t.rows[i := m];
    forall k | 0 <= k < |t.rows| && k != i ensures t.rows[k].id != m.id {
      if k < i {
        assert t.rows[k].id != t.rows[i].id;
      } else {
        assert t.rows[i].id != t.rows[k].id;
      }
    }
    SameKeysDistinct(t.rows, rows);
    forall x | x in rows ensures 1 <= x.id < t.nextId {
      var k :| 0 <= k < |rows| && rows[k] == x;
      assert t.rows[k] in t.rows;
    }
    FindUnique(rows, m.userId, m.deviceId, i);
  }

  /** Appending a row whose key is new and whose id is the next one keeps the
      table well formed, and the pair then finds the new row. */
  lemma AppendWellFormed(t: Table, n: DeviceRow)
    requires WellFormed(t) && n.id == t.nextId && Find(t.rows, n.userId, n.deviceId).None?
    ensures WellFormed(Table(t.rows + [n], t.nextId + 1))
    ensures Find(t.rows + [n], n.userId, n.deviceId) == Some(n)
  {
    forall x | x in t.rows ensures x.id != n.id && Key(x) != Key(n) {
      var k :| 0 <= k < |t.rows| && t.rows[k] == x;
      assert !Keyed(t.rows[k], n.userId, n.deviceId);
    }
    DistinctAppend(t.rows, n);
    assert (t.rows + [n])[|t.rows|] == n;
    FindUnique(t.rows + [n], n.userId, n.deviceId, |t.rows|);
  }

  /** Leaving the token out never clobbers a stored one. */
  lemma OmittedTokenKept(t: Table, userId: int, deviceId: string, name: string, now: Time, insertOk: bool)
    requires WellFormed(t) && Find(t.rows, userId, deviceId).Some?
    ensures var r := Upsert(t, userId, deviceId, name, Omitted, now, insertOk);
      r.1.Ok? && r.1.value.fcmToken == Find(t.rows, userId, deviceId).value.fcmToken
      && Find(r.0.rows, userId, deviceId).value.fcmToken == Find(t.rows, userId, deviceId).value.fcmToken
  {
    UpsertWellFormed(t, userId, deviceId, name, Omitted, now, insertOk);
  }

  // ---------------------------------------------------------------------
  // The other writes, as functions

  /** `DeviceModel.update`: sets the given name and/or watermark on the row of
      the pair and stamps it; with neither given nothing is written. */
  function UpdateRows(rows: seq<DeviceRow>, userId: int, deviceId: string, name: Option<string>,
                      lastSync: Option<Time>, now: Time): (r: seq<DeviceRow>)
    ensures |r| == |rows|
    ensures name.None? && lastSync.None? ==> r == rows
    ensures forall i :: 0 <= i < |rows| && !Keyed(rows[i], userId, deviceId) ==> r[i] == rows[i]
    ensures name.Some? || lastSync.Some? ==> forall i :: 0 <= i < |rows| && Keyed(rows[i], userId, deviceId) ==>
              r[i] == rows[i].(deviceName := if name.Some? then name.value else rows[i].deviceName,
                               lastSync := if lastSync.Some? then lastSync else rows[i].lastSync,
                               updatedAt := now)
  {
    if name.None? && lastSync.None? then rows
    else seq(|rows|, i requires 0 <= i < |rows| =>
               if Keyed(rows[i], userId, deviceId)
               then rows[i].(deviceName := if name.Some? then name.value else rows[i].deviceName,
                             lastSync := if lastSync.Some? then lastSync else rows[i].lastSync,
                             updatedAt := now)
               else rows[i])
  }

  /** The model-level `updateDeviceFcmToken`: sets the token of the pair's row
      unconditionally. */
  function SetTokenRows(rows: seq<DeviceRow>, userId: int, deviceId: string, token: string, now: Time): (r: seq<DeviceRow>)
    ensures |r| == |rows|
    ensures forall i :: 0 <= i < |rows| ==>
              r[i] == if Keyed(rows[i], userId, deviceId) then rows[i].(fcmToken := Some(token), updatedAt := now) else rows[i]
  {
    seq(|rows|, i requires 0 <= i < |rows| =>
          if Keyed(rows[i], userId, deviceId) then rows[i].(fcmToken := Some(token), updatedAt := now) else rows[i])
  }

  /** The rows of one user. */
  function OwnedBy(userId: int): DeviceRow -> bool
  {
    (r: DeviceRow) => r.userId == userId
  }

  /** Rows that do not hold the given token. */
  function NotHolding(token: string): DeviceRow -> bool
  {
    (r: DeviceRow) => r.fcmToken != Some(token)
  }

  function NotKeyed(userId: int, deviceId: string): DeviceRow -> bool
  {
    (r: DeviceRow) => !Keyed(r, userId, deviceId)
  }

  /** Rows with the same ids and keys, position by position, are as distinct. */
  lemma SameKeysDistinct(rows: seq<DeviceRow>, rows': seq<DeviceRow>)
    requires Distinct(rows) && |rows'| == |rows|
    requires forall i :: 0 <= i < |rows| ==> rows'[i].id == rows[i].id && Key(rows'[i]) == Key(rows[i])
    ensures Distinct(rows')
  {
  }

  lemma SameKeysWellFormed(t: Table, rows: seq<DeviceRow>)
    requires WellFormed(t) && |rows| == |t.rows|
    requires forall i :: 0 <= i < |rows| ==> rows[i].id == t.rows[i].id && Key(rows[i]) == Key(t.rows[i])
    ensures WellFormed(Table(rows, t.nextId))
  {
    SameKeysDistinct(t.rows, rows);
    forall x | x in rows ensures 1 <= x.id < t.nextId {
      var k :| 0 <= k < |rows| && rows[k] == x;
      assert t.rows[k] in t.rows;
    }
  }

  /** After `update` the pair's row is found again, carrying the written
      fields, and the table stays well formed. */
  lemma UpdateRowsFind(t: Table, userId: int, deviceId: string, name: Option<string>, lastSync: Option<Time>, now: Time)
    requires WellFormed(t) && Find(t.rows, userId, deviceId).Some?
    ensures var rows := UpdateRows(t.rows, userId, deviceId, name, lastSync, now);
      var e := Find(t.rows, userId, deviceId).value;
      && WellFormed(Table(rows, t.nextId))
      && Find(rows, userId, deviceId)
         == Some(if name.None? && lastSync.None? then e
                 else e.(deviceName := if name.Some? then name.value else e.deviceName,
                         lastSync := if lastSync.Some? then lastSync else e.lastSync,
                         updatedAt := now))
  {
    var rows := UpdateRows(t.rows, userId, deviceId, name, lastSync, now);
    var e := Find(t.rows, userId, deviceId).value;
    var i :| 0 <= i < |t.rows| && t.rows[i] == e;
    SameKeysWellFormed(t, rows);
    FindUnique(rows, userId, deviceId, i);
  }

  // ---------------------------------------------------------------------
  // The table

  class DeviceTable {
    var rows: seq<DeviceRow>
    var nextId: int

    ghost predicate Valid()
      reads this
    {
      WellFormed(Snap())
    }

    function Snap(): Table
      reads this
    {
      Table(rows, nextId)
    }

    constructor ()
      ensures Valid() && rows == []
    {
      rows := [];
      nextId := 1;
    }

    /** `findByDeviceId` (and `findDeviceByUserIdAndDeviceId`). */
    method FindByDeviceId(userId: int, deviceId: string) returns (d: Option<DeviceRow>)
      requires Valid()
      ensures d.Some? <==> exists i :: 0 <= i < |rows| && Keyed(rows[i], userId, deviceId)
      ensures d.Some? ==> d.value in rows && Keyed(d.value, userId, deviceId)
      ensures d == Find(rows, userId, deviceId)
    {
      d := Find(rows, userId, deviceId);
    }

    /** `exists`. */
    method Exists(userId: int, deviceId: string) returns (b: bool)
      requires Valid()
      ensures b <==> exists i :: 0 <= i < |rows| && Keyed(rows[i], userId, deviceId)
    {
      var d := FindByDeviceId(userId, deviceId);
      b := d.Some?;
    }

    /** `findAllByUserId`. */
    method FindAllByUserId(userId: int) returns (ds: seq<DeviceRow>)
      requires Valid()
      ensures ds == Filter(rows, OwnedBy(userId))
      ensures forall d :: d in ds <==> d in rows && d.userId == userId
    {
      ds := Filter(rows, OwnedBy(userId));
    }

    /** The scan for the pair's row: its index, or `|rows|` when there is
        none. */
    method Locate(userId: int, deviceId: string) returns (i: nat)
      requires Valid()
      ensures i <= |rows|
      ensures i < |rows| ==> Keyed(rows[i], userId, deviceId) && Find(rows, userId, deviceId) == Some(rows[i])
      ensures i == |rows| ==> Find(rows, userId, deviceId).None?
    {
      i := 0;
      while i < |rows| && !Keyed(rows[i], userId, deviceId)
        invariant 0 <= i <= |rows|
        invariant forall k :: 0 <= k < i ==> !Keyed(rows[k], userId, deviceId)
      {
        i := i + 1;
      }
      if i < |rows| {
        FindUnique(rows, userId, deviceId, i);
      }
    }

    /** Overwrites row `i` with a row of the same id and key. */
    method Overwrite(i: nat, m: DeviceRow)
      requires Valid() && i < |rows| && m.id == rows[i].id && Key(m) == Key(rows[i])
      modifies this
      ensures Valid()
      ensures rows == old(rows)[i := m] && nextId == old(nextId)
    {
      ReplaceWellFormed(Snap(), i, m);
      rows := rows[i := m];
    }

    /** Appends a row under the next id for a pair that has none. */
    method Append(n: DeviceRow)
      requires Valid() && n.id == nextId && Find(rows, n.userId, n.deviceId).None?
      modifies this
      ensures Valid()
      ensures rows == old(rows) + [n] && nextId == old(nextId) + 1
    {
      AppendWellFormed(Snap(), n);
      rows, nextId := rows + [n], nextId + 1;
    }

    /** `create`, the upsert. The pair is looked up by a scan; a differing
        name or token is written to the existing row, otherwise a row is
        inserted. */
    method Create(userId: int, deviceId: string, name: string, token: TokenArg, now: Time, insertOk: bool)
      returns (r: Result<DeviceRow>)
      requires Valid()
      modifies this
      ensures Valid()
      ensures (Snap(), r) == Upsert(old(Snap()), userId, deviceId, name, token, now, insertOk)
    {
      ghost var t := Snap();
      var i := Locate(userId, deviceId);
      if i < |rows| {
        UpsertFound(t, userId, deviceId, name, token, now, insertOk, i);
        var existing := rows[i];
        if NameChanges(existing, name) || TokenChanges(existing, token) {
          var m := Merged(existing, name, token, now);
          Overwrite(i, m);
          r := Ok(m);
        } else {
          r := Ok(existing);
        }
      } else {
        UpsertMissing(t, userId, deviceId, name, token, now, insertOk);
        if !insertOk {
          r := Err(NoRowIdError);
        } else {
          var n := NewRow(nextId, userId, deviceId, name, token, now);
          Append(n);
          r := Ok(n);
        }
      }
    }

    /** `update`: name and/or watermark of the pair's row. */
    method Update(userId: int, deviceId: string, name: Option<string>, lastSync: Option<Time>, now: Time)
      requires Valid()
      modifies this
      ensures Valid()
      ensures rows == UpdateRows(old(rows), userId, deviceId, name, lastSync, now) && nextId == old(nextId)
    {
      if name.None? && lastSync.None? {
        return;
      }
      SameKeysWellFormed(Snap(), UpdateRows(rows, userId, deviceId, name, lastSync, now));
      rows := UpdateRows(rows, userId, deviceId, name, lastSync, now);
    }

    /** `delete`. */
    method Delete(userId: int, deviceId: string)
      requires Valid()
      modifies this
      ensures Valid()
      ensures rows == Filter(old(rows), NotKeyed(userId, deviceId)) && nextId == old(nextId)
      ensures forall d :: d in rows <==> d in old(rows) && !Keyed(d, userId, deviceId)
    {
      FilterWellFormed(Snap(), NotKeyed(userId, deviceId));
      rows := Filter(rows, NotKeyed(userId, deviceId));
    }

    /** `removeDeviceByFcmToken`: deletes every row holding the token. The
        surviving rows are collected in one pass. */
    method RemoveByFcmToken(token: string)
      requires Valid()
      modifies this
      ensures Valid()
      ensures rows == Filter(old(rows), NotHolding(token)) && nextId == old(nextId)
      ensures forall d :: d in rows <==> d in old(rows) && d.fcmToken != Some(token)
    {
      FilterWellFormed(Snap(), NotHolding(token));
      var kept: seq<DeviceRow> := [];
      var i := 0;
      while i < |rows|
        invariant 0 <= i <= |rows|
        invariant kept == Filter(rows[..i], NotHolding(token))
      {
        assert rows[..i + 1][..i] == rows[..i];
        if rows[i].fcmToken != Some(token) {
          kept := kept + [rows[i]];
        }
        i := i + 1;
      }
      assert rows[..i] == rows;
      rows := kept;
    }

    /** `updateDeviceFcmToken`: sets the token and reads the row back. */
    method UpdateFcmToken(userId: int, deviceId: string, token: string, now: Time) returns (d: Option<DeviceRow>)
      requires Valid()
      modifies this
      ensures Valid()
      ensures rows == SetTokenRows(old(rows), userId, deviceId, token, now) && nextId == old(nextId)
      ensures d == Find(rows, userId, deviceId)
      ensures d.Some? ==> d.value.fcmToken == Some(token)
    {
      SameKeysWellFormed(Snap(), SetTokenRows(rows, userId, deviceId, token, now));
      rows := SetTokenRows(rows, userId, deviceId, token, now);
      d := Find(rows, userId, deviceId);
    }
  }
}
