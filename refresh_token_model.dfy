/** The refresh-token store (src/models/RefreshToken.ts): one row per issued
    refresh token, found by its public selector, holding the hash of its
    secret verifier, and revoked by stamping `revoked_at`. Selectors are
    unique (the UNIQUE constraint of the table). */
module RefreshTokens {
  import opened Common

  /** The errors an insert reports. */
  const SelectorTakenError := "UNIQUE constraint failed: refresh_tokens.selector"
  const NoLastIdError := "Failed to create refresh token, lastID is undefined"

  datatype TokenRow = TokenRow(
    id: int,
    userId: int,
    selector: string,
    hashedVerifier: string,
    deviceId: Option<string>,
    expiresAt: Time,
    createdAt: Time,
    revokedAt: Option<Time>)

  /** The table contents and the next AUTOINCREMENT id. */
  datatype Store = Store(rows: seq<TokenRow>, nextId: int)

  /** One day in milliseconds. */
  const DayMs := 24 * 60 * 60 * 1000

  /** No two rows share an id or a selector. */
  ghost predicate Distinct(rows: seq<TokenRow>)
  {
    forall i, j :: 0 <= i < j < |rows| ==> rows[i].id != rows[j].id && rows[i].selector != rows[j].selector
  }

  ghost predicate WellFormed(s: Store)
  {
    && 1 <= s.nextId
    && (forall r :: r in s.rows ==> 1 <= r.id < s.nextId)
    && Distinct(s.rows)
  }

  /** `SELECT * FROM refresh_tokens WHERE selector = ?`. */
  function BySelector(rows: seq<TokenRow>, selector: string): (r: Option<TokenRow>)
    ensures r.Some? ==> r.value in rows && r.value.selector == selector
    ensures r.None? <==> forall i :: 0 <= i < |rows| ==> rows[i].selector != selector
  {
    if rows == [] then None
    else if rows[0].selector == selector then Some(rows[0])
    else BySelector(rows[1..], selector)
  }

  /** With distinct selectors, the row found is the one at any index that
      carries the selector. */
  lemma BySelectorUnique(rows: seq<TokenRow>, selector: string, i: int)
    requires Distinct(rows) && 0 <= i < |rows| && rows[i].selector == selector
    ensures BySelector(rows, selector) == Some(rows[i])
  {
    var r := BySelector(rows, selector);
    var j :| 0 <= j < |rows| && rows[j] == r.value;
    assert rows[j].selector == rows[i].selector;
  }

  // ---------------------------------------------------------------------
  // The writes, as functions

  /** `create`: a new row, unrevoked and created now. A selector already in
      the table violates its UNIQUE constraint, and an insert that reports no
      row id (`insertOk` false) raises an error; either way nothing is
      stored. */
  function Insert(s: Store, userId: int, selector: string, hashedVerifier: string, deviceId: Option<string>,
                  expiresAt: Time, now: Time, insertOk: bool): (r: (Store, Result<int>))
    ensures BySelector(s.rows, selector).Some? || !insertOk ==> r.1.Err? && r.0 == s
    ensures r.1.Ok? <==> BySelector(s.rows, selector).None? && insertOk
    ensures r.1.Ok? ==>
              && r.1.value == s.nextId && r.0.nextId == s.nextId + 1
              && |r.0.rows| == |s.rows| + 1 && r.0.rows[..|s.rows|] == s.rows
              && var n := r.0.rows[|s.rows|];
                 && n.id == s.nextId && n.userId == userId && n.selector == selector
                 && n.hashedVerifier == hashedVerifier && n.deviceId == deviceId
                 && n.expiresAt == expiresAt && n.createdAt == now && n.revokedAt.None?
  {
    if BySelector(s.rows, selector).Some? then (s, Err(SelectorTakenError))
    else if !insertOk then (s, Err(NoLastIdError))
    else
      var n := TokenRow(s.nextId, userId, selector, hashedVerifier, deviceId, expiresAt, now, None);
      assert (s.rows + [n])[..|s.rows|] == s.rows;
      (Store(s.rows + [n], s.nextId + 1), Ok(s.nextId))
  }

  /** `revoke`: stamps the row with that id, even one already revoked. */
  function RevokeRows(rows: seq<TokenRow>, id: int, now: Time): (r: seq<TokenRow>)
    ensures |r| == |rows|
    ensures forall i :: 0 <= i < |rows| && rows[i].id != id ==> r[i] == rows[i]
    ensures forall i :: 0 <= i < |rows| && rows[i].id == id ==> r[i] == rows[i].(revokedAt := Some(now))
  {
    seq(|rows|, i requires 0 <= i < |rows| => if rows[i].id == id then rows[i].(revokedAt := Some(now)) else rows[i])
  }

  /** The rows the revoke-all statements touch: the user's (and, when a
      device is given, that device's) tokens that are not revoked yet, other
      than the excepted selector when one is given (truthy). */
  predicate RevokeAllHits(r: TokenRow, userId: int, deviceId: Option<string>, except: Option<string>)
  {
    && r.userId == userId
    && (deviceId.Some? ==> r.deviceId == deviceId)
    && r.revokedAt.None?
    && !(Truthy(except) && r.selector == except.value)
  }

  /** `revokeAllByUserId` (`deviceId` None) and
      `revokeAllByUserIdAndDeviceId`. */
  function RevokeAllRows(rows: seq<TokenRow>, userId: int, deviceId: Option<string>, except: Option<string>,
                         now: Time): (r: seq<TokenRow>)
    ensures |r| == |rows|
    ensures forall i :: 0 <= i < |rows| && !RevokeAllHits(rows[i], userId, deviceId, except) ==> r[i] == rows[i]
    ensures forall i :: 0 <= i < |rows| && RevokeAllHits(rows[i], userId, deviceId, except) ==>
              r[i] == rows[i].(revokedAt := Some(now))
  {
    seq(|rows|, i requires 0 <= i < |rows| =>
          if RevokeAllHits(rows[i], userId, deviceId, except) then rows[i].(revokedAt := Some(now)) else rows[i])
  }

  /** `date(now, '-30 days')`: the start of the day thirty days back. The
      stored `revoked_at` text is compared with that date text, so a token
      revoked on that day itself is kept. */
  function PurgeCutoff(now: Time): (c: int)
    ensures c <= now - 30 * DayMs < c + DayMs
    ensures c % DayMs == 0
  {
    ((now - 30 * DayMs) / DayMs) * DayMs
  }

  /** The rows `deleteExpiredTokens` deletes: expired before now, or revoked
      before the cutoff. */
  predicate Purgeable(r: TokenRow, now: Time)
  {
    r.expiresAt < now || (r.revokedAt.Some? && r.revokedAt.value < PurgeCutoff(now))
  }

  /** `deleteExpiredTokens`: the rows that are not purgeable, in order. */
  function PurgeRows(rows: seq<TokenRow>, now: Time): (r: seq<TokenRow>)
    ensures forall x :: x in r <==> x in rows && !Purgeable(x, now)
    ensures |r| <= |rows|
  {
    if rows == [] then []
    else PurgeRows(rows[..|rows| - 1], now) + (if Purgeable(rows[|rows| - 1], now) then [] else [rows[|rows| - 1]])
  }

  // ---------------------------------------------------------------------
  // Properties

  /** Rows with the same ids and selectors, position by position, are as
      distinct. */
  lemma SameKeysWellFormed(s: Store, rows: seq<TokenRow>)
    requires WellFormed(s) && |rows| == |s.rows|
    requires forall i :: 0 <= i < |rows| ==> rows[i].id == s.rows[i].id && rows[i].selector == s.rows[i].selector
    ensures WellFormed(Store(rows, s.nextId))
  {
    forall i, j | 0 <= i < j < |rows| ensures rows[i].id != rows[j].id && rows[i].selector != rows[j].selector {
      assert s.rows[i].id != s.rows[j].id && s.rows[i].selector != s.rows[j].selector;
    }
    forall x | x in rows ensures 1 <= x.id < s.nextId {
      var k :| 0 <= k < |rows| && rows[k] == x;
      assert s.rows[k] in s.rows;
    }
    assert Distinct(rows);
  }

  /** A new token is found by its selector, and the store stays well
      formed. */
  lemma InsertWellFormed(s: Store, userId: int, selector: string, hashedVerifier: string, deviceId: Option<string>,
                         expiresAt: Time, now: Time, insertOk: bool)
    requires WellFormed(s)
    ensures var r := Insert(s, userId, selector, hashedVerifier, deviceId, expiresAt, now, insertOk);
      WellFormed(r.0)
      && (r.1.Ok? ==> BySelector(r.0.rows, selector) == Some(r.0.rows[|s.rows|])
                      && BySelector(r.0.rows, selector).value.revokedAt.None?)
  {
    if BySelector(s.rows, selector).None? && insertOk {
      var n := TokenRow(s.nextId, userId, selector, hashedVerifier, deviceId, expiresAt, now, None);
      var r := Insert(s, userId, selector, hashedVerifier, deviceId, expiresAt, now, insertOk);
      assert r.0 == Store(s.rows + [n], s.nextId + 1);
      AppendWellFormed(s, n);
      BySelectorUnique(r.0.rows, selector, |s.rows|);
    }
  }

  /** A row with the next id and an unused selector keeps the store well
      formed. */
  lemma AppendWellFormed(s: Store, n: TokenRow)
    requires WellFormed(s) && n.id == s.nextId && BySelector(s.rows, n.selector).None?
    ensures WellFormed(Store(s.rows + [n], s.nextId + 1))
  {
    var rows := s.rows + [n];
    forall i, j | 0 <= i < j < |rows| ensures rows[i].id != rows[j].id && rows[i].selector != rows[j].selector {
      assert rows[i] == s.rows[i] && s.rows[i] in s.rows;
      if j < |s.rows| {
        assert rows[j] == s.rows[j];
      }
    }
    forall x | x in rows ensures 1 <= x.id < s.nextId + 1 {
      if x != n {
        assert x in s.rows;
      }
    }
  }

  /** After `revoke` the token of that id is revoked as of now, and nothing
      else changed. */
  lemma RevokeRowsRevokes(s: Store, id: int, now: Time, i: int)
    requires WellFormed(s) && 0 <= i < |s.rows| && s.rows[i].id == id
    ensures var rows := RevokeRows(s.rows, id, now);
      WellFormed(Store(rows, s.nextId))
      && BySelector(rows, s.rows[i].selector) == Some(s.rows[i].(revokedAt := Some(now)))
      && forall j :: 0 <= j < |s.rows| && j != i ==> rows[j] == s.rows[j]
  {
    var rows := RevokeRows(s.rows, id, now);
    SameKeysWellFormed(s, rows);
    BySelectorUnique(rows, s.rows[i].selector, i);
    forall j | 0 <= j < |s.rows| && j != i ensures rows[j] == s.rows[j] {
      if j < i {
        assert s.rows[j].id != s.rows[i].id;
      } else {
        assert s.rows[i].id != s.rows[j].id;
      }
    }
  }

  /** Revoke-all keeps the store well formed and keeps a revocation time
      once set: tokens revoked earlier keep their original time. */
  lemma RevokeAllKeepsEarlierRevocations(s: Store, userId: int, deviceId: Option<string>, except: Option<string>,
                                         now: Time)
    requires WellFormed(s)
    ensures var rows := RevokeAllRows(s.rows, userId, deviceId, except, now);
      WellFormed(Store(rows, s.nextId))
      && forall i :: 0 <= i < |s.rows| && s.rows[i].revokedAt.Some? ==> rows[i] == s.rows[i]
  {
    SameKeysWellFormed(s, RevokeAllRows(s.rows, userId, deviceId, except, now));
  }

  /** After revoking all of a user's tokens with no exception, every token
      of that user is revoked. */
  lemma RevokeAllLeavesNoLiveToken(rows: seq<TokenRow>, userId: int, now: Time)
    ensures var r := RevokeAllRows(rows, userId, None, None, now);
      forall i :: 0 <= i < |r| && r[i].userId == userId ==> r[i].revokedAt.Some?
  {
    var r := RevokeAllRows(rows, userId, None, None, now);
    forall i | 0 <= i < |r| && r[i].userId == userId ensures r[i].revokedAt.Some? {
      if rows[i].revokedAt.None? {
        assert RevokeAllHits(rows[i], userId, None, None);
      }
    }
  }

  /** A token revoked less than thirty days ago and not expired survives the
      purge. */
  lemma RecentRevocationSurvives(r: TokenRow, now: Time)
    requires r.revokedAt.Some? && now <= r.revokedAt.value + 30 * DayMs && now <= r.expiresAt
    ensures !Purgeable(r, now)
  {
  }

  /** The purge keeps rows in order and keeps the store well formed. */
  lemma {:induction false} PurgeRowsSubsequence(rows: seq<TokenRow>, now: Time)
    requires Distinct(rows)
    ensures Distinct(PurgeRows(rows, now))
    decreases |rows|
  {
    if rows != [] {
      var init := rows[..|rows| - 1];
      var last := rows[|rows| - 1];
      assert Distinct(init);
      PurgeRowsSubsequence(init, now);
      var p := PurgeRows(init, now);
      if !Purgeable(last, now) {
        var q := p + [last];
        forall i, j | 0 <= i < j < |q| ensures q[i].id != q[j].id && q[i].selector != q[j].selector {
          if j == |p| {
            assert q[i] in init;
            var k :| 0 <= k < |init| && init[k] == q[i];
            assert rows[k] == q[i];
          }
        }
      }
    }
  }

  lemma PurgeRowsWellFormed(s: Store, now: Time)
    requires WellFormed(s)
    ensures WellFormed(Store(PurgeRows(s.rows, now), s.nextId))
  {
    PurgeRowsSubsequence(s.rows, now);
  }

  /** A token that can still be used on a device: the user's and device's,
      and not revoked. */
  predicate Live(r: TokenRow, userId: int, deviceId: string)
  {
    r.userId == userId && r.deviceId == Some(deviceId) && r.revokedAt.None?
  }

  // ---------------------------------------------------------------------
  // The table

  class RefreshTokenStore {
    var rows: seq<TokenRow>
    var nextId: int

    ghost predicate Valid()
      reads this
    {
      WellFormed(Snap())
    }

    function Snap(): Store
      reads this
    {
      Store(rows, nextId)
    }

    constructor ()
      ensures Valid() && rows == []
    {
      rows := [];
      nextId := 1;
    }

    /** `create`. */
    method Create(userId: int, selector: string, hashedVerifier: string, deviceId: Option<string>,
                  expiresAt: Time, now: Time, insertOk: bool) returns (r: Result<int>)
      requires Valid()
      modifies this
      ensures Valid()
      ensures (Snap(), r) == Insert(old(Snap()), userId, selector, hashedVerifier, deviceId, expiresAt, now, insertOk)
    {
      var existing := FindBySelector(selector);
      if existing.Some? {
        return Err(SelectorTakenError);
      }
      if !insertOk {
        return Err(NoLastIdError);
      }
      r := Ok(nextId);
      Append(TokenRow(nextId, userId, selector, hashedVerifier, deviceId, expiresAt, now, None));
    }

    /** The `INSERT` itself: the row goes at the end under the next id. */
    method Append(n: TokenRow)
      requires Valid() && n.id == nextId && BySelector(rows, n.selector).None?
      modifies this
      ensures Valid()
      ensures rows == old(rows) + [n] && nextId == old(nextId) + 1
    {
      AppendWellFormed(Snap(), n);
      rows, nextId := rows + [n], nextId + 1;
    }

    /** `findBySelector`. */
    method FindBySelector(selector: string) returns (t: Option<TokenRow>)
      requires Valid()
      ensures t.Some? ==> t.value in rows && t.value.selector == selector
      ensures t.None? <==> forall i :: 0 <= i < |rows| ==> rows[i].selector != selector
      ensures t == BySelector(rows, selector)
    {
      t := BySelector(rows, selector);
    }

    /** `findByUserIdAndDeviceId`: the most recently created live token of
        the pair (the first of them in table order when several were created
        at the same time), or none. */
    method FindByUserIdAndDeviceId(userId: int, deviceId: string) returns (t: Option<TokenRow>)
      requires Valid()
      ensures t.None? <==> forall i :: 0 <= i < |rows| ==> !Live(rows[i], userId, deviceId)
      ensures t.Some? ==>
                && t.value in rows && Live(t.value, userId, deviceId)
                && forall i :: 0 <= i < |rows| && Live(rows[i], userId, deviceId) ==> rows[i].createdAt <= t.value.createdAt
    {
      t := None;
      var i := 0;
      while i < |rows|
        invariant 0 <= i <= |rows|
        invariant t.None? <==> forall k :: 0 <= k < i ==> !Live(rows[k], userId, deviceId)
        invariant t.Some? ==>
                    && t.value in rows[..i] && Live(t.value, userId, deviceId)
                    && forall k :: 0 <= k < i && Live(rows[k], userId, deviceId) ==> rows[k].createdAt <= t.value.createdAt
      {
        if Live(rows[i], userId, deviceId) && (t.None? || rows[i].createdAt > t.value.createdAt) {
          t := Some(rows[i]);
        }
        i := i + 1;
      }
    }

    /** `revoke`. */
    method Revoke(id: int, now: Time)
      requires Valid()
      modifies this
      ensures Valid()
      ensures rows == RevokeRows(old(rows), id, now) && nextId == old(nextId)
    {
      SameKeysWellFormed(Snap(), RevokeRows(rows, id, now));
      rows := RevokeRows(rows, id, now);
    }

    /** `revokeAllByUserId`. */
    method RevokeAllByUserId(userId: int, except: Option<string>, now: Time)
      requires Valid()
      modifies this
      ensures Valid()
      ensures rows == RevokeAllRows(old(rows), userId, None, except, now) && nextId == old(nextId)
    {
      RevokeAllKeepsEarlierRevocations(Snap(), userId, None, except, now);
      rows := RevokeAllRows(rows, userId, None, except, now);
    }

    /** `revokeAllByUserIdAndDeviceId`. */
    method RevokeAllByUserIdAndDeviceId(userId: int, deviceId: string, except: Option<string>, now: Time)
      requires Valid()
      modifies this
      ensures Valid()
      ensures rows == RevokeAllRows(old(rows), userId, Some(deviceId), except, now) && nextId == old(nextId)
    {
      RevokeAllKeepsEarlierRevocations(Snap(), userId, Some(deviceId), except, now);
      rows := RevokeAllRows(rows, userId, Some(deviceId), except, now);
    }

    /** `deleteExpiredTokens`. */
    method DeleteExpiredTokens(now: Time)
      requires Valid()
      modifies this
      ensures Valid()
      ensures rows == PurgeRows(old(rows), now) && nextId == old(nextId)
      ensures forall x :: x in rows <==> x in old(rows) && !Purgeable(x, now)
    {
      PurgeRowsWellFormed(Snap(), now);
      rows := PurgeRows(rows, now);
    }
  }
}
