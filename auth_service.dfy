/** The authentication service (src/services/authService.ts) as far as it
    concerns refresh tokens: a refresh token is `selector:verifier`; the
    selector finds the stored row, the verifier is checked against the
    stored hash, and every successful use rotates the token. Hashing,
    password checks, signing and the user table are outside this model and
    enter as functions; the random selector and verifier of a new token are
    arguments. */
module Auth {
  import opened Common
  import opened RefreshTokens

  /** The messages the service answers with. */
  const RefreshedMessage := "Access token refreshed successfully"
  const RefreshedNotRotatedMessage := "Access token refreshed, but failed to rotate refresh token"
  const EmailTakenMessage := "Email already registered"
  const BadPasswordMessage := "Invalid password"
  const BadFormatMessage := "Invalid refresh token format"
  const BadVerifierMessage := "Invalid refresh token"
  const LoggedInMessage := "Login successful"
  const LoggedInNoRefreshMessage := "Login successful, but failed to generate refresh token"
  const ExpiredMessage := "Refresh token expired"
  const TokenNotFoundMessage := "Refresh token not found"
  const RevokedMessage := "Refresh token revoked successfully"
  const ReusedMessage := "Refresh token revoked"
  const TokenUserNotFoundMessage := "User not found for refresh token"
  const UserNotFoundMessage := "User not found"
  const RegisteredMessage := "User registered successfully"
  const UsernameTakenMessage := "Username already taken"

  // ---------------------------------------------------------------------
  // `selector:verifier`

  /** `s.split(':')`. */
  function Split(s: string): (r: seq<string>)
    ensures |r| >= 1
  {
    if s == [] then [""]
    else
      var rest := Split(s[1..]);
      if s[0] == ':' then [""] + rest else [[s[0]] + rest[0]] + rest[1..]
  }

  /** The number of `:` in a text. */
  function Colons(s: string): nat
  {
    if s == [] then 0 else (if s[0] == ':' then 1 else 0) + Colons(s[1..])
  }

  /** The pieces joined back with `:`. */
  function Join(ps: seq<string>): string
    requires |ps| >= 1
  {
    if |ps| == 1 then ps[0] else ps[0] + ":" + Join(ps[1..])
  }

  /** There is one piece more than there are colons, so a token splits into
      exactly two parts when it holds exactly one colon. */
  lemma {:induction false} SplitCount(s: string)
    ensures |Split(s)| == Colons(s) + 1
  {
    if s != [] {
      SplitCount(s[1..]);
    }
  }

  /** Joining the pieces gives the text back, and no piece holds a colon. */
  lemma {:induction false} SplitJoin(s: string)
    ensures Join(Split(s)) == s
    ensures forall i :: 0 <= i < |Split(s)| ==> ':' !in Split(s)[i]
  {
    if s != [] {
      var rest := Split(s[1..]);
      SplitJoin(s[1..]);
      if s[0] == ':' {
        assert Split(s) == [""] + rest;
        assert (([""] + rest)[1..]) == rest;
      } else {
        var first := [s[0]] + rest[0];
        assert Split(s) == [first] + rest[1..];
        if |rest| == 1 {
          assert Join(Split(s)) == first;
        } else {
          assert ([first] + rest[1..])[1..] == rest[1..];
          assert Join(rest) == rest[0] + ":" + Join(rest[1..]);
        }
        assert first[0] == s[0] && first[1..] == rest[0];
      }
    }
  }

  lemma {:induction false} SplitNoColon(s: string)
    requires ':' !in s
    ensures Split(s) == [s]
  {
    if s != [] {
      assert s[0] != ':' && ':' !in s[1..];
      SplitNoColon(s[1..]);
      assert [s[0]] + s[1..] == s;
    }
  }

  /** A token built from a selector and a verifier without colons splits
      back into them. */
  lemma {:induction false} SplitOfToken(a: string, b: string)
    requires ':' !in a && ':' !in b
    ensures Split(a + ":" + b) == [a, b]
  {
    var s := a + ":" + b;
    if a == [] {
      assert s[0] == ':' && s[1..] == b;
      SplitNoColon(b);
    } else {
      assert s[0] == a[0] && s[1..] == a[1..] + ":" + b;
      assert ':' !in a[1..];
      SplitOfToken(a[1..], b);
      assert [a[0]] + a[1..] == a;
    }
  }

  // ---------------------------------------------------------------------
  // The outside world

  /** A row of the users table, as far as the service reads it. */
  datatype UserRecord = UserRecord(id: int, username: string)

  /** The access-token payload; the device is included only when truthy. */
  datatype Claims = Claims(userId: int, username: string, deviceId: Option<string>)

  /** bcrypt hashing and comparison, JWT signing, and the user lookups. */
  datatype Foreign = Foreign(
    hash: string -> string,
    verifies: (string, string) -> bool,
    passwordOk: (UserRecord, string) -> bool,
    sign: Claims -> string,
    findUserById: int -> Option<UserRecord>,
    findByUsername: string -> Option<UserRecord>,
    findByEmail: string -> Option<UserRecord>)

  /** `JWT_REFRESH_EXPIRATION`, seven days, in milliseconds. */
  const RefreshLifetimeMs := 604800 * 1000

  function ClaimsFor(user: UserRecord, deviceId: Option<string>): (c: Claims)
    ensures c.userId == user.id && c.username == user.username
    ensures c.deviceId == (if Truthy(deviceId) then deviceId else None)
  {
    Claims(user.id, user.username, if Truthy(deviceId) then deviceId else None)
  }

  // ---------------------------------------------------------------------
  // Issuing a token

  /** `generateAndStoreRefreshToken`: with a truthy device, first revoke the
      user's live tokens for that device; then store the new token, which
      expires seven days from now. A refused insert yields `None`, but the
      revocations stay. */
  function Issue(ext: Foreign, s: Store, userId: int, deviceId: Option<string>, selector: string, verifier: string,
                 now: Time, insertOk: bool): (r: (Store, Option<string>))
  {
    var s1 := if Truthy(deviceId) then Store(RevokeAllRows(s.rows, userId, deviceId, None, now), s.nextId) else s;
    var created := Insert(s1, userId, selector, ext.hash(verifier), deviceId, now + RefreshLifetimeMs, now, insertOk);
    (created.0, if created.1.Ok? then Some(selector + ":" + verifier) else None)
  }

  /** A token that is issued is `selector:verifier`, splits back into those
      two, and its selector finds a live row for the user and the device,
      holding the verifier's hash and expiring seven days from now. With a
      truthy device, no other token of the user for that device is left
      live. Without one, no existing token changes. */
  lemma IssueStoresToken(ext: Foreign, s: Store, userId: int, deviceId: Option<string>, selector: string,
                         verifier: string, now: Time, insertOk: bool)
    requires WellFormed(s) && ':' !in selector && ':' !in verifier
    ensures var r := Issue(ext, s, userId, deviceId, selector, verifier, now, insertOk);
      && WellFormed(r.0)
      && (r.1.Some? <==> insertOk && BySelector(s.rows, selector).None?)
      && (r.1.Some? ==>
            && r.1.value == selector + ":" + verifier && Split(r.1.value) == [selector, verifier]
            && BySelector(r.0.rows, selector).Some?
            && var n := BySelector(r.0.rows, selector).value;
               && n.userId == userId && n.deviceId == deviceId && n.revokedAt.None?
               && n.hashedVerifier == ext.hash(verifier) && n.expiresAt == now + RefreshLifetimeMs
               && n.createdAt == now)
      && (Truthy(deviceId) ==>
            forall x :: x in r.0.rows && x.userId == userId && x.deviceId == deviceId && x.selector != selector
                        ==> x.revokedAt.Some?)
      && (!Truthy(deviceId) ==> r.0.rows[..|s.rows|] == s.rows)
  {
    var s1 := if Truthy(deviceId) then Store(RevokeAllRows(s.rows, userId, deviceId, None, now), s.nextId) else s;
    if Truthy(deviceId) {
      RevokeAllKeepsEarlierRevocations(s, userId, deviceId, None, now);
      assert BySelector(s1.rows, selector).None? <==> BySelector(s.rows, selector).None?;
    }
    InsertWellFormed(s1, userId, selector, ext.hash(verifier), deviceId, now + RefreshLifetimeMs, now, insertOk);
    var created := Insert(s1, userId, selector, ext.hash(verifier), deviceId, now + RefreshLifetimeMs, now, insertOk);
    var r := Issue(ext, s, userId, deviceId, selector, verifier, now, insertOk);
    assert r == (created.0, if created.1.Ok? then Some(selector + ":" + verifier) else None);
    if r.1.Some? {
      SplitOfToken(selector, verifier);
    }
    if Truthy(deviceId) {
      RevokedForDevice(s.rows, created.0.rows, userId, deviceId, selector, now);
    } else {
      assert s1 == s;
    }
  }

  /** After revoking a device's live tokens and perhaps appending the new
      token, every other token of that user and device is revoked. */
  lemma RevokedForDevice(rows: seq<TokenRow>, rows': seq<TokenRow>, userId: int, deviceId: Option<string>,
                         selector: string, now: Time)
    requires deviceId.Some?
    requires var revoked := RevokeAllRows(rows, userId, deviceId, None, now);
      || rows' == revoked
      || (|rows'| == |revoked| + 1 && rows'[..|revoked|] == revoked && rows'[|revoked|].selector == selector)
    ensures forall x :: x in rows' && x.userId == userId && x.deviceId == deviceId && x.selector != selector
                        ==> x.revokedAt.Some?
  {
    var revoked := RevokeAllRows(rows, userId, deviceId, None, now);
    forall x | x in rows' && x.userId == userId && x.deviceId == deviceId && x.selector != selector
      ensures x.revokedAt.Some?
    {
      var k :| 0 <= k < |rows'| && rows'[k] == x;
      if k < |revoked| {
        assert x == revoked[k];
        if rows[k].revokedAt.None? {
          assert RevokeAllHits(rows[k], userId, deviceId, None);
        }
      }
    }
  }

  // ---------------------------------------------------------------------
  // `refreshAccessToken`

  /** Where the guard chain of `refreshAccessToken` ends. */
  datatype RefreshStep =
    | BadFormat
    | NotFound
    | ReusedRevoked(userId: int)
    | Expired
    | BadVerifier(id: int)
    | NoUser
    | Rotate(stored: TokenRow, user: UserRecord)

  /** The checks in order: format, lookup by selector, revocation,
      expiry, verifier, and the owner's existence. A found token that is
      revoked is a reuse; one that passes every check rotates. */
  function RefreshStepOf(ext: Foreign, rows: seq<TokenRow>, incoming: string, now: Time): (step: RefreshStep)
    ensures step.BadFormat? <==> Colons(incoming) != 1
    ensures !step.BadFormat? ==>
              |Split(incoming)| == 2 && (step.NotFound? <==> BySelector(rows, Split(incoming)[0]).None?)
    ensures step.Rotate? ==>
              && BySelector(rows, Split(incoming)[0]) == Some(step.stored)
              && step.stored.revokedAt.None? && now <= step.stored.expiresAt
              && ext.verifies(Split(incoming)[1], step.stored.hashedVerifier)
              && ext.findUserById(step.stored.userId) == Some(step.user)
    ensures |Split(incoming)| == 2 && BySelector(rows, Split(incoming)[0]).Some? ==>
              var t := BySelector(rows, Split(incoming)[0]).value;
              && (step.ReusedRevoked? <==> t.revokedAt.Some?)
              && (step.ReusedRevoked? ==> step.userId == t.userId)
              && (step.Rotate? <==>
                    && t.revokedAt.None? && now <= t.expiresAt
                    && ext.verifies(Split(incoming)[1], t.hashedVerifier)
                    && ext.findUserById(t.userId).Some?)
  {
    SplitCount(incoming);
    var parts := Split(incoming);
    if |parts| != 2 then BadFormat
    else
      var selector, verifier := parts[0], parts[1];
      match BySelector(rows, selector)
      case None => NotFound
      case Some(t) =>
        if t.revokedAt.Some? then ReusedRevoked(t.userId)
        else if t.expiresAt < now then Expired
        else if !ext.verifies(verifier, t.hashedVerifier) then BadVerifier(t.id)
        else match ext.findUserById(t.userId)
          case None => NoUser
          case Some(u) => Rotate(t, u)
  }

  datatype RefreshResult = RefreshResult(success: bool, message: string, token: Option<string>,
                                         refreshToken: Option<string>)

  function Refused(message: string): RefreshResult
  {
    RefreshResult(false, message, None, None)
  }

  /** `refreshAccessToken` on the store: a reused revoked token revokes
      every token of its user; a wrong verifier revokes that token; an
      expired or unknown token, or a missing user, changes nothing.
      Otherwise the old token is revoked and a new one is issued for the
      stored device, or the given one when none is stored. */
  function Refresh(ext: Foreign, s: Store, incoming: string, deviceId: Option<string>, selector: string,
                   verifier: string, now: Time, insertOk: bool): (r: (Store, RefreshResult))
  {
    Respond(ext, s, RefreshStepOf(ext, s.rows, incoming, now), deviceId, selector, verifier, now, insertOk)
  }

  /** What each outcome of the checks does to the store and answers. */
  function Respond(ext: Foreign, s: Store, step: RefreshStep, deviceId: Option<string>, selector: string,
                   verifier: string, now: Time, insertOk: bool): (Store, RefreshResult)
  {
    match step
    case BadFormat => (s, Refused(BadFormatMessage))
    case NotFound => (s, Refused(TokenNotFoundMessage))
    case ReusedRevoked(userId) =>
      (Store(RevokeAllRows(s.rows, userId, None, None, now), s.nextId), Refused(ReusedMessage))
    case Expired => (s, Refused(ExpiredMessage))
    case BadVerifier(id) => (Store(RevokeRows(s.rows, id, now), s.nextId), Refused(BadVerifierMessage))
    case NoUser => (s, Refused(TokenUserNotFoundMessage))
    case Rotate(stored, user) => Rotation(ext, s, stored, user, deviceId, selector, verifier, now, insertOk)
  }

  /** The last step of a successful refresh: sign an access token for the
      stored device, or the given one when none is stored; revoke the old
      token; issue its successor for the same device. */
  function Rotation(ext: Foreign, s: Store, stored: TokenRow, user: UserRecord, deviceId: Option<string>,
                    selector: string, verifier: string, now: Time, insertOk: bool): (r: (Store, RefreshResult))
  {
    var effectiveDeviceId := OrElse(stored.deviceId, deviceId);
    var access := ext.sign(ClaimsFor(user, effectiveDeviceId));
    var s1 := Store(RevokeRows(s.rows, stored.id, now), s.nextId);
    var issued := Issue(ext, s1, user.id, effectiveDeviceId, selector, verifier, now, insertOk);
    (issued.0,
     if issued.1.Some? then RefreshResult(true, RefreshedMessage, Some(access), issued.1)
     else RefreshResult(true, RefreshedNotRotatedMessage, Some(access), None))
  }

  /** A token that does not split into two parts fails without touching
      the store. */
  lemma RefreshBadFormat(ext: Foreign, s: Store, incoming: string, deviceId: Option<string>, selector: string,
                         verifier: string, now: Time, insertOk: bool)
    requires Colons(incoming) != 1
    ensures Refresh(ext, s, incoming, deviceId, selector, verifier, now, insertOk)
         == (s, Refused(BadFormatMessage))
  {
  }

  /** Presenting a revoked token fails and leaves no token of its owner
      live; tokens revoked earlier keep their time. */
  lemma RefreshReuseRevokesAll(ext: Foreign, s: Store, incoming: string, deviceId: Option<string>, selector: string,
                               verifier: string, now: Time, insertOk: bool)
    requires WellFormed(s)
    requires RefreshStepOf(ext, s.rows, incoming, now).ReusedRevoked?
    ensures var r := Refresh(ext, s, incoming, deviceId, selector, verifier, now, insertOk);
      var owner := RefreshStepOf(ext, s.rows, incoming, now).userId;
      && r.1 == Refused(ReusedMessage) && WellFormed(r.0)
      && (forall i :: 0 <= i < |r.0.rows| && r.0.rows[i].userId == owner ==> r.0.rows[i].revokedAt.Some?)
      && (forall i :: 0 <= i < |s.rows| && s.rows[i].revokedAt.Some? ==> r.0.rows[i] == s.rows[i])
  {
    var owner := RefreshStepOf(ext, s.rows, incoming, now).userId;
    RevokeAllLeavesNoLiveToken(s.rows, owner, now);
    RevokeAllKeepsEarlierRevocations(s, owner, None, None, now);
  }

  /** An expired token fails and nothing is revoked. */
  lemma RefreshExpiredChangesNothing(ext: Foreign, s: Store, incoming: string, deviceId: Option<string>,
                                     selector: string, verifier: string, now: Time, insertOk: bool)
    requires SplitFound(s, incoming) && TokenOf(s, incoming).revokedAt.None? && TokenOf(s, incoming).expiresAt < now
    ensures Refresh(ext, s, incoming, deviceId, selector, verifier, now, insertOk) == (s, Refused(ExpiredMessage))
  {
    SplitCount(incoming);
  }

  /** The presented token splits into two parts and its selector is
      stored. */
  predicate SplitFound(s: Store, incoming: string)
  {
    |Split(incoming)| == 2 && BySelector(s.rows, Split(incoming)[0]).Some?
  }

  function TokenOf(s: Store, incoming: string): TokenRow
    requires SplitFound(s, incoming)
  {
    BySelector(s.rows, Split(incoming)[0]).value
  }

  /** A wrong verifier on a live, unexpired token revokes exactly that
      token. */
  lemma RefreshBadVerifierRevokesIt(ext: Foreign, s: Store, incoming: string, deviceId: Option<string>,
                                    selector: string, verifier: string, now: Time, insertOk: bool)
    requires WellFormed(s) && SplitFound(s, incoming)
    requires TokenOf(s, incoming).revokedAt.None? && now <= TokenOf(s, incoming).expiresAt
    requires !ext.verifies(Split(incoming)[1], TokenOf(s, incoming).hashedVerifier)
    ensures var r := Refresh(ext, s, incoming, deviceId, selector, verifier, now, insertOk);
      var t := TokenOf(s, incoming);
      && r.1 == Refused(BadVerifierMessage) && WellFormed(r.0) && |r.0.rows| == |s.rows|
      && BySelector(r.0.rows, t.selector) == Some(t.(revokedAt := Some(now)))
      && forall i :: 0 <= i < |s.rows| && s.rows[i] != t ==> r.0.rows[i] == s.rows[i]
  {
    var t := TokenOf(s, incoming);
    SplitCount(incoming);
    assert RefreshStepOf(ext, s.rows, incoming, now) == BadVerifier(t.id);
    assert Refresh(ext, s, incoming, deviceId, selector, verifier, now, insertOk)
        == (Store(RevokeRows(s.rows, t.id, now), s.nextId), Refused(BadVerifierMessage));
    var i :| 0 <= i < |s.rows| && s.rows[i] == t;
    RevokeRowsRevokes(s, t.id, now, i);
    forall j | 0 <= j < |s.rows| && s.rows[j] != t ensures RevokeRows(s.rows, t.id, now)[j] == s.rows[j] {
      assert j != i;
    }
  }

  /** A successful refresh revokes the presented token and answers with a
      new access token. When the new refresh token could be stored, it is
      bound to the stored device, or to the given one when none is stored,
      and it is found live by its selector. */
  lemma RefreshRotates(ext: Foreign, s: Store, incoming: string, deviceId: Option<string>, selector: string,
                       verifier: string, now: Time, insertOk: bool)
    requires WellFormed(s) && ':' !in selector && ':' !in verifier
    requires RefreshStepOf(ext, s.rows, incoming, now).Rotate?
    ensures var r := Refresh(ext, s, incoming, deviceId, selector, verifier, now, insertOk);
      var step := RefreshStepOf(ext, s.rows, incoming, now);
      var device := OrElse(step.stored.deviceId, deviceId);
      && WellFormed(r.0) && r.1.success
      && r.1.token == Some(ext.sign(ClaimsFor(step.user, device)))
      && BySelector(r.0.rows, step.stored.selector).Some?
      && BySelector(r.0.rows, step.stored.selector).value.revokedAt.Some?
      && (r.1.refreshToken.Some? ==>
            && r.1.message == RefreshedMessage
            && r.1.refreshToken == Some(selector + ":" + verifier)
            && BySelector(r.0.rows, selector).Some?
            && BySelector(r.0.rows, selector).value.deviceId == device
            && BySelector(r.0.rows, selector).value.userId == step.user.id
            && BySelector(r.0.rows, selector).value.revokedAt.None?)
      && (r.1.refreshToken.None? ==> r.1.message == RefreshedNotRotatedMessage)
  {
    var step := RefreshStepOf(ext, s.rows, incoming, now);
    var t := step.stored;
    var device := OrElse(t.deviceId, deviceId);
    var i :| 0 <= i < |s.rows| && s.rows[i] == t;
    RevokeRowsRevokes(s, t.id, now, i);
    var s1 := Store(RevokeRows(s.rows, t.id, now), s.nextId);
    IssueStoresToken(ext, s1, step.user.id, device, selector, verifier, now, insertOk);
    var issued := Issue(ext, s1, step.user.id, device, selector, verifier, now, insertOk);
    SameIdsAfterIssue(ext, s1, step.user.id, device, selector, verifier, now, insertOk, i);
    BySelectorUnique(issued.0.rows, t.selector, i);
    RefreshOfRotate(ext, s, incoming, deviceId, selector, verifier, now, insertOk);
  }

  lemma RefreshOfRotate(ext: Foreign, s: Store, incoming: string, deviceId: Option<string>, selector: string,
                        verifier: string, now: Time, insertOk: bool)
    requires RefreshStepOf(ext, s.rows, incoming, now).Rotate?
    ensures var step := RefreshStepOf(ext, s.rows, incoming, now);
      Refresh(ext, s, incoming, deviceId, selector, verifier, now, insertOk)
      == Rotation(ext, s, step.stored, step.user, deviceId, selector, verifier, now, insertOk)
  {
    var step := RefreshStepOf(ext, s.rows, incoming, now);
    assert step == Rotate(step.stored, step.user);
    assert Respond(ext, s, step, deviceId, selector, verifier, now, insertOk)
        == Rotation(ext, s, step.stored, step.user, deviceId, selector, verifier, now, insertOk);
  }

  /** Issuing keeps every existing row at its place with its selector, and
      keeps a revocation. */
  lemma SameIdsAfterIssue(ext: Foreign, s: Store, userId: int, deviceId: Option<string>, selector: string,
                          verifier: string, now: Time, insertOk: bool, i: int)
    requires 0 <= i < |s.rows|
    ensures var r := Issue(ext, s, userId, deviceId, selector, verifier, now, insertOk);
      |r.0.rows| >= |s.rows| && r.0.rows[i].selector == s.rows[i].selector
      && (s.rows[i].revokedAt.Some? ==> r.0.rows[i].revokedAt.Some?)
  {
    var s1 := if Truthy(deviceId) then Store(RevokeAllRows(s.rows, userId, deviceId, None, now), s.nextId) else s;
    var created := Insert(s1, userId, selector, ext.hash(verifier), deviceId, now + RefreshLifetimeMs, now, insertOk);
    if created.1.Ok? {
      assert created.0.rows[..|s1.rows|] == s1.rows;
      assert created.0.rows[i] == s1.rows[i];
    }
  }

  // ---------------------------------------------------------------------
  // `revokeRefreshToken`

  /** `revokeRefreshToken`: a well-formed token whose selector is stored is
      revoked without checking its verifier. */
  function RevokeByToken(s: Store, incoming: string, now: Time): (r: (Store, bool, string))
    ensures Colons(incoming) != 1 ==> r == (s, false, BadFormatMessage)
  {
    SplitCount(incoming);
    var parts := Split(incoming);
    if |parts| != 2 then (s, false, BadFormatMessage)
    else match BySelector(s.rows, parts[0])
      case None => (s, false, TokenNotFoundMessage)
      case Some(t) => (Store(RevokeRows(s.rows, t.id, now), s.nextId), true, RevokedMessage)
  }

  /** Any verifier will do: every `selector:anything` revokes the token of
      that selector. */
  lemma RevokeIgnoresVerifier(s: Store, selector: string, v1: string, v2: string, now: Time)
    requires ':' !in selector && ':' !in v1 && ':' !in v2
    ensures RevokeByToken(s, selector + ":" + v1, now) == RevokeByToken(s, selector + ":" + v2, now)
    ensures BySelector(s.rows, selector).Some? ==>
              RevokeByToken(s, selector + ":" + v1, now)
              == (Store(RevokeRows(s.rows, BySelector(s.rows, selector).value.id, now), s.nextId), true,
                  RevokedMessage)
  {
    SplitOfToken(selector, v1);
    SplitOfToken(selector, v2);
  }

  // ---------------------------------------------------------------------
  // `register` and `login`

  datatype AuthResult = AuthResult(success: bool, message: string, token: Option<string>,
                                   refreshToken: Option<string>, userId: Option<int>, username: Option<string>)

  function Failed(message: string): AuthResult
  {
    AuthResult(false, message, None, None, None, None)
  }

  /** `register`: the username is checked before the email. `newUserId` is
      the id the users table gives the new row. */
  function Registration(ext: Foreign, s: Store, username: string, email: string, deviceId: Option<string>,
                        newUserId: int, selector: string, verifier: string, now: Time, insertOk: bool)
    : (r: (Store, AuthResult))
    ensures ext.findByUsername(username).Some? ==> r == (s, Failed(UsernameTakenMessage))
    ensures (ext.findByUsername(username).None? && ext.findByEmail(email).Some?)
              ==> r == (s, Failed(EmailTakenMessage))
    ensures (ext.findByUsername(username).None? && ext.findByEmail(email).None?) ==>
              && r.1.success && r.1.message == RegisteredMessage
              && r.1.userId == Some(newUserId) && r.1.username == Some(username)
              && r.1.token == Some(ext.sign(Claims(newUserId, username, if Truthy(deviceId) then deviceId else None)))
              && r == (Issue(ext, s, newUserId, deviceId, selector, verifier, now, insertOk).0, r.1)
              && r.1.refreshToken == Issue(ext, s, newUserId, deviceId, selector, verifier, now, insertOk).1
  {
    if ext.findByUsername(username).Some? then (s, Failed(UsernameTakenMessage))
    else if ext.findByEmail(email).Some? then (s, Failed(EmailTakenMessage))
    else
      var token := ext.sign(ClaimsFor(UserRecord(newUserId, username), deviceId));
      var issued := Issue(ext, s, newUserId, deviceId, selector, verifier, now, insertOk);
      (issued.0, AuthResult(true, RegisteredMessage, Some(token), issued.1, Some(newUserId), Some(username)))
  }

  /** `login`: a name with `@` is looked up as an email, any other as a
      username; a missing user (or one with a falsy id) and a wrong password
      fail before anything is written. */
  function LoginAttempt(ext: Foreign, s: Store, usernameOrEmail: string, password: string, deviceId: Option<string>,
                 selector: string, verifier: string, now: Time, insertOk: bool): (r: (Store, AuthResult))
    ensures var user := if '@' in usernameOrEmail then ext.findByEmail(usernameOrEmail)
                        else ext.findByUsername(usernameOrEmail);
      && (!r.1.success <==> user.None? || user.value.id == 0 || !ext.passwordOk(user.value, password))
      && (!r.1.success ==> r.0 == s && r.1.token.None?)
      && ((user.None? || user.value.id == 0) ==> r.1.message == UserNotFoundMessage)
      && (user.Some? && user.value.id != 0 && !ext.passwordOk(user.value, password) ==> r.1.message == BadPasswordMessage)
      && (r.1.success ==>
            && r.1.userId == Some(user.value.id)
            && r.1.username == Some(user.value.username)
            && r.1.token == Some(ext.sign(ClaimsFor(user.value, deviceId)))
            && r == (Issue(ext, s, user.value.id, deviceId, selector, verifier, now, insertOk).0, r.1)
            && r.1.refreshToken == Issue(ext, s, user.value.id, deviceId, selector, verifier, now, insertOk).1
            && (r.1.refreshToken.Some? ==> r.1.message == LoggedInMessage)
            && (r.1.refreshToken.None? ==> r.1.message == LoggedInNoRefreshMessage))
  {
    var user := if '@' in usernameOrEmail then ext.findByEmail(usernameOrEmail) else ext.findByUsername(usernameOrEmail);
    if user.None? || user.value.id == 0 then (s, Failed(UserNotFoundMessage))
    else if !ext.passwordOk(user.value, password) then (s, Failed(BadPasswordMessage))
    else
      var u := user.value;
      var token := ext.sign(ClaimsFor(u, deviceId));
      var issued := Issue(ext, s, u.id, deviceId, selector, verifier, now, insertOk);
      if issued.1.None? then
        (issued.0, AuthResult(true, LoggedInNoRefreshMessage, Some(token), None,
                              Some(u.id), Some(u.username)))
      else (issued.0, AuthResult(true, LoggedInMessage, Some(token), issued.1, Some(u.id), Some(u.username)))
  }

  // ---------------------------------------------------------------------
  // The service

  class AuthService {
    const tokens: RefreshTokenStore
    const ext: Foreign

    constructor (tokens: RefreshTokenStore, ext: Foreign)
      ensures this.tokens == tokens && this.ext == ext
    {
      this.tokens := tokens;
      this.ext := ext;
    }

    /** `generateAndStoreRefreshToken`. */
    method GenerateAndStoreRefreshToken(userId: int, deviceId: Option<string>, selector: string, verifier: string,
                                        now: Time, insertOk: bool) returns (t: Option<string>)
      requires tokens.Valid()
      modifies tokens
      ensures tokens.Valid()
      ensures (tokens.Snap(), t) == Issue(ext, old(tokens.Snap()), userId, deviceId, selector, verifier, now, insertOk)
    {
      var hashedVerifier := ext.hash(verifier);
      var expiresAt := now + RefreshLifetimeMs;
      if Truthy(deviceId) {
        tokens.RevokeAllByUserIdAndDeviceId(userId, deviceId.value, None, now);
      }
      var created := tokens.Create(userId, selector, hashedVerifier, deviceId, expiresAt, now, insertOk);
      if created.Err? {
        return None;
      }
      t := Some(selector + ":" + verifier);
    }

    /** `refreshAccessToken`. */
    method RefreshAccessToken(incoming: string, deviceId: Option<string>, selector: string, verifier: string,
                              now: Time, insertOk: bool) returns (res: RefreshResult)
      requires tokens.Valid()
      modifies tokens
      ensures tokens.Valid()
      ensures (tokens.Snap(), res) == Refresh(ext, old(tokens.Snap()), incoming, deviceId, selector, verifier, now, insertOk)
    {
      ghost var s0 := tokens.Snap();
      ghost var step := RefreshStepOf(ext, s0.rows, incoming, now);
      SplitCount(incoming);
      var parts := Split(incoming);
      if |parts| != 2 {
        assert step == BadFormat;
        return Refused(BadFormatMessage);
      }
      var storedToken := tokens.FindBySelector(parts[0]);
      if storedToken.None? {
        assert step == NotFound;
        return Refused(TokenNotFoundMessage);
      }
      var t := storedToken.value;
      if t.revokedAt.Some? {
        assert step == ReusedRevoked(t.userId);
        tokens.RevokeAllByUserId(t.userId, None, now);
        return Refused(ReusedMessage);
      }
      if t.expiresAt < now {
        assert step == Expired;
        return Refused(ExpiredMessage);
      }
      if !ext.verifies(parts[1], t.hashedVerifier) {
        assert step == BadVerifier(t.id);
        tokens.Revoke(t.id, now);
        return Refused(BadVerifierMessage);
      }
      var user := ext.findUserById(t.userId);
      if user.None? {
        assert step == NoUser;
        return Refused(TokenUserNotFoundMessage);
      }
      assert step == Rotate(t, user.value);
      RefreshOfRotate(ext, s0, incoming, deviceId, selector, verifier, now, insertOk);
      res := RotateRefreshToken(t, user.value, deviceId, selector, verifier, now, insertOk);
    }

    /** The end of a successful `refreshAccessToken`: sign the access token,
        revoke the token presented and issue its replacement. */
    method RotateRefreshToken(t: TokenRow, user: UserRecord, deviceId: Option<string>, selector: string,
                              verifier: string, now: Time, insertOk: bool) returns (res: RefreshResult)
      requires tokens.Valid()
      modifies tokens
      ensures tokens.Valid()
      ensures (tokens.Snap(), res) == Rotation(ext, old(tokens.Snap()), t, user, deviceId, selector, verifier, now, insertOk)
    {
      var effectiveDeviceId := OrElse(t.deviceId, deviceId);
      var access := ext.sign(ClaimsFor(user, effectiveDeviceId));
      tokens.Revoke(t.id, now);
      var newRefreshToken := GenerateAndStoreRefreshToken(user.id, effectiveDeviceId, selector, verifier,
                                                          now, insertOk);
      if newRefreshToken.None? {
        return RefreshResult(true, RefreshedNotRotatedMessage, Some(access), None);
      }
      res := RefreshResult(true, RefreshedMessage, Some(access), newRefreshToken);
    }

    /** `revokeRefreshToken`. */
    method RevokeRefreshToken(incoming: string, now: Time) returns (success: bool, message: string)
      requires tokens.Valid()
      modifies tokens
      ensures tokens.Valid()
      ensures (tokens.Snap(), success, message) == RevokeByToken(old(tokens.Snap()), incoming, now)
    {
      SplitCount(incoming);
      var parts := Split(incoming);
      if |parts| != 2 {
        return false, BadFormatMessage;
      }
      var storedToken := tokens.FindBySelector(parts[0]);
      if storedToken.None? {
        return false, TokenNotFoundMessage;
      }
      tokens.Revoke(storedToken.value.id, now);
      success, message := true, RevokedMessage;
    }

    /** `cleanupExpiredRefreshTokens`. */
    method CleanupExpiredRefreshTokens(now: Time)
      requires tokens.Valid()
      modifies tokens
      ensures tokens.Valid()
      ensures tokens.rows == PurgeRows(old(tokens.rows), now)
    {
      tokens.DeleteExpiredTokens(now);
    }

    /** `register`. */
    method Register(username: string, email: string, deviceId: Option<string>, newUserId: int,
                    selector: string, verifier: string, now: Time, insertOk: bool) returns (res: AuthResult)
      requires tokens.Valid()
      modifies tokens
      ensures tokens.Valid()
      ensures (tokens.Snap(), res)
           == Registration(ext, old(tokens.Snap()), username, email, deviceId, newUserId, selector, verifier, now, insertOk)
    {
      if ext.findByUsername(username).Some? {
        return Failed(UsernameTakenMessage);
      }
      if ext.findByEmail(email).Some? {
        return Failed(EmailTakenMessage);
      }
      var token := ext.sign(ClaimsFor(UserRecord(newUserId, username), deviceId));
      var refreshToken := GenerateAndStoreRefreshToken(newUserId, deviceId, selector, verifier, now, insertOk);
      res := AuthResult(true, RegisteredMessage, Some(token), refreshToken, Some(newUserId), Some(username));
    }

    /** `login`. */
    method Login(usernameOrEmail: string, password: string, deviceId: Option<string>,
                 selector: string, verifier: string, now: Time, insertOk: bool) returns (res: AuthResult)
      requires tokens.Valid()
      modifies tokens
      ensures tokens.Valid()
      ensures (tokens.Snap(), res)
           == LoginAttempt(ext, old(tokens.Snap()), usernameOrEmail, password, deviceId, selector, verifier, now, insertOk)
    {
      var user: Option<UserRecord>;
      if '@' in usernameOrEmail {
        user := ext.findByEmail(usernameOrEmail);
      } else {
        user := ext.findByUsername(usernameOrEmail);
      }
      if user.None? || user.value.id == 0 {
        return Failed(UserNotFoundMessage);
      }
      if !ext.passwordOk(user.value, password) {
        return Failed(BadPasswordMessage);
      }
      var token := ext.sign(ClaimsFor(user.value, deviceId));
      var refreshToken := GenerateAndStoreRefreshToken(user.value.id, deviceId, selector, verifier, now, insertOk);
      if refreshToken.None? {
        return AuthResult(true, LoggedInNoRefreshMessage, Some(token), None,
                          Some(user.value.id), Some(user.value.username));
      }
      res := AuthResult(true, LoggedInMessage, Some(token), refreshToken, Some(user.value.id), Some(user.value.username));
    }
  }
}
