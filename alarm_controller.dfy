/** The alarm request handlers (src/controllers/alarmController.ts): the
    checks each handler makes on the authenticated user, the path id and the
    request body before it calls the alarm service, and the HTTP status it
    gives the service's answer. */
module AlarmRequests {
  import opened Common
  import opened Json
  import Alarms
  import AlarmSync
  import PayloadValidation
  import Sockets

  // ---------------------------------------------------------------------
  // `HH:MM`

  /** `/^([01]\d|2[0-3]):([0-5]\d)$/.test(t)`. */
  predicate IsValidTime(t: string)
  {
    |t| == 5 && t[2] == ':'
    && (((t[0] == '0' || t[0] == '1') && IsDigit(t[1])) || (t[0] == '2' && '0' <= t[1] <= '3'))
    && '0' <= t[3] <= '5' && IsDigit(t[4])
  }

  /** A number below 100 in two digits, with a leading zero. */
  function TwoDigits(n: nat): (s: string)
    requires n < 100
    ensures |s| == 2 && IsDigit(s[0]) && IsDigit(s[1])
  {
    [DigitChar(n / 10), DigitChar(n % 10)]
  }

  /** The clock reading `h:m`. */
  function Clock(h: nat, m: nat): string
    requires h < 100 && m < 100
  {
    TwoDigits(h) + ":" + TwoDigits(m)
  }

  function DigitAt(t: string, i: nat): nat
    requires i < |t| && IsDigit(t[i])
  {
    (t[i] as int) - ('0' as int)
  }

  /** Every clock reading from 00:00 to 23:59 matches the pattern. */
  lemma ClockIsValid(h: nat, m: nat)
    requires h < 24 && m < 60
    ensures IsValidTime(Clock(h, m))
  {
    var t := Clock(h, m);
    assert t[0] == DigitChar(h / 10) && t[1] == DigitChar(h % 10) && t[2] == ':';
    assert t[3] == DigitChar(m / 10) && t[4] == DigitChar(m % 10);
    assert h / 10 <= 2 && (h / 10 == 2 ==> h % 10 <= 3);
    assert m / 10 <= 5;
  }

  /** Every text the pattern matches is a clock reading from 00:00 to
      23:59. */
  lemma ValidTimeIsClock(t: string)
    requires IsValidTime(t)
    ensures var h, m := 10 * DigitAt(t, 0) + DigitAt(t, 1), 10 * DigitAt(t, 3) + DigitAt(t, 4);
      h < 24 && m < 60 && t == Clock(h, m)
  {
    var h := 10 * DigitAt(t, 0) + DigitAt(t, 1);
    var m := 10 * DigitAt(t, 3) + DigitAt(t, 4);
    assert h / 10 == DigitAt(t, 0) && h % 10 == DigitAt(t, 1);
    assert m / 10 == DigitAt(t, 3) && m % 10 == DigitAt(t, 4);
    var c := Clock(h, m);
    assert c[0] == t[0] && c[1] == t[1] && c[2] == t[2] && c[3] == t[3] && c[4] == t[4];
  }

  /** The text `RegExp.test` sees for a request value that can match at
      all: a string, or an array of one such value (which converts to the
      text of its element). Every other value converts to text that holds no
      `:` ("5", "true", "null", "[object Object]", or elements joined by
      commas), so `None` stands for a non-matching text. */
  function TimeText(v: Json): (r: Option<string>)
    ensures v.JStr? ==> r == Some(v.s)
    ensures v.JNum? || v.JBool? || v.JNull? || v.JObj? ==> r.None?
  {
    match v
    case JStr(s) => Some(s)
    case JArr(items) => if |items| == 1 then TimeText(items[0]) else None
    case _ => None
  }

  predicate TimeMatches(v: Json)
  {
    TimeText(v).Some? && IsValidTime(TimeText(v).value)
  }

  // ---------------------------------------------------------------------
  // `days` as the handlers check it

  /** The number a relational comparison turns a value into, `None` for
      `NaN`. Strings go through the engine's numeric parsing, a parameter. */
  function ToNumber(v: Json, strNum: string -> Option<real>): (r: Option<real>)
    ensures v.JNum? ==> r == Some(v.n)
  {
    match v
    case JNum(n) => Some(n)
    case JBool(b) => Some(if b then 1.0 else 0.0)
    case JNull => Some(0.0)
    case JStr(s) => strNum(s)
    case _ => None
  }

  /** `day < 0 || day > 6`: false for `NaN`. */
  predicate OutOfRange(v: Json, strNum: string -> Option<real>)
  {
    ToNumber(v, strNum).Some? && (ToNumber(v, strNum).value < 0.0 || ToNumber(v, strNum).value > 6.0)
  }

  /** `Array.isArray(days) && !days.some(OutOfRange)`. Unlike the payload
      middleware, this check does not require integers. */
  predicate DaysInRange(v: Json, strNum: string -> Option<real>)
  {
    v.JArr? && forall i :: 0 <= i < |v.items| ==> !OutOfRange(v.items[i], strNum)
  }

  /** Days the payload middleware let through are also accepted by the
      handlers' own check, so for create and update that check never
      refuses a request that reached it. */
  lemma MiddlewareDaysPassHandlers(v: Json, strNum: string -> Option<real>)
    requires PayloadValidation.DaysOk(v)
    ensures DaysInRange(v, strNum)
  {
    forall i | 0 <= i < |v.items|
      ensures !OutOfRange(v.items[i], strNum)
    {
      assert PayloadValidation.IsWeekday(v.items[i]);
    }
  }

  /** The handlers' check alone accepts values the middleware refuses: a
      fractional day, for one. */
  lemma HandlersAcceptFractionalDay(strNum: string -> Option<real>)
    ensures DaysInRange(JArr([JNum(2.5)]), strNum)
    ensures !PayloadValidation.DaysOk(JArr([JNum(2.5)]))
  {
    var v := JArr([JNum(2.5)]);
    assert !PayloadValidation.IsWeekday(v.items[0]) by {
      assert (2.5).Floor == 2;
    }
  }

  // ---------------------------------------------------------------------
  // `parseInt`

  /** The characters `parseInt` skips before the number: white space and
      line terminators. */
  predicate IsJsSpace(c: char)
  {
    c == ' ' || c == '\t' || c == '\n' || c == '\r' || c == '\U{B}' || c == '\U{C}'
    || c == '\U{A0}' || c == '\U{1680}' || ('\U{2000}' <= c <= '\U{200A}')
    || c == '\U{2028}' || c == '\U{2029}' || c == '\U{202F}' || c == '\U{205F}'
    || c == '\U{3000}' || c == '\U{FEFF}'
  }

  /** Signs and digits are not white space. */
  lemma SignOrDigitIsNotSpace(c: char)
    requires c == '-' || c == '+' || IsDigit(c)
    ensures !IsJsSpace(c)
  {
  }

  function TrimStart(s: string): (r: string)
    ensures |r| <= |s|
    ensures r == [] || !IsJsSpace(r[0])
    ensures (s == [] || !IsJsSpace(s[0])) ==> r == s
  {
    if s != [] && IsJsSpace(s[0]) then TrimStart(s[1..]) else s
  }

  /** The longest run of characters satisfying `p` at the start of `s`. */
  function Prefix(s: string, p: char -> bool): (r: string)
    ensures |r| <= |s| && r == s[..|r|]
    ensures forall i :: 0 <= i < |r| ==> p(r[i])
    ensures |r| < |s| ==> !p(s[|r|])
  {
    if s != [] && p(s[0]) then [s[0]] + Prefix(s[1..], p) else []
  }

  predicate IsHexDigit(c: char)
  {
    IsDigit(c) || 'a' <= c <= 'f' || 'A' <= c <= 'F'
  }

  function HexDigitValue(c: char): (d: nat)
    requires IsHexDigit(c)
    ensures d < 16
  {
    if IsDigit(c) then (c as int) - ('0' as int)
    else if 'a' <= c <= 'f' then (c as int) - ('a' as int) + 10
    else (c as int) - ('A' as int) + 10
  }

  function HexValue(s: string): nat
    requires forall i :: 0 <= i < |s| ==> IsHexDigit(s[i])
  {
    if s == [] then 0 else 16 * HexValue(s[..|s| - 1]) + HexDigitValue(s[|s| - 1])
  }

  /** The number at the start of a text with no sign: `0x` or `0X`
      selects hexadecimal, and the longest run of digits that follows is
      the number; no digits at all is `NaN`. */
  function Unsigned(u: string): Option<nat>
  {
    if |u| >= 2 && u[0] == '0' && (u[1] == 'x' || u[1] == 'X') then
      var h := Prefix(u[2..], IsHexDigit);
      if h == [] then None else Some(HexValue(h))
    else
      var d := Prefix(u, IsDigit);
      if d == [] then None else Some(DigitsValue(d))
  }

  /** `parseInt(s)` with no radix, `None` for `NaN`: leading white space is
      skipped and one sign is read before the number. */
  function ParseInt(s: string): Option<int>
  {
    var t := TrimStart(s);
    if t != [] && t[0] == '-' then
      match Unsigned(t[1..])
      case None => None
      case Some(n) => Some(0 - n)
    else if t != [] && t[0] == '+' then
      match Unsigned(t[1..])
      case None => None
      case Some(n) => Some(n)
    else
      match Unsigned(t)
      case None => None
      case Some(n) => Some(n)
  }

  lemma ParseIntNegative(m: string, v: nat)
    requires m != [] && m[0] == '-' && Unsigned(m[1..]) == Some(v)
    ensures ParseInt(m) == Some(0 - v)
  {
    SignOrDigitIsNotSpace(m[0]);
    assert TrimStart(m) == m;
  }

  lemma ParseIntUnsigned(m: string)
    requires m != [] && IsDigit(m[0])
    ensures ParseInt(m) == Unsigned(m)
  {
    SignOrDigitIsNotSpace(m[0]);
    assert TrimStart(m) == m;
  }

  /** A text that starts with a digit and not with `0x`: what `parseInt`
      reads as a decimal number. */
  predicate DecimalLed(u: string)
  {
    u != [] && IsDigit(u[0]) && !(|u| >= 2 && u[0] == '0' && (u[1] == 'x' || u[1] == 'X'))
  }

  /** Without `0x` in front, a text that starts with a digit is a decimal
      number: its leading digits. */
  lemma UnsignedOfDigits(u: string)
    requires DecimalLed(u)
    ensures Unsigned(u) == Some(DigitsValue(Prefix(u, IsDigit)))
  {
    assert Prefix(u, IsDigit) != [];
  }

  /** A text that starts with a digit and no `0x` reads as its leading
      digits. */
  lemma ParseIntOfDigits(u: string)
    requires DecimalLed(u)
    ensures ParseInt(u) == Some(DigitsValue(Prefix(u, IsDigit)))
  {
    UnsignedOfDigits(u);
    ParseIntUnsigned(u);
  }

  /** With a minus sign in front, such a text reads as its leading digits
      negated. */
  lemma ParseIntOfNegatedDigits(u: string)
    requires DecimalLed(u)
    ensures ParseInt("-" + u) == Some(-(DigitsValue(Prefix(u, IsDigit)) as int))
  {
    UnsignedOfDigits(u);
    var m := "-" + u;
    assert m[1..] == u;
    ParseIntNegative(m, DigitsValue(Prefix(u, IsDigit)));
  }

  /** A decimal number reads back as itself, and so does one followed by
      text that does not continue it: `parseInt("12abc")` is 12. */
  lemma ParseIntReadsDecimal(n: nat, rest: string)
    requires rest == [] || !IsDigit(rest[0])
    requires n != 0 || rest == [] || (rest[0] != 'x' && rest[0] != 'X')
    ensures ParseInt(NatToString(n) + rest) == Some(n)
    ensures ParseInt("-" + (NatToString(n) + rest)) == Some(-(n as int))
  {
    DecimalThenRest(n, rest);
    ParseIntOfDigits(NatToString(n) + rest);
    ParseIntOfNegatedDigits(NatToString(n) + rest);
  }

  /** A decimal rendering followed by text that does not continue it starts
      with a digit and no `0x`, and its leading digits are the rendering. */
  lemma DecimalThenRest(n: nat, rest: string)
    requires rest == [] || !IsDigit(rest[0])
    requires n != 0 || rest == [] || (rest[0] != 'x' && rest[0] != 'X')
    ensures var t := NatToString(n) + rest;
      && DecimalLed(t) && DigitsValue(Prefix(t, IsDigit)) == n
  {
    var s := NatToString(n);
    DigitsValueOfNatToString(n);
    PrefixOfDigits(s, rest);
    var t := s + rest;
    assert t[0] == s[0];
    if |s| >= 2 {
      assert t[1] == s[1];
    } else if rest != [] {
      assert t[1] == rest[0];
    }
  }

  lemma {:induction false} PrefixOfDigits(s: string, rest: string)
    requires forall i :: 0 <= i < |s| ==> IsDigit(s[i])
    requires rest == [] || !IsDigit(rest[0])
    ensures Prefix(s + rest, IsDigit) == s
  {
    if s != [] {
      assert (s + rest)[0] == s[0];
      assert (s + rest)[1..] == s[1..] + rest;
      PrefixOfDigits(s[1..], rest);
    }
  }

  /** Every rendering of an integer reads back as that integer. */
  lemma ParseIntOfIntToString(i: int)
    ensures ParseInt(IntToString(i)) == Some(i)
  {
    if i < 0 {
      var s := NatToString(-i);
      assert s + [] == s;
      ParseIntReadsDecimal(-i, []);
      assert IntToString(i) == "-" + s;
    } else {
      var s := NatToString(i);
      assert s + [] == s;
      ParseIntReadsDecimal(i, []);
      assert IntToString(i) == s;
    }
  }

  /** The text after the leading white space and at most one sign. */
  function AfterSign(s: string): string
  {
    var t := TrimStart(s);
    if t != [] && (t[0] == '-' || t[0] == '+') then t[1..] else t
  }

  /** A segment with no digit after the leading white space and the sign
      is not a number, whatever follows. */
  lemma ParseIntRejectsNonNumeric(s: string)
    requires AfterSign(s) == [] || !IsDigit(AfterSign(s)[0])
    ensures ParseInt(s).None?
  {
    var u := AfterSign(s);
    if u != [] {
      assert Prefix(u, IsDigit) == [];
    }
  }

  // ---------------------------------------------------------------------
  // Request records

  /** What the authentication middleware put in `req.user`. */
  datatype AuthUser = AuthUser(userId: int, deviceId: Option<string>)

  /** The client's `days`: text kept as text, an array of integers as a
      list; any other value is not carried over. */
  function DaysOf(body: Body): (r: Option<AlarmSync.DaysValue>)
    ensures "days" in body && body["days"].JStr? ==> r == Some(AlarmSync.DaysText(body["days"].s))
  {
    if "days" !in body then None
    else match body["days"]
      case JStr(s) => Some(AlarmSync.DaysText(s))
      case JArr(items) => if IntItems(items).Some? then Some(AlarmSync.DaysList(IntItems(items).value)) else None
      case _ => None
  }

  /** A request body read as an alarm record, one field per camelCase key;
      a value of the wrong type reads as absent. */
  function RecordOf(body: Body): (a: AlarmSync.ClientAlarm)
    ensures a.id == IntField(body, "id") && a.userId == IntField(body, "userId")
    ensures a.title == StringField(body, "title") && a.time == StringField(body, "time")
    ensures a.isActive == BoolField(body, "isActive") && a.deviceId == StringField(body, "deviceId")
  {
    Alarms.Alarm(IntField(body, "id"), IntField(body, "userId"), StringField(body, "title"),
                 StringField(body, "time"), DaysOf(body), StringField(body, "sound"),
                 BoolField(body, "vibration"), IntField(body, "snoozeInterval"),
                 IntField(body, "snoozeCount"), BoolField(body, "isActive"),
                 BoolField(body, "noRepeat"), None, None, StringField(body, "deviceId"),
                 StringField(body, "syncStatus"))
  }

  /** `{ ...clientAlarm }` for an element of the sync array: an object's
      fields, or nothing for any other value. */
  function DraftOf(v: Json): AlarmSync.ClientAlarm
  {
    RecordOf(if v.JObj? then v.members else map[])
  }

  function DraftsOf(items: seq<Json>): (r: seq<AlarmSync.ClientAlarm>)
    ensures |r| == |items| && forall i :: 0 <= i < |items| ==> r[i] == DraftOf(items[i])
  {
    if items == [] then [] else [DraftOf(items[0])] + DraftsOf(items[1..])
  }

  // ---------------------------------------------------------------------
  // The checks made before the service is called

  /** An early response, or the arguments the service is called with. */
  datatype Gate<A> = Respond(status: int, message: string) | Proceed(args: A)

  const NotAuthenticated := "User not authenticated"
  const MissingFields := "Required fields missing: title, time, days"
  const BadTime := "Invalid time format. Use HH:MM (24-hour format)"
  const BadDays := "Invalid days format. Use an array of days (0-6, where 0 is Sunday)"
  const BadId := "Invalid alarm ID"
  const BadActive := "Active status must be a boolean value"
  const NoDevice := "Device ID is required (from token or request body)"
  const NoAlarmArray := "Alarms must be provided as an array"

  /** `createAlarm` up to the service call. The record is the body with
      the caller's id and the token's device id (or the body's) laid over
      it. */
  function CreateGate(user: Option<AuthUser>, body: Body, strNum: string -> Option<real>)
    : (g: Gate<AlarmSync.ClientAlarm>)
    ensures user.None? ==> g == Respond(401, NotAuthenticated)
    ensures g.Proceed? <==>
              user.Some? && FieldTruthy(body, "title") && FieldTruthy(body, "time") && FieldTruthy(body, "days")
              && TimeMatches(body["time"]) && DaysInRange(body["days"], strNum)
    ensures (user.Some? && !(FieldTruthy(body, "title") && FieldTruthy(body, "time") && FieldTruthy(body, "days")))
              ==> g == Respond(400, MissingFields)
    ensures g.Respond? && user.Some? ==> g.status == 400
    ensures g.Proceed? ==>
              && g.args.userId == Some(user.value.userId)
              && g.args.deviceId == OrElse(user.value.deviceId, StringField(body, "deviceId"))
              && g.args.title == StringField(body, "title") && g.args.time == StringField(body, "time")
  {
    if user.None? then Respond(401, NotAuthenticated)
    else if !FieldTruthy(body, "title") || !FieldTruthy(body, "time") || !FieldTruthy(body, "days") then
      Respond(400, MissingFields)
    else if !TimeMatches(body["time"]) then Respond(400, BadTime)
    else if !DaysInRange(body["days"], strNum) then Respond(400, BadDays)
    else
      var effectiveDeviceId := OrElse(user.value.deviceId, StringField(body, "deviceId"));
      Proceed(RecordOf(body).(userId := Some(user.value.userId), deviceId := effectiveDeviceId))
  }

  /** The id check shared by the handlers of `/:id`. */
  function IdGate(user: Option<AuthUser>, id: string): (g: Gate<int>)
    ensures user.None? ==> g == Respond(401, NotAuthenticated)
    ensures user.Some? && ParseInt(id).None? ==> g == Respond(400, BadId)
    ensures g.Proceed? <==> user.Some? && ParseInt(id).Some?
    ensures g.Proceed? ==> g.args == ParseInt(id).value
  {
    if user.None? then Respond(401, NotAuthenticated)
    else if ParseInt(id).None? then Respond(400, BadId)
    else Proceed(ParseInt(id).value)
  }

  /** `updateAlarm` up to the service call: time and days are checked only
      when they are present (truthy). The partial record is the body as
      sent. */
  function UpdateGate(user: Option<AuthUser>, id: string, body: Body, strNum: string -> Option<real>)
    : (g: Gate<(int, AlarmSync.ClientAlarm)>)
    ensures IdGate(user, id).Respond? ==> g == Respond(IdGate(user, id).status, IdGate(user, id).message)
    ensures g.Proceed? <==>
              IdGate(user, id).Proceed?
              && (FieldTruthy(body, "time") ==> TimeMatches(body["time"]))
              && (FieldTruthy(body, "days") ==> DaysInRange(body["days"], strNum))
    ensures g.Proceed? ==> g.args == (ParseInt(id).value, RecordOf(body))
    ensures IdGate(user, id).Proceed? && g.Respond? ==> g.status == 400
  {
    match IdGate(user, id)
    case Respond(status, message) => Respond(status, message)
    case Proceed(alarmId) =>
      if FieldTruthy(body, "time") && !TimeMatches(body["time"]) then Respond(400, BadTime)
      else if FieldTruthy(body, "days") && !DaysInRange(body["days"], strNum) then Respond(400, BadDays)
      else Proceed((alarmId, RecordOf(body)))
  }

  /** `toggleActive` up to the service call: `isActive` must be a boolean. */
  function ToggleGate(user: Option<AuthUser>, id: string, body: Body): (g: Gate<(int, bool)>)
    ensures IdGate(user, id).Respond? ==> g == Respond(IdGate(user, id).status, IdGate(user, id).message)
    ensures IdGate(user, id).Proceed? && BoolField(body, "isActive").None? ==> g == Respond(400, BadActive)
    ensures g.Proceed? <==> IdGate(user, id).Proceed? && BoolField(body, "isActive").Some?
    ensures g.Proceed? ==> g.args == (ParseInt(id).value, BoolField(body, "isActive").value)
  {
    match IdGate(user, id)
    case Respond(status, message) => Respond(status, message)
    case Proceed(alarmId) =>
      if "isActive" !in body || !body["isActive"].JBool? then Respond(400, BadActive)
      else Proceed((alarmId, body["isActive"].b))
  }

  /** The device a sync is for: the token's, else a truthy one in the
      body. */
  function SyncDevice(user: AuthUser, body: Body): (d: Option<string>)
    ensures Common.Truthy(user.deviceId) ==> d == user.deviceId
    ensures !Common.Truthy(user.deviceId) && Common.Truthy(StringField(body, "deviceId")) ==> d == StringField(body, "deviceId")
  {
    if !Common.Truthy(user.deviceId) && Common.Truthy(StringField(body, "deviceId")) then StringField(body, "deviceId")
    else user.deviceId
  }

  /** `syncAlarms` up to the service call. */
  function SyncGate(user: Option<AuthUser>, body: Body): (g: Gate<(int, string, seq<AlarmSync.ClientAlarm>)>)
    ensures user.None? ==> g == Respond(401, NotAuthenticated)
    ensures (user.Some? && !Common.Truthy(user.value.deviceId) && !Common.Truthy(StringField(body, "deviceId")))
              ==> g == Respond(400, NoDevice)
    ensures g.Proceed? <==>
              user.Some? && (Common.Truthy(user.value.deviceId) || Common.Truthy(StringField(body, "deviceId")))
              && "alarms" in body && body["alarms"].JArr?
    ensures g.Proceed? ==>
              && g.args.0 == user.value.userId
              && Some(g.args.1) == (if Common.Truthy(user.value.deviceId) then user.value.deviceId else StringField(body, "deviceId"))
              && g.args.1 != ""
              && g.args.2 == DraftsOf(body["alarms"].items)
  {
    if user.None? then Respond(401, NotAuthenticated)
    else
      var deviceId := SyncDevice(user.value, body);
      if !Common.Truthy(deviceId) then Respond(400, NoDevice)
      else if "alarms" !in body || !body["alarms"].JArr? then Respond(400, NoAlarmArray)
      else Proceed((user.value.userId, deviceId.value, DraftsOf(body["alarms"].items)))
  }

  // ---------------------------------------------------------------------
  // Status codes

  /** `result.success`. */
  predicate Succeeded(r: AlarmSync.OperationResult)
  {
    !r.Failure?
  }

  /** `createAlarm`: 201 on success, 400 otherwise. */
  function CreateStatus(r: AlarmSync.OperationResult): (s: int)
    ensures s == 201 <==> Succeeded(r)
    ensures s == 400 <==> !Succeeded(r)
  {
    if Succeeded(r) then 201 else 400
  }

  /** The handlers of one alarm: 200 on success, 404 when the service
      answered "Alarm not found", 400 for any other failure. */
  function ByIdStatus(r: AlarmSync.OperationResult): (s: int)
    ensures s == 200 <==> Succeeded(r)
    ensures s == 404 <==> r == AlarmSync.Failure(AlarmSync.NotFoundMessage)
    ensures s == 400 <==> r.Failure? && r.message != AlarmSync.NotFoundMessage
  {
    if Succeeded(r) then 200 else if r.message == AlarmSync.NotFoundMessage then 404 else 400
  }

  /** `getAllAlarms` and `syncAlarms`: 200 on success, 400 otherwise. */
  function ListStatus(r: AlarmSync.OperationResult): (s: int)
    ensures s == 200 <==> Succeeded(r)
    ensures s == 400 <==> !Succeeded(r)
  {
    if Succeeded(r) then 200 else 400
  }

  // ---------------------------------------------------------------------
  // The handlers

  /** The response: an early one with a message, or the service's answer
      with the status it maps to. */
  datatype Reply = Early(status: int, message: string) | Served(status: int, result: AlarmSync.OperationResult)

  class AlarmController {
    const service: AlarmSync.AlarmService

    constructor (service: AlarmSync.AlarmService)
      ensures this.service == service
    {
      this.service := service;
    }

    /** `createAlarm`. No sender device is passed to the service, so every
        device of the user with a token is notified. */
    method CreateAlarm(user: Option<AuthUser>, body: Body, socketId: Option<string>,
                       strNum: string -> Option<real>, now: Time, at: Time) returns (reply: Reply)
      requires service.Valid()
      modifies service.alarms, service.devices, service.sockets, service.push
      ensures service.Valid()
      ensures var g := CreateGate(user, body, strNum);
        && (g.Respond? ==> reply == Early(g.status, g.message)
                           && unchanged(service.alarms, service.devices, service.sockets, service.push))
        && (g.Proceed? ==>
              && reply.Served? && reply.status == CreateStatus(reply.result)
              && (Succeeded(reply.result) <==> Alarms.HasRequired(AlarmSync.ForStorage(g.args)))
              && service.alarms.Snap() == Alarms.CreateIn(old(service.alarms.Snap()), AlarmSync.ForStorage(g.args), now).0
              && (!Succeeded(reply.result) ==> unchanged(service.devices, service.sockets, service.push))
              && (Succeeded(reply.result) ==>
                    && reply.result.Success? && reply.result.id.Some? && reply.result.alarm.Some?
                    && service.Broadcasted(user.value.userId, AlarmSync.AlarmCreatedEvent,
                                           Sockets.AlarmData(reply.result.alarm.value), socketId,
                                           AlarmSync.CreateOperation, reply.result.id.value, None, at)))
    {
      var g := CreateGate(user, body, strNum);
      if g.Respond? {
        return Early(g.status, g.message);
      }
      var r := service.CreateAlarm(g.args, socketId, None, now, at);
      reply := Served(CreateStatus(r), r);
    }

    /** `updateAlarm`. */
    method UpdateAlarm(user: Option<AuthUser>, id: string, body: Body, socketId: Option<string>,
                       strNum: string -> Option<real>, now: Time, at: Time) returns (reply: Reply)
      requires service.Valid()
      modifies service.alarms, service.devices, service.sockets, service.push
      ensures service.Valid()
      ensures var g := UpdateGate(user, id, body, strNum);
        && (g.Respond? ==> reply == Early(g.status, g.message)
                           && unchanged(service.alarms, service.devices, service.sockets, service.push))
        && (g.Proceed? ==>
              && reply.Served? && reply.status == ByIdStatus(reply.result)
              && (reply.status == 404 <==> Alarms.RowFor(old(service.alarms.rows), g.args.0, user.value.userId).None?)
              && (reply.status == 404 ==> service.alarms.rows == old(service.alarms.rows)
                                          && unchanged(service.devices, service.sockets, service.push))
              && (reply.status == 200 ==>
                    && service.alarms.rows == Alarms.UpdateRows(old(service.alarms.rows), g.args.0, user.value.userId,
                                                                AlarmSync.ForStorage(g.args.1), now)
                    && reply.result.Success? && reply.result.alarm.Some?
                    && reply.result.alarm == Alarms.MapRowToAlarm(Alarms.RowFor(service.alarms.rows, g.args.0, user.value.userId))
                    && service.Broadcasted(user.value.userId, AlarmSync.AlarmUpdatedEvent,
                                           Sockets.AlarmData(reply.result.alarm.value), socketId,
                                           AlarmSync.UpdateOperation, g.args.0, None, at)))
    {
      var g := UpdateGate(user, id, body, strNum);
      if g.Respond? {
        return Early(g.status, g.message);
      }
      var r := service.UpdateAlarm(g.args.0, user.value.userId, g.args.1, socketId, None, now, at);
      reply := Served(ByIdStatus(r), r);
    }

    /** `deleteAlarm`. */
    method DeleteAlarm(user: Option<AuthUser>, id: string, socketId: Option<string>, at: Time) returns (reply: Reply)
      requires service.Valid()
      modifies service.alarms, service.devices, service.sockets, service.push
      ensures service.Valid()
      ensures var g := IdGate(user, id);
        && (g.Respond? ==> reply == Early(g.status, g.message)
                           && unchanged(service.alarms, service.devices, service.sockets, service.push))
        && (g.Proceed? ==>
              && reply.Served? && reply.status == ByIdStatus(reply.result)
              && (reply.status == 404 <==> Alarms.RowFor(old(service.alarms.rows), g.args, user.value.userId).None?)
              && (reply.status == 404 ==> service.alarms.rows == old(service.alarms.rows)
                                          && unchanged(service.devices, service.sockets, service.push))
              && (reply.status == 200 ==>
                    && service.alarms.rows == Alarms.DeleteRows(old(service.alarms.rows), g.args, user.value.userId)
                    && service.Broadcasted(user.value.userId, AlarmSync.AlarmDeletedEvent, Sockets.DeletedId(g.args),
                                           socketId, AlarmSync.DeleteOperation, g.args, None, at)))
    {
      var g := IdGate(user, id);
      if g.Respond? {
        return Early(g.status, g.message);
      }
      var r := service.DeleteAlarm(g.args, user.value.userId, socketId, None, at);
      reply := Served(ByIdStatus(r), r);
    }

    /** `getAlarm`. */
    method GetAlarm(user: Option<AuthUser>, id: string) returns (reply: Reply)
      requires service.Valid()
      ensures var g := IdGate(user, id);
        && (g.Respond? ==> reply == Early(g.status, g.message))
        && (g.Proceed? ==>
              && reply.Served? && reply.status == ByIdStatus(reply.result)
              && (reply.status == 404 <==> Alarms.RowFor(service.alarms.rows, g.args, user.value.userId).None?)
              && (reply.status == 200 ==>
                    reply.result.Success? && reply.result.alarm == Alarms.MapRowToAlarm(Alarms.RowFor(service.alarms.rows, g.args, user.value.userId))))
    {
      var g := IdGate(user, id);
      if g.Respond? {
        return Early(g.status, g.message);
      }
      var r := service.GetAlarm(g.args, user.value.userId);
      reply := Served(ByIdStatus(r), r);
    }

    /** `getAllAlarms`. */
    method GetAllAlarms(user: Option<AuthUser>) returns (reply: Reply)
      requires service.Valid()
      ensures user.None? ==> reply == Early(401, NotAuthenticated)
      ensures user.Some? ==>
                && reply.Served? && reply.status == 200 && reply.result.AlarmList?
                && multiset(reply.result.alarms) == multiset(Alarms.DecodeAll(Alarms.RowsOf(service.alarms.rows, user.value.userId)))
                && (forall a :: a in reply.result.alarms ==> a.userId == Some(user.value.userId))
                && Alarms.InTimeOrder(reply.result.alarms)
    {
      if user.None? {
        return Early(401, NotAuthenticated);
      }
      var r := service.GetAllAlarms(user.value.userId);
      reply := Served(ListStatus(r), r);
    }

    /** `toggleActive`. */
    method ToggleActive(user: Option<AuthUser>, id: string, body: Body, socketId: Option<string>, now: Time, at: Time)
      returns (reply: Reply)
      requires service.Valid()
      modifies service.alarms, service.devices, service.sockets, service.push
      ensures service.Valid()
      ensures var g := ToggleGate(user, id, body);
        && (g.Respond? ==> reply == Early(g.status, g.message)
                           && unchanged(service.alarms, service.devices, service.sockets, service.push))
        && (g.Proceed? ==>
              && reply.Served? && reply.status == ByIdStatus(reply.result)
              && (reply.status == 404 <==> Alarms.RowFor(old(service.alarms.rows), g.args.0, user.value.userId).None?)
              && (reply.status == 404 ==> service.alarms.rows == old(service.alarms.rows)
                                          && unchanged(service.devices, service.sockets, service.push))
              && (reply.status == 200 ==>
                    && service.alarms.rows == Alarms.ToggleRows(old(service.alarms.rows), g.args.0, user.value.userId, g.args.1, now)
                    && reply.result.Success? && reply.result.alarm.Some?
                    && reply.result.alarm == Alarms.MapRowToAlarm(Alarms.RowFor(service.alarms.rows, g.args.0, user.value.userId))
                    && reply.result.alarm.value.isActive == Some(g.args.1)
                    && service.Broadcasted(user.value.userId, AlarmSync.AlarmUpdatedEvent,
                                           Sockets.AlarmData(reply.result.alarm.value), socketId,
                                           AlarmSync.UpdateOperation, g.args.0, None, at)))
    {
      var g := ToggleGate(user, id, body);
      if g.Respond? {
        return Early(g.status, g.message);
      }
      var r := service.ToggleAlarmActive(g.args.0, user.value.userId, g.args.1, socketId, None, now, at);
      reply := Served(ByIdStatus(r), r);
    }

    /** `syncAlarms`. */
    method SyncAlarms(user: Option<AuthUser>, body: Body, clock: AlarmSync.SyncClock, insertOk: bool)
      returns (reply: Reply)
      requires service.Valid()
      requires SyncGate(user, body).Proceed? ==> |clock.writes| == |SyncGate(user, body).args.2|
      modifies service.alarms, service.devices
      ensures service.Valid()
      ensures var g := SyncGate(user, body);
        && (g.Respond? ==> reply == Early(g.status, g.message) && service.alarms.rows == old(service.alarms.rows)
                           && service.devices.rows == old(service.devices.rows))
        && (g.Proceed? ==>
              && reply.Served? && reply.status == ListStatus(reply.result)
              && (service.alarms.Snap(), service.devices.Snap(), reply.result)
                 == AlarmSync.Sync(old(service.alarms.Snap()), old(service.devices.Snap()),
                                   g.args.0, g.args.1, g.args.2, clock, insertOk))
    {
      var g := SyncGate(user, body);
      if g.Respond? {
        return Early(g.status, g.message);
      }
      var r := service.SyncAlarms(g.args.0, g.args.1, g.args.2, clock, insertOk);
      reply := Served(ListStatus(r), r);
    }
  }
}
