/** The alarm payload middleware (src/middleware/validateAlarmPayload.ts),
    which runs before the create and update handlers. It reads `days` from a
    JSON string when a string is sent, writes the parsed value back into the
    request body, and lets the request through only when `days` (if present)
    is an array of weekday numbers and `no_repeat` (if present) is a
    boolean. `JSON.parse` is a parameter: `None` stands for the exception it
    throws on malformed text. */
module PayloadValidation {
  import opened Common
  import opened Json

  /** `next()`, or the error response sent instead. */
  datatype Verdict = Next | Reject(status: int, message: string)

  const BadDaysText := "Field 'days' must be a valid JSON array string if provided as a string."
  const BadDays := "Invalid days format. Must be an array of integers (0-6, Sunday is 0)."
  const BadNoRepeat := "Invalid no_repeat value. It must be a boolean."

  /** `Number.isInteger(day) && day >= 0 && day <= 6`. */
  predicate IsWeekday(v: Json)
  {
    IsInteger(v) && 0.0 <= v.n <= 6.0
  }

  /** `Array.isArray(days) && days.every(IsWeekday)`. */
  predicate DaysOk(v: Json)
  {
    v.JArr? && forall i :: 0 <= i < |v.items| ==> IsWeekday(v.items[i])
  }

  /** The value the days check looks at: a string goes through `JSON.parse`
      (`None` when that throws), anything else is taken as it is. */
  function ParsedDays(v: Json, parse: string -> Option<Json>): (r: Option<Json>)
    ensures !v.JStr? ==> r == Some(v)
    ensures v.JStr? ==> r == parse(v.s)
  {
    if v.JStr? then parse(v.s) else Some(v)
  }

  /** What the middleware lets through, stated on its own: days absent, or
      readable and a list of weekdays; and no_repeat absent or a boolean. */
  predicate Acceptable(body: Body, parse: string -> Option<Json>)
  {
    ("days" in body ==> ParsedDays(body["days"], parse).Some? && DaysOk(ParsedDays(body["days"], parse).value))
    && ("no_repeat" in body ==> body["no_repeat"].JBool?)
  }

  /** The `no_repeat` check, the last one. */
  function CheckNoRepeat(body: Body): (r: (Verdict, Body))
    ensures r.1 == body
    ensures r.0.Next? <==> ("no_repeat" in body ==> body["no_repeat"].JBool?)
    ensures r.0.Reject? ==> r.0 == Reject(400, BadNoRepeat)
  {
    if "no_repeat" in body && !body["no_repeat"].JBool? then (Reject(400, BadNoRepeat), body)
    else (Next, body)
  }

  /** `validateAlarmPayload` on the request body: the verdict and the body
      as the handler after it sees it. A parsed `days` string is replaced by
      its value, even when that value is then refused; nothing else in the
      body changes, and missing days skips the days checks entirely. */
  function Check(body: Body, parse: string -> Option<Json>): (r: (Verdict, Body))
    ensures r.1.Keys == body.Keys
    ensures forall k :: k in body && k != "days" ==> r.1[k] == body[k]
    ensures "days" in body && ParsedDays(body["days"], parse).Some? ==> r.1["days"] == ParsedDays(body["days"], parse).value
    ensures "days" in body && ParsedDays(body["days"], parse).None? ==> r.1["days"] == body["days"]
    ensures "days" !in body ==> r == CheckNoRepeat(body)
  {
    if "days" in body then
      var d := body["days"];
      if d.JStr? then
        match parse(d.s)
        case None => (Reject(400, BadDaysText), body)
        case Some(p) =>
          var parsed := body["days" := p];
          if !DaysOk(p) then (Reject(400, BadDays), parsed) else CheckNoRepeat(parsed)
      else if !DaysOk(d) then (Reject(400, BadDays), body)
      else CheckNoRepeat(body)
    else CheckNoRepeat(body)
  }

  /** `next()` is called exactly when every check passes; each failure has
      its own message, all with status 400, and the days checks come first. */
  lemma CheckVerdict(body: Body, parse: string -> Option<Json>)
    ensures var r := Check(body, parse);
      (r.0.Next? <==> Acceptable(body, parse))
      && (r.0 == Reject(400, BadDaysText) <==> "days" in body && ParsedDays(body["days"], parse).None?)
      && (r.0 == Reject(400, BadDays) <==>
            "days" in body && ParsedDays(body["days"], parse).Some? && !DaysOk(ParsedDays(body["days"], parse).value))
      && (r.0 == Reject(400, BadNoRepeat) <==>
            ("days" in body ==> ParsedDays(body["days"], parse).Some? && DaysOk(ParsedDays(body["days"], parse).value))
            && "no_repeat" in body && !body["no_repeat"].JBool?)
  {
    var r := Check(body, parse);
    if "days" in body && body["days"].JStr? && parse(body["days"].s).Some? {
      var parsed := body["days" := parse(body["days"].s).value];
      assert "no_repeat" in parsed <==> "no_repeat" in body;
      assert "no_repeat" in body ==> parsed["no_repeat"] == body["no_repeat"];
    }
  }

  /** A body the middleware let through passes it again unchanged: its days
      are no longer a string, so nothing is parsed a second time. */
  lemma CheckStable(body: Body, parse: string -> Option<Json>)
    requires Check(body, parse).0.Next?
    ensures var b := Check(body, parse).1;
      Check(b, parse) == (Next, b) && ("days" in b ==> DaysOk(b["days"]))
  {
    CheckVerdict(body, parse);
  }

  /** The request as the middleware sees it. */
  class Request {
    var body: Body

    constructor (body: Body)
      ensures this.body == body
    {
      this.body := body;
    }

    /** `validateAlarmPayload`: the parsed days are written back into the
        body in place before the range check. */
    method ValidateAlarmPayload(parse: string -> Option<Json>) returns (v: Verdict)
      modifies this
      ensures (v, body) == Check(old(body), parse)
    {
      var daysValue: Option<Json> := if "days" in body then Some(body["days"]) else None;
      if daysValue.Some? {
        if daysValue.value.JStr? {
          var parsed := parse(daysValue.value.s);
          if parsed.None? {
            return Reject(400, BadDaysText);
          }
          daysValue := parsed;
          body := body["days" := parsed.value];
        }
        if !DaysOk(daysValue.value) {
          return Reject(400, BadDays);
        }
      }
      if "no_repeat" in body && !body["no_repeat"].JBool? {
        return Reject(400, BadNoRepeat);
      }
      v := Next;
    }
  }
}
