/** `src/app/api/vapi/webhook/route.ts`: the endpoint the voice assistant calls after a call. Only an
    end-of-call report is stored, as one `call_notes` row built from the first non-empty of a few
    places in the payload; the response says whether the insert went through. */
module VapiWebhook {
  import opened Wrappers

  /** A parsed JSON value. */
  datatype Json =
    | JNull
    | JBool(b: bool)
    | JNumber(n: real)
    | JString(s: string)
    | JArray(items: seq<Json>)
    | JObject(fields: map<string, Json>)

  /** `v?.key`, where `None` is `undefined`: only an object has named members. */
  function Member(v: Option<Json>, key: string): (r: Option<Json>)
    ensures r.Some? <==> v.Some? && v.value.JObject? && key in v.value.fields
  {
    if v.Some? && v.value.JObject? && key in v.value.fields then Some(v.value.fields[key]) else None
  }

  /** `v?.k1?.k2 ...`: undefined as soon as one step is missing. */
  function Path(v: Option<Json>, keys: seq<string>): (r: Option<Json>)
    ensures keys == [] ==> r == v
    ensures v.None? ==> r.None?
    decreases |keys|
  {
    if keys == [] then v else Path(Member(v, keys[0]), keys[1..])
  }

  /** JavaScript truthiness: undefined, null, false, 0 and '' are falsy; every object and array is
      truthy. */
  predicate Truthy(v: Option<Json>) {
    match v
    case None => false
    case Some(JNull) => false
    case Some(JBool(b)) => b
    case Some(JNumber(n)) => n != 0.0
    case Some(JString(s)) => s != ""
    case Some(_) => true
  }

  /** `c0 || c1 || ... || default`. */
  function FirstTruthy(cands: seq<Option<Json>>, default: Json): (r: Json)
    ensures Truthy(Some(r)) || r == default
  {
    if cands == [] then default
    else if Truthy(cands[0]) then cands[0].value
    else FirstTruthy(cands[1..], default)
  }

  /** The chain yields the first truthy candidate. */
  lemma {:induction false} FirstTruthyPicks(cands: seq<Option<Json>>, default: Json, i: nat)
    requires i < |cands| && Truthy(cands[i])
    requires forall j :: 0 <= j < i ==> !Truthy(cands[j])
    ensures FirstTruthy(cands, default) == cands[i].value
  {
    if i > 0 {
      FirstTruthyPicks(cands[1..], default, i - 1);
    }
  }

  /** With no truthy candidate the chain yields the default, even when a candidate is present but
      falsy (an empty string, 0, false or null). */
  lemma {:induction false} FirstTruthyDefault(cands: seq<Option<Json>>, default: Json)
    requires forall j :: 0 <= j < |cands| ==> !Truthy(cands[j])
    ensures FirstTruthy(cands, default) == default
  {
    if cands != [] {
      FirstTruthyDefault(cands[1..], default);
    }
  }

  const EndOfCallReport := "end-of-call-report"

  /** The inserted `call_notes` row. Each column holds whatever truthy JSON value was found. */
  datatype Row = Row(
    callerName: Json, callerPhone: Json, category: Json, summary: Json, transcript: Json,
    vapiCallId: Json, status: string)

  datatype Response = Response(status: int, success: bool, message: Option<string>, error: Option<string>)

  const Ignored := Response(200, true, Some("Ignored non-end-of-call-report message"), None)
  const Stored := Response(200, true, None, None)
  const InternalError := Response(500, false, None, Some("Internal server error"))

  /** `body?.message?.type === 'end-of-call-report'`. */
  predicate IsEndOfCallReport(body: Json) {
    Path(Some(body), ["message", "type"]) == Some(JString(EndOfCallReport))
  }

  function CallerPhone(body: Json): Json {
    FirstTruthy([Path(Some(body), ["message", "call", "customer", "number"]),
                 Path(Some(body), ["customer", "number"])], JString(""))
  }

  function Summary(body: Json): Json {
    FirstTruthy([Path(Some(body), ["message", "summary"]),
                 Path(Some(body), ["message", "analysis", "summary"])], JString(""))
  }

  function StructuredDataField(body: Json, key: string): Option<Json> {
    Path(Some(body), ["message", "analysis", "structuredData", key])
  }

  /** The row for an end-of-call report: every column is the first truthy place it may come from,
      else '' ('general' for the category), and the status is always 'new'. */
  function RowOf(body: Json): (r: Row)
    ensures r.status == "new"
    ensures Truthy(Some(r.category))
  {
    Row(
      FirstTruthy([StructuredDataField(body, "caller_name")], JString("")),
      CallerPhone(body),
      FirstTruthy([StructuredDataField(body, "category")], JString("general")),
      Summary(body),
      FirstTruthy([Path(Some(body), ["message", "transcript"])], JString("")),
      FirstTruthy([Path(Some(body), ["message", "call", "id"])], JString("")),
      "new")
  }

  /** No column of the row is ever null, undefined, false or 0: each is a truthy value or ''. */
  lemma RowHasNoNulls(body: Json)
    ensures var r := RowOf(body);
      (Truthy(Some(r.callerName)) || r.callerName == JString(""))
      && (Truthy(Some(r.callerPhone)) || r.callerPhone == JString(""))
      && (Truthy(Some(r.summary)) || r.summary == JString(""))
      && (Truthy(Some(r.transcript)) || r.transcript == JString(""))
      && (Truthy(Some(r.vapiCallId)) || r.vapiCallId == JString(""))
      && Truthy(Some(r.category))
  {
  }

  /** The caller's number comes from the call's customer, then from the body's customer, then ''. */
  lemma CallerPhoneFallback(body: Json)
    ensures var first := Path(Some(body), ["message", "call", "customer", "number"]);
      Truthy(first) ==> CallerPhone(body) == first.value
    ensures var first := Path(Some(body), ["message", "call", "customer", "number"]);
      var second := Path(Some(body), ["customer", "number"]);
      !Truthy(first) && Truthy(second) ==> CallerPhone(body) == second.value
    ensures var first := Path(Some(body), ["message", "call", "customer", "number"]);
      var second := Path(Some(body), ["customer", "number"]);
      !Truthy(first) && !Truthy(second) ==> CallerPhone(body) == JString("")
  {
    var first := Path(Some(body), ["message", "call", "customer", "number"]);
    var second := Path(Some(body), ["customer", "number"]);
    var cands := [first, second];
    if Truthy(first) {
      FirstTruthyPicks(cands, JString(""), 0);
    } else if Truthy(second) {
      FirstTruthyPicks(cands, JString(""), 1);
    } else {
      FirstTruthyDefault(cands, JString(""));
    }
  }

  /** The summary comes from the message, then from its analysis, then ''. */
  lemma SummaryFallback(body: Json)
    ensures var first := Path(Some(body), ["message", "summary"]);
      Truthy(first) ==> Summary(body) == first.value
    ensures var first := Path(Some(body), ["message", "summary"]);
      var second := Path(Some(body), ["message", "analysis", "summary"]);
      !Truthy(first) && Truthy(second) ==> Summary(body) == second.value
    ensures var first := Path(Some(body), ["message", "summary"]);
      var second := Path(Some(body), ["message", "analysis", "summary"]);
      !Truthy(first) && !Truthy(second) ==> Summary(body) == JString("")
  {
    var first := Path(Some(body), ["message", "summary"]);
    var second := Path(Some(body), ["message", "analysis", "summary"]);
    var cands := [first, second];
    if Truthy(first) {
      FirstTruthyPicks(cands, JString(""), 0);
    } else if Truthy(second) {
      FirstTruthyPicks(cands, JString(""), 1);
    } else {
      FirstTruthyDefault(cands, JString(""));
    }
  }

  /** A report without a category, or with an empty one, is filed as 'general'. */
  lemma CategoryDefaultsToGeneral(body: Json)
    requires !Truthy(StructuredDataField(body, "category"))
    ensures RowOf(body).category == JString("general")
  {
    FirstTruthyDefault([StructuredDataField(body, "category")], JString("general"));
  }

  /** `POST`. `body` is the parsed request (`None` when `request.json()` throws); `insertError` is
      the error the insert reports, if any. The result is the response and the row the handler
      tried to insert, if it tried. */
  function Handle(body: Option<Json>, insertError: Option<string>): (r: (Response, Option<Row>))
    ensures body.None? ==> r == (InternalError, None)
    ensures body.Some? && !IsEndOfCallReport(body.value) ==> r == (Ignored, None)
    ensures body.Some? && IsEndOfCallReport(body.value) ==> r.1 == Some(RowOf(body.value))
    ensures r.1.Some? && insertError.Some? ==> r.0 == Response(500, false, None, insertError)
    ensures r.1.Some? && insertError.None? ==> r.0 == Stored
    ensures r.0.success <==> r.0.status == 200
  {
    match body
    case None => (InternalError, None)
    case Some(b) =>
      if !IsEndOfCallReport(b) then (Ignored, None)
      else
        var row := RowOf(b);
        if insertError.Some? then (Response(500, false, None, insertError), Some(row))
        else (Stored, Some(row))
  }
}
