/** GET /api/dashboard: derives the view keys of a daily, weekly or monthly
    window from the `date` and `type` query parameters, queries the by_date
    view of the order documents and flattens its rows into order records.
    The keys are appended to the request URL's search parameters and read
    back from them for the response. */
module DashboardRoute {
  import opened Outcomes
  import opened Text
  import opened CivilDate
  import opened IsoDate
  import opened JsValues
  import opened CouchView
  import opened JsDates
  import opened DashboardWindow

  // ---------------------------------------------------------------------------
  // Request parameters

  datatype Granularity = Daily | Weekly | Monthly

  /** The `switch (type)`: the three cases it names, None for any other value. */
  function GranularityOf(kind: string): (g: Option<Granularity>)
    ensures g.Some? <==> kind in {"daily", "weekly", "monthly"}
  {
    if kind == "daily" then Some(Daily)
    else if kind == "weekly" then Some(Weekly)
    else if kind == "monthly" then Some(Monthly)
    else None
  }

  /** `searchParams.get("type") || "daily"`. */
  function KindParam(param: Option<string>): string {
    if param.Some? && param.value != "" then param.value else "daily"
  }

  /** `searchParams.get("date") || ""`. */
  function DateParam(param: Option<string>): string {
    if param.Some? then param.value else ""
  }

  /** The query string of the request URL, in insertion order. */
  class SearchParams {
    var entries: seq<(string, string)>

    constructor (initial: seq<(string, string)>)
      ensures entries == initial
    {
      entries := initial;
    }

    method Append(name: string, value: string)
      modifies this
      ensures entries == old(entries) + [(name, value)]
    {
      entries := entries + [(name, value)];
    }

    /** The first value under a name, None when there is none. */
    function Get(name: string): Option<string>
      reads this
    {
      FirstValue(entries, name)
    }
  }

  function FirstValue(entries: seq<(string, string)>, name: string): (r: Option<string>)
    ensures r.None? <==> forall i :: 0 <= i < |entries| ==> entries[i].0 != name
    ensures r.Some? ==> exists i :: 0 <= i < |entries| && entries[i] == (name, r.value)
                                 && forall j :: 0 <= j < i ==> entries[j].0 != name
  {
    if entries == [] then None
    else if entries[0].0 == name then Some(entries[0].1)
    else
      var r := FirstValue(entries[1..], name);
      FirstValueShifted(entries, name, r);
      r
  }

  /** A first match in the tail of a list whose head has another name is
      the first match of the whole list, one position later. */
  lemma FirstValueShifted(entries: seq<(string, string)>, name: string, r: Option<string>)
    requires entries != [] && entries[0].0 != name
    requires r.Some? ==> exists i :: 0 <= i < |entries[1..]| && entries[1..][i] == (name, r.value)
                                     && forall j :: 0 <= j < i ==> entries[1..][j].0 != name
    ensures r.Some? ==> exists i :: 0 <= i < |entries| && entries[i] == (name, r.value)
                                    && forall j :: 0 <= j < i ==> entries[j].0 != name
  {
  }

  // ---------------------------------------------------------------------------
  // The window keys

  /** The message of the RangeError toISOString throws for an invalid Date. */
  const InvalidTimeValue := "Invalid time value"

  /** The search parameters the switch appends for a date and a type: none
      for an unknown type, an error when a weekly or monthly window is asked
      for a date that does not read as one. */
  function WindowParams(date: string, kind: string, zone: int): (r: Result<seq<(string, string)>>)
    ensures r.Err? <==> GranularityOf(kind) in {Some(Weekly), Some(Monthly)} && Parse(date).None?
    ensures r.Ok? && GranularityOf(kind).None? ==> r.value == []
    ensures r.Ok? && GranularityOf(kind).Some? ==> |r.value| == 2 && r.value[0].0 == "start_key" && r.value[1].0 == "end_key"
  {
    match GranularityOf(kind)
    case None => Ok([])
    case Some(Daily) => Ok([("start_key", StartKey(date)), ("end_key", EndKey(date))])
    case Some(Weekly) =>
      (match Parse(date)
       case None => Err(InvalidTimeValue)
       case Some(d) =>
         var w := WeekKeys(d, zone);
         Ok([("start_key", StartKey(Format(w.first))), ("end_key", EndKey(Format(w.last)))]))
    case Some(Monthly) =>
      (match Parse(date)
       case None => Err(InvalidTimeValue)
       case Some(d) =>
         var w := MonthKeys(d, zone);
         Ok([("start_key", StartKey(Format(w.first))), ("end_key", EndKey(Format(w.last)))]))
  }

  /** The Date arithmetic of the weekly case: the Monday of the reference
      date's local week and the Sunday six days later, found by moving copies
      of the Date with setDate. */
  method WeekBounds(d: Date, zone: int) returns (monday: JsDate, sunday: JsDate)
    requires Valid(d)
    ensures monday.IsoDatePart() == WeekKeys(d, zone).first
    ensures sunday.IsoDatePart() == WeekKeys(d, zone).last
  {
    var dates := new JsDate.AtUtcMidnight(d);
    var day := if dates.GetDay(zone) == 0 then 7 else dates.GetDay(zone);
    monday := new JsDate.Copy(dates);
    monday.SetDate(dates.GetDate(zone) - (day - 1), zone);
    sunday := new JsDate.Copy(monday);
    sunday.SetDate(monday.GetDate(zone) + 6, zone);
    WeekKeysByInstants(d, zone, monday.time, sunday.time);
  }

  /** The weekly case: the keys of the week's Monday and Sunday. */
  method AppendWeekKeys(params: SearchParams, d: Date, zone: int)
    requires Valid(d)
    modifies params
    ensures params.entries == old(params.entries)
      + [("start_key", StartKey(Format(WeekKeys(d, zone).first))), ("end_key", EndKey(Format(WeekKeys(d, zone).last)))]
  {
    var monday, sunday := WeekBounds(d, zone);
    params.Append("start_key", StartKey(Format(monday.IsoDatePart())));
    params.Append("end_key", EndKey(Format(sunday.IsoDatePart())));
  }

  /** The monthly case: day 2 of the month and day 1 of the next one, built
      with the Date constructor from the local year and month index. */
  method AppendMonthKeys(params: SearchParams, d: Date, zone: int)
    requires Valid(d)
    modifies params
    ensures params.entries == old(params.entries)
      + [("start_key", StartKey(Format(MonthKeys(d, zone).first))), ("end_key", EndKey(Format(MonthKeys(d, zone).last)))]
  {
    var firstDay, lastDay := MonthBounds(d, zone);
    params.Append("start_key", StartKey(Format(firstDay.IsoDatePart())));
    params.Append("end_key", EndKey(Format(lastDay.IsoDatePart())));
  }

  /** The Date objects of the monthly window, built from the local year and month index. */
  method MonthBounds(d: Date, zone: int) returns (firstDay: JsDate, lastDay: JsDate)
    requires Valid(d)
    ensures firstDay.IsoDatePart() == MonthKeys(d, zone).first
    ensures lastDay.IsoDatePart() == MonthKeys(d, zone).last
  {
    var dates := new JsDate.AtUtcMidnight(d);
    firstDay := new JsDate.AtLocalMidnight(dates.GetFullYear(zone), dates.GetMonth(zone), 2, zone);
    lastDay := new JsDate.AtLocalMidnight(dates.GetFullYear(zone), dates.GetMonth(zone) + 1, 1, zone);
    MonthKeysByInstants(d, zone, firstDay.time, lastDay.time);
  }

  /** The `switch (type)` of the route: appends the window's keys, or fails
      with the RangeError of toISOString when the date does not read as one. */
  method AppendWindowKeys(params: SearchParams, date: string, kind: string, zone: int) returns (r: Result<()>)
    modifies params
    ensures r.Ok? <==> WindowParams(date, kind, zone).Ok?
    ensures r.Err? ==> r.message == InvalidTimeValue
    ensures params.entries == old(params.entries) + (if r.Ok? then WindowParams(date, kind, zone).value else [])
  {
    var g := GranularityOf(kind);
    if g == Some(Daily) {
      params.Append("start_key", StartKey(date));
      params.Append("end_key", EndKey(date));
      return Ok(());
    }
    if g.None? {
      return Ok(());
    }
    var parsed := Parse(date);
    if parsed.None? {
      return Err(InvalidTimeValue);
    }
    if g == Some(Weekly) {
      AppendWeekKeys(params, parsed.value, zone);
    } else {
      AppendMonthKeys(params, parsed.value, zone);
    }
    return Ok(());
  }

  // ---------------------------------------------------------------------------
  // Flattening the view rows

  /** One order as the dashboard receives it. Fields the document lacks stay
      undefined (JSON serialisation then omits them). */
  datatype DashOrder = DashOrder(id: JsValue, date: JsValue, total: int, customer: JsValue, status: JsValue)

  /** The map callback: `item.doc` and `doc._id` are read unguarded, so a
      nullish row or document throws a TypeError. */
  function ProjectRow(item: JsValue): (r: Result<DashOrder>)
    ensures r.Ok? <==> !Nullish(item) && !Nullish(OptMember(item, "doc"))
    ensures r.Ok? ==> r.value.total == 1
  {
    match Member(item, "doc")
    case Err(e) => Err(e)
    case Ok(doc) =>
      match Member(doc, "_id")
      case Err(e) => Err(e)
      case Ok(id) =>
        Ok(DashOrder(
          id,
          Coalesce(OptMember(doc, "date"), Str("-")),
          1,
          Coalesce(OptMember(OptMember(doc, "orderData"), "nama"), Str("-")),
          Coalesce(OptMember(doc, "status"), Str("unknown"))))
  }

  /** The id is the document's `_id`; `??` replaces only a missing value: an
      empty date or name is kept, and a missing one becomes "-" (`orderData?.`
      makes a missing `orderData` a missing name). */
  lemma ProjectRowDefaults(item: JsValue)
    requires ProjectRow(item).Ok?
    ensures var doc := OptMember(item, "doc");
      && ProjectRow(item).value.id == OptMember(doc, "_id")
      && ProjectRow(item).value.date == (if Nullish(OptMember(doc, "date")) then Str("-") else OptMember(doc, "date"))
      && (OptMember(doc, "date") == Str("") ==> ProjectRow(item).value.date == Str(""))
      && ProjectRow(item).value.customer == (if Nullish(OptMember(OptMember(doc, "orderData"), "nama")) then Str("-") else OptMember(OptMember(doc, "orderData"), "nama"))
      && (OptMember(OptMember(doc, "orderData"), "nama") == Str("") ==> ProjectRow(item).value.customer == Str(""))
      && (Nullish(OptMember(doc, "orderData")) ==> ProjectRow(item).value.customer == Str("-"))
      && (ProjectRow(item).value.status == Str("unknown") <==> OptMember(doc, "status") in {Undefined, Null, Str("unknown")})
  {
  }

  // ---------------------------------------------------------------------------
  // The handler

  datatype DashboardResponse =
    | Orders(orders: seq<DashOrder>, startKey: Option<string>, endKey: Option<string>)
    | Failure(status: int, error: string)

  const FetchFailed := "Failed to fetch from CouchDB"

  /** The fixed query of the view URL. */
  const BaseParams: seq<(string, string)> := [("reduce", "false"), ("include_docs", "true")]

  /** What the handler answers, in the order its steps can fail. */
  function Respond(dateParam: Option<string>, typeParam: Option<string>, zone: int, fetch: FetchOutcome): DashboardResponse {
    var date := DateParam(dateParam);
    var kind := KindParam(typeParam);
    match WindowParams(date, kind, zone)
    case Err(e) => Failure(500, e)
    case Ok(keys) =>
      match fetch
      case Threw(m) => Failure(500, m)
      case Responded(ok, _, _, body) =>
        if !ok then Failure(500, FetchFailed)
        else
          match RowsOf(body)
          case Err(e) => Failure(500, e)
          case Ok(rows) =>
            match MapRows(rows, ProjectRow)
            case Err(e) => Failure(500, e)
            case Ok(orders) =>
              Orders(orders, FirstValue(BaseParams + keys, "start_key"), FirstValue(BaseParams + keys, "end_key"))
  }

  /** GET /api/dashboard. The view request is the `fetch` outcome. */
  method Get(dateParam: Option<string>, typeParam: Option<string>, zone: int, fetch: FetchOutcome)
    returns (resp: DashboardResponse)
    ensures resp == Respond(dateParam, typeParam, zone, fetch)
  {
    var date := DateParam(dateParam);
    var kind := KindParam(typeParam);
    var params := new SearchParams(BaseParams);
    var window := AppendWindowKeys(params, date, kind, zone);
    if window.Err? {
      return Failure(500, window.message);
    }
    if fetch.Threw? {
      return Failure(500, fetch.message);
    }
    if !fetch.ok {
      return Failure(500, FetchFailed);
    }
    var rows := RowsOf(fetch.body);
    if rows.Err? {
      return Failure(500, rows.message);
    }
    var orders := MapRows(rows.value, ProjectRow);
    if orders.Err? {
      return Failure(500, orders.message);
    }
    return Orders(orders.value, params.Get("start_key"), params.Get("end_key"));
  }

  // ---------------------------------------------------------------------------
  // Properties of the handler

  /** The keys a weekly or monthly window appends, for a date that reads as one. */
  lemma WindowParamsOf(date: string, kind: string, zone: int)
    requires GranularityOf(kind) in {Some(Weekly), Some(Monthly)} && Parse(date).Some?
    ensures var w := if GranularityOf(kind) == Some(Weekly) then WeekKeys(Parse(date).value, zone)
                     else MonthKeys(Parse(date).value, zone);
      WindowParams(date, kind, zone) == Ok([("start_key", StartKey(Format(w.first))), ("end_key", EndKey(Format(w.last)))])
  {
  }

  lemma FirstValueOfKeys(keys: seq<(string, string)>, name: string)
    requires |keys| == 2 && keys[0].0 == "start_key" && keys[1].0 == "end_key"
    requires name in {"start_key", "end_key"}
    ensures FirstValue(BaseParams + keys, name) == Some(if name == "start_key" then keys[0].1 else keys[1].1)
  {
    var all := BaseParams + keys;
    assert all[1..] == [all[1]] + keys;
    assert all[2..] == keys;
    assert keys[1..] == [keys[1]];
  }

  /** A successful answer echoes the first `start_key` and `end_key` of the
      request's search parameters. */
  lemma RespondEchoesParams(dateParam: Option<string>, typeParam: Option<string>, zone: int, fetch: FetchOutcome)
    requires Respond(dateParam, typeParam, zone, fetch).Orders?
    ensures WindowParams(DateParam(dateParam), KindParam(typeParam), zone).Ok?
    ensures var keys := WindowParams(DateParam(dateParam), KindParam(typeParam), zone).value;
      var r := Respond(dateParam, typeParam, zone, fetch);
      r.startKey == FirstValue(BaseParams + keys, "start_key") && r.endKey == FirstValue(BaseParams + keys, "end_key")
  {
  }

  /** Every failure is a 500 with a message. */
  lemma FailuresAre500(dateParam: Option<string>, typeParam: Option<string>, zone: int, fetch: FetchOutcome)
    ensures Respond(dateParam, typeParam, zone, fetch).Failure? ==> Respond(dateParam, typeParam, zone, fetch).status == 500
  {
  }

  /** A weekly or monthly request for a date that does not read as one fails
      with the RangeError before the view is queried. */
  lemma InvalidDateFailsFirst(dateParam: Option<string>, typeParam: Option<string>, zone: int, fetch: FetchOutcome)
    requires KindParam(typeParam) in {"weekly", "monthly"} && Parse(DateParam(dateParam)).None?
    ensures Respond(dateParam, typeParam, zone, fetch) == Failure(500, InvalidTimeValue)
  {
  }

  /** The keys echoed back: none for an unknown type (the view is then read
      unbounded), the date's own keys for a daily request, and each key
      carrying the date it was built from. */
  lemma EchoedKeys(dateParam: Option<string>, typeParam: Option<string>, zone: int, fetch: FetchOutcome)
    requires Respond(dateParam, typeParam, zone, fetch).Orders?
    ensures var r := Respond(dateParam, typeParam, zone, fetch);
      && (GranularityOf(KindParam(typeParam)).None? <==> r.startKey.None? && r.endKey.None?)
      && (KindParam(typeParam) == "daily" ==>
            r.startKey == Some(StartKey(DateParam(dateParam))) && r.endKey == Some(EndKey(DateParam(dateParam))))
  {
    RespondEchoesParams(dateParam, typeParam, zone, fetch);
    var keys := WindowParams(DateParam(dateParam), KindParam(typeParam), zone).value;
    if GranularityOf(KindParam(typeParam)).Some? {
      FirstValueOfKeys(keys, "start_key");
      FirstValueOfKeys(keys, "end_key");
    } else {
      assert BaseParams + keys == BaseParams;
    }
  }

  /** A weekly request answers with the keys of the week's first and last day. */
  lemma WeeklyKeys(dateParam: Option<string>, typeParam: Option<string>, zone: int, fetch: FetchOutcome)
    requires Respond(dateParam, typeParam, zone, fetch).Orders? && KindParam(typeParam) == "weekly"
    ensures Parse(DateParam(dateParam)).Some?
    ensures var w := WeekKeys(Parse(DateParam(dateParam)).value, zone);
      var r := Respond(dateParam, typeParam, zone, fetch);
      r.startKey == Some(StartKey(Format(w.first))) && r.endKey == Some(EndKey(Format(w.last)))
  {
    RespondEchoesParams(dateParam, typeParam, zone, fetch);
    var date := DateParam(dateParam);
    var keys := WindowParams(date, KindParam(typeParam), zone).value;
    WindowParamsOf(date, KindParam(typeParam), zone);
    FirstValueOfKeys(keys, "start_key");
    FirstValueOfKeys(keys, "end_key");
  }

  /** A monthly request answers with the keys of the month window's first and last day. */
  lemma MonthlyKeys(dateParam: Option<string>, typeParam: Option<string>, zone: int, fetch: FetchOutcome)
    requires Respond(dateParam, typeParam, zone, fetch).Orders? && KindParam(typeParam) == "monthly"
    ensures Parse(DateParam(dateParam)).Some?
    ensures var w := MonthKeys(Parse(DateParam(dateParam)).value, zone);
      var r := Respond(dateParam, typeParam, zone, fetch);
      r.startKey == Some(StartKey(Format(w.first))) && r.endKey == Some(EndKey(Format(w.last)))
  {
    RespondEchoesParams(dateParam, typeParam, zone, fetch);
    var date := DateParam(dateParam);
    var keys := WindowParams(date, KindParam(typeParam), zone).value;
    WindowParamsOf(date, KindParam(typeParam), zone);
    FirstValueOfKeys(keys, "start_key");
    FirstValueOfKeys(keys, "end_key");
  }

  /** One order per row of the view, each counting 1. */
  lemma OneOrderPerRow(dateParam: Option<string>, typeParam: Option<string>, zone: int, fetch: FetchOutcome)
    requires Respond(dateParam, typeParam, zone, fetch).Orders?
    ensures fetch.Responded? && fetch.ok && RowsOf(fetch.body).Ok?
    ensures var orders := Respond(dateParam, typeParam, zone, fetch).orders;
      |orders| == |RowsOf(fetch.body).value| && forall i :: 0 <= i < |orders| ==> orders[i].total == 1
  {
  }
}
