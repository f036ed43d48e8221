/** GET /api/driver: every driver document of the by_phoneNumber view (up
    to 101 rows), projected into the driver records of the admin page. The
    view is only queried when both store credentials are configured. */
module DriverRoute {
  import opened Outcomes
  import opened Text
  import opened CivilDate
  import opened IsoDate
  import opened JsValues
  import opened CouchView

  /** The fixed query of the view request. */
  const ViewQuery: seq<(string, string)> :=
    [("include_docs", "true"), ("inclusive_end", "true"), ("skip", "0"), ("limit", "101"), ("reduce", "false")]

  const NotConfigured := "CouchDB credentials not configured"
  const FetchFailed := "Failed to fetch drivers"

  /** `process.env.X || ''`: an unset variable reads as the empty string. */
  function EnvOrEmpty(v: Option<string>): string {
    if v.Some? then v.value else ""
  }

  /** The guard: both the user name and the password must be non-empty. */
  predicate CredentialsConfigured(username: Option<string>, password: Option<string>) {
    EnvOrEmpty(username) != "" && EnvOrEmpty(password) != ""
  }

  datatype Driver = Driver(
    id: JsValue, name: JsValue, idNumber: JsValue, description: JsValue, status: string,
    phone: JsValue, email: JsValue, vehicle: JsValue, joinDate: JsValue)

  /** `row.doc.<field> || ''`. */
  function TextField(doc: JsValue, field: string): JsValue {
    OrElse(OptMember(doc, field), Str(""))
  }

  /** The map callback: `row.id`, then the fields of `row.doc` (read unguarded,
      so a nullish row or document throws a TypeError); `today` is the UTC
      date of the moment of the request. */
  function ProjectDriver(row: JsValue, today: Date): (r: Result<Driver>)
    requires Valid(today)
    ensures r.Ok? <==> !Nullish(row) && !Nullish(OptMember(row, "doc"))
    ensures r.Ok? ==> r.value.id == OptMember(row, "id")
  {
    match Member(row, "id")
    case Err(e) => Err(e)
    case Ok(id) =>
      var doc := OptMember(row, "doc");
      if Nullish(doc) then Err(TypeError(doc, "nickname"))
      else
        Ok(Driver(
          id,
          TextField(doc, "nickname"),
          TextField(doc, "driverId"),
          TextField(doc, "desc"),
          if OptMember(doc, "status") == Str("OFFLINE") then "inactive" else "active",
          TextField(doc, "phoneNumber"),
          TextField(doc, "email"),
          TextField(doc, "vehicle"),
          OrElse(OptMember(doc, "joinDate"), Str(Format(today)))))
  }

  datatype DriverResponse =
    | Drivers(drivers: seq<Driver>)
    | Failure(status: int, error: string)

  /** The message of the Error thrown for a response that is not ok. */
  function StatusError(status: int, statusText: string): string {
    "CouchDB Error: " + Decimal(status) + " " + statusText
  }

  /** `err.message || "Failed to fetch drivers"`. */
  function CaughtMessage(message: string): string {
    if message != "" then message else FetchFailed
  }

  /** The answer for the configured credentials, the outcome of the view
      request and the current UTC date. */
  function Respond(username: Option<string>, password: Option<string>, fetch: FetchOutcome, today: Date): DriverResponse
    requires Valid(today)
  {
    if !CredentialsConfigured(username, password) then Failure(500, NotConfigured)
    else
      match fetch
      case Threw(m) => Failure(500, CaughtMessage(m))
      case Responded(ok, status, statusText, data) =>
        if !ok then Failure(500, CaughtMessage(StatusError(status, statusText)))
        else
          match RowsOf(data)
          case Err(e) => Failure(500, CaughtMessage(e))
          case Ok(rows) =>
            match MapRows(rows, row => ProjectDriver(row, today))
            case Err(e) => Failure(500, CaughtMessage(e))
            case Ok(drivers) => Drivers(drivers)
  }

  // ---------------------------------------------------------------------------
  // Properties

  /** Missing credentials answer 500 whatever the store would have said: the
      view is not queried. */
  lemma GuardBeforeFetch(username: Option<string>, password: Option<string>, f1: FetchOutcome, f2: FetchOutcome, today: Date)
    requires Valid(today) && !CredentialsConfigured(username, password)
    ensures Respond(username, password, f1, today) == Failure(500, NotConfigured)
    ensures Respond(username, password, f1, today) == Respond(username, password, f2, today)
  {
  }

  /** The guard fails exactly when a variable is unset or empty. */
  lemma GuardIff(username: Option<string>, password: Option<string>)
    ensures !CredentialsConfigured(username, password)
      <==> username in {None, Some("")} || password in {None, Some("")}
  {
  }

  /** A driver is inactive exactly when its document's status is the string
      "OFFLINE" (compared strictly: "offline" or a missing status is active). */
  lemma StatusRule(row: JsValue, today: Date)
    requires Valid(today) && ProjectDriver(row, today).Ok?
    ensures ProjectDriver(row, today).value.status in {"inactive", "active"}
    ensures ProjectDriver(row, today).value.status == "inactive"
      <==> OptMember(OptMember(row, "doc"), "status") == Str("OFFLINE")
  {
  }

  /** Text fields keep a truthy value and become "" otherwise; the join date
      keeps a truthy value and is today's date otherwise, so it is never empty. */
  lemma FieldDefaults(row: JsValue, today: Date, field: string)
    requires Valid(today) && ProjectDriver(row, today).Ok?
    requires field in {"nickname", "driverId", "desc", "phoneNumber", "email", "vehicle"}
    ensures var doc := OptMember(row, "doc");
      var d := ProjectDriver(row, today).value;
      var out := match field
        case "nickname" => d.name case "driverId" => d.idNumber case "desc" => d.description
        case "phoneNumber" => d.phone case "email" => d.email case _ => d.vehicle;
      && (Truthy(OptMember(doc, field)) ==> out == OptMember(doc, field))
      && (!Truthy(OptMember(doc, field)) ==> out == Str(""))
    ensures var doc := OptMember(row, "doc");
      var d := ProjectDriver(row, today).value;
      && Truthy(d.joinDate)
      && (!Truthy(OptMember(doc, "joinDate")) ==> d.joinDate == Str(Format(today)))
  {
    var s := Format(today);
    assert |s| >= 1 by {
      if 0 <= today.year <= 9999 {
        assert |s| == 10;
      } else {
        assert s == YearField(today.year) + "-" + Pad2(today.month) + "-" + Pad2(today.day);
      }
    }
  }

  /** A successful answer has one driver per row, in row order, each taking
      its id from the row rather than from the document. */
  lemma DriversShape(username: Option<string>, password: Option<string>, fetch: FetchOutcome, today: Date)
    requires Valid(today) && Respond(username, password, fetch, today).Drivers?
    ensures fetch.Responded? && fetch.ok && RowsOf(fetch.body).Ok?
    ensures var rows := RowsOf(fetch.body).value;
      var drivers := Respond(username, password, fetch, today).drivers;
      && |drivers| == |rows|
      && forall i :: 0 <= i < |rows| ==> drivers[i] == ProjectDriver(rows[i], today).value && drivers[i].id == OptMember(rows[i], "id")
  {
  }

  /** A response that is not ok is reported with its status line. */
  lemma NotOkMessage(username: Option<string>, password: Option<string>, fetch: FetchOutcome, today: Date)
    requires Valid(today) && CredentialsConfigured(username, password)
    requires fetch.Responded? && !fetch.ok
    ensures Respond(username, password, fetch, today) == Failure(500, StatusError(fetch.status, fetch.statusText))
  {
  }
}
