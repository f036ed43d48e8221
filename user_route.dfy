/** GET /api/user: one page of the customer documents. The `page` and
    `limit` query parameters are read with parseInt, turned into the view's
    skip/limit window, and echoed back with the row total and the page count. */
module UserRoute {
  import opened Outcomes
  import opened Text
  import opened JsValues
  import opened CouchView

  // ---------------------------------------------------------------------------
  // Pagination

  /** `parseInt(searchParams.get(name) || fallback, 10)`; None is NaN. */
  function NumberParam(param: Option<string>, fallback: string): Option<int> {
    ParseInt(if param.Some? && param.value != "" then param.value else fallback)
  }

  function PageOf(param: Option<string>): Option<int> {
    NumberParam(param, "1")
  }

  function LimitOf(param: Option<string>): Option<int> {
    NumberParam(param, "10")
  }

  /** `(page - 1) * limit`; NaN when either is NaN. */
  function Skip(page: Option<int>, limit: Option<int>): (r: Option<int>)
    ensures r.Some? <==> page.Some? && limit.Some?
  {
    if page.Some? && limit.Some? then Some((page.value - 1) * limit.value) else None
  }

  /** A number as a template literal writes it. */
  function NumberText(v: Option<int>): string {
    if v.Some? then Decimal(v.value) else "NaN"
  }

  /** The query of the by_phoneNumber view request. */
  function ViewQuery(page: Option<int>, limit: Option<int>): seq<(string, string)> {
    [("reduce", "false"), ("include_docs", "true"), ("skip", NumberText(Skip(page, limit))), ("limit", NumberText(limit))]
  }

  /** Math.ceil(n / d) for a non-zero integer divisor. */
  function CeilDiv(n: int, d: int): (q: int)
    requires d != 0
    ensures d > 0 ==> (q - 1) * d < n <= q * d
    ensures d < 0 ==> q * d <= n < (q - 1) * d
  {
    if d > 0 then -((-n) / d) else -(n / (-d))
  }

  /** `Math.ceil(total / limit)`, None where JavaScript gets NaN or an infinity
      (which JSON writes as null): a zero or NaN limit. */
  function TotalPages(total: JsValue, limit: Option<int>): (r: Option<int>)
    ensures r.Some? <==> total.Num? && limit.Some? && limit.value != 0
  {
    if total.Num? && limit.Some? && limit.value != 0 then Some(CeilDiv(total.n, limit.value)) else None
  }

  // ---------------------------------------------------------------------------
  // Projection

  datatype Customer = Customer(id: JsValue, name: JsValue, phone: JsValue, status: JsValue)

  /** The map callback: `item.doc` and `doc._id` are read unguarded; the other
      fields fall back with `||`. */
  function ProjectCustomer(item: JsValue): (r: Result<Customer>)
    ensures r.Ok? <==> !Nullish(item) && !Nullish(OptMember(item, "doc"))
    ensures r.Ok? ==> r.value.id == OptMember(OptMember(item, "doc"), "_id")
  {
    match Member(item, "doc")
    case Err(e) => Err(e)
    case Ok(doc) =>
      match Member(doc, "_id")
      case Err(e) => Err(e)
      case Ok(id) =>
        Ok(Customer(
          id,
          OrElse(OptMember(doc, "name"), Str("Unknown")),
          OrElse(OptMember(doc, "phoneNumber"), Str("-")),
          OrElse(OptMember(doc, "status"), Str("inactive"))))
  }

  // ---------------------------------------------------------------------------
  // The handler

  datatype UserResponse =
    | Listing(page: Option<int>, limit: Option<int>, total: JsValue, totalPages: Option<int>, customers: seq<Customer>)
    | Failure(status: int, error: string)

  const FetchFailed := "Gagal mengambil data"
  const ServerError := "Server error"

  /** The answer for the query parameters and the outcome of the view request
      (whose query is ViewQuery of the parsed parameters). Every thrown error
      is answered with the same message. */
  function Respond(pageParam: Option<string>, limitParam: Option<string>, fetch: FetchOutcome): UserResponse {
    var page := PageOf(pageParam);
    var limit := LimitOf(limitParam);
    match fetch
    case Threw(_) => Failure(500, ServerError)
    case Responded(ok, _, _, data) =>
      if !ok then Failure(500, FetchFailed)
      else
        match RowsOf(data)
        case Err(_) => Failure(500, ServerError)
        case Ok(rows) =>
          match MapRows(rows, ProjectCustomer)
          case Err(_) => Failure(500, ServerError)
          case Ok(customers) =>
            var total := Coalesce(OptMember(data, "total_rows"), Num(0));
            Listing(page, limit, total, TotalPages(total, limit), customers)
  }

  // ---------------------------------------------------------------------------
  // Properties

  /** Without the parameters (or with empty ones) the page is 1 and the limit 10. */
  lemma Defaults(pageParam: Option<string>, limitParam: Option<string>)
    requires pageParam in {None, Some("")} && limitParam in {None, Some("")}
    ensures PageOf(pageParam) == Some(1) && LimitOf(limitParam) == Some(10)
  {
    DefaultTexts();
  }

  lemma DefaultTexts()
    ensures ParseInt("1") == Some(1) && ParseInt("10") == Some(10)
  {
    assert Decimal(1) + "" == "1";
    ParseIntDecimal(1, "");
    assert Decimal(10) + "" == "10";
    ParseIntDecimal(10, "");
  }

  /** A parameter written as a number, possibly followed by text that is not
      a digit, is read as that number. */
  lemma NumberParamReadsNumber(n: int, rest: string, fallback: string)
    requires rest == [] || !IsDigit(rest[0])
    ensures NumberParam(Some(Decimal(n) + rest), fallback) == Some(n)
  {
    ParseIntDecimal(n, rest);
    assert Decimal(n) + rest != "";
  }

  /** Consecutive pages start exactly `limit` rows apart. */
  lemma ConsecutivePages(page: int, limit: int)
    ensures Skip(Some(page + 1), Some(limit)).value == Skip(Some(page), Some(limit)).value + limit
  {
  }

  /** Different pages (of a positive limit) cover disjoint row ranges
      [skip, skip + limit). */
  lemma PagesDisjoint(p: int, q: int, limit: int)
    requires p < q && limit > 0
    ensures Skip(Some(p), Some(limit)).value + limit <= Skip(Some(q), Some(limit)).value
  {
    MulNonnegative(q - p - 1, limit);
    assert (q - 1) * limit == (p - 1) * limit + (q - p - 1) * limit + limit;
  }

  /** For a positive limit, totalPages pages of `limit` rows hold the total
      with the last page non-empty, and no rows give no pages. */
  lemma TotalPagesBounds(total: int, limit: int)
    requires total >= 0 && limit > 0
    ensures var pages := TotalPages(Num(total), Some(limit)).value;
      && (total == 0 ==> pages == 0)
      && (total > 0 ==> pages >= 1 && (pages - 1) * limit < total <= pages * limit)
  {
    var pages := CeilDiv(total, limit);
    MulSign(pages, limit);
    MulSign(pages - 1, limit);
  }

  lemma MulSign(x: int, l: int)
    requires l > 0
    ensures x * l < 0 <==> x < 0
    ensures x * l <= 0 <==> x <= 0
  {
    if x > 0 {
      MulNonnegative(x - 1, l);
      assert x * l == (x - 1) * l + l;
    } else if x < 0 {
      MulNonnegative(-x - 1, l);
      assert x * l == -((-x - 1) * l + l);
    }
  }

  lemma {:induction false} MulNonnegative(a: int, b: int)
    requires a >= 0 && b >= 0
    ensures a * b >= 0
    decreases a
  {
    if a > 0 {
      MulNonnegative(a - 1, b);
      assert a * b == (a - 1) * b + b;
    }
  }

  /** A page from 1 on holds rows exactly when it is at most totalPages. */
  lemma PageHasRowsIffWithinTotal(page: int, total: int, limit: int)
    requires page >= 1 && total >= 0 && limit > 0
    ensures Skip(Some(page), Some(limit)).value < total <==> page <= TotalPages(Num(total), Some(limit)).value
  {
    var pages := TotalPages(Num(total), Some(limit)).value;
    TotalPagesBounds(total, limit);
    if page <= pages {
      assert (page - 1) * limit <= (pages - 1) * limit;
    } else {
      assert (page - 1) * limit >= pages * limit;
    }
  }

  /** `||` replaces every falsy field, the empty string included: the fields
      always come out truthy, and a falsy one becomes its default. */
  lemma CustomerDefaults(item: JsValue)
    requires ProjectCustomer(item).Ok?
    ensures var c := ProjectCustomer(item).value;
      var doc := OptMember(item, "doc");
      && Truthy(c.name) && Truthy(c.phone) && Truthy(c.status)
      && (!Truthy(OptMember(doc, "name")) ==> c.name == Str("Unknown"))
      && (Truthy(OptMember(doc, "name")) ==> c.name == OptMember(doc, "name"))
      && (!Truthy(OptMember(doc, "phoneNumber")) ==> c.phone == Str("-"))
      && (!Truthy(OptMember(doc, "status")) ==> c.status == Str("inactive"))
      && (OptMember(doc, "name") == Str("") ==> c.name == Str("Unknown"))
  {
  }

  /** A successful answer has one customer per row in row order, echoes the
      parsed parameters, and counts 0 rows when the view gives no total. */
  lemma ListingShape(pageParam: Option<string>, limitParam: Option<string>, fetch: FetchOutcome)
    requires Respond(pageParam, limitParam, fetch).Listing?
    ensures fetch.Responded? && fetch.ok && RowsOf(fetch.body).Ok?
    ensures var r := Respond(pageParam, limitParam, fetch);
      var rows := RowsOf(fetch.body).value;
      && r.page == PageOf(pageParam) && r.limit == LimitOf(limitParam)
      && |r.customers| == |rows|
      && (forall i :: 0 <= i < |rows| ==> r.customers[i] == ProjectCustomer(rows[i]).value)
      && (Nullish(OptMember(fetch.body, "total_rows")) ==> r.total == Num(0))
  {
  }

  /** Every failure is a 500; only a response that is not ok says so, every
      thrown error reads "Server error". */
  lemma Failures(pageParam: Option<string>, limitParam: Option<string>, fetch: FetchOutcome)
    requires Respond(pageParam, limitParam, fetch).Failure?
    ensures Respond(pageParam, limitParam, fetch).status == 500
    ensures Respond(pageParam, limitParam, fetch).error == (if fetch.Responded? && !fetch.ok then FetchFailed else ServerError)
  {
  }
}
