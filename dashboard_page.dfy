/** The dashboard page: it asks /api/dashboard for the selected date and view
    mode, keeps the JSON answer as its chart data, shows the sum of the
    orders' `total` fields as "Total Order" and hands the orders to the chart. */
module DashboardPage {
  import opened Outcomes
  import opened JsValues
  import opened CouchView
  import opened DashboardRoute
  import ChartOrders

  // ---------------------------------------------------------------------------
  // The request

  /** The `key` of each view-mode button. */
  function ModeName(mode: Granularity): (name: string)
    ensures name != ""
  {
    match mode
    case Daily => "daily"
    case Weekly => "weekly"
    case Monthly => "monthly"
  }

  /** The path the page fetches for a date and a view mode. */
  function RequestPath(date: string, mode: Granularity): string {
    "/api/dashboard?date=" + date + "&type=" + ModeName(mode)
  }

  /** The route reads back exactly the view mode the page sent. */
  lemma ModeRoundTrip(mode: Granularity)
    ensures GranularityOf(KindParam(Some(ModeName(mode)))) == Some(mode)
  {
  }

  // ---------------------------------------------------------------------------
  // The answer as JSON

  /** One order as NextResponse.json writes it: an undefined id is omitted. */
  function OrderJson(o: DashOrder): (v: JsValue)
    ensures v.Obj? && OptMember(v, "total") == Num(o.total) && OptMember(v, "date") == o.date
  {
    var fields := map["date" := o.date, "total" := Num(o.total), "customer" := o.customer, "status" := o.status];
    Obj(if o.id.Undefined? then fields else fields["id" := o.id])
  }

  function OrdersJson(orders: seq<DashOrder>): (vs: seq<JsValue>)
    ensures |vs| == |orders| && forall i :: 0 <= i < |orders| ==> vs[i] == OrderJson(orders[i])
  {
    seq(|orders|, i requires 0 <= i < |orders| => OrderJson(orders[i]))
  }

  /** A search parameter that is absent (`get` gives null) is written as null. */
  function KeyJson(key: Option<string>): JsValue {
    if key.Some? then Str(key.value) else Null
  }

  /** The body of the route's answer: the orders with the two keys, or the error alone. */
  function ResponseJson(r: DashboardResponse): JsValue {
    match r
    case Orders(orders, startKey, endKey) =>
      Obj(map["orders" := Arr(OrdersJson(orders)), "start_key" := KeyJson(startKey), "end_key" := KeyJson(endKey)])
    case Failure(_, error) => Obj(map["error" := Str(error)])
  }

  // ---------------------------------------------------------------------------
  // Total Order

  /** What `sum + (order.total || 0)` adds for one order: None where the order
      is null or undefined (a TypeError) or where its total is truthy but not
      a number, so the sum stops being a number. `true` adds 1. */
  function OrderAmount(order: JsValue): (a: Option<int>)
    ensures !Nullish(order) && !Truthy(OptMember(order, "total")) ==> a == Some(0)
    ensures !Nullish(order) && OptMember(order, "total").Num? ==> a == Some(OptMember(order, "total").n)
    ensures Nullish(order) ==> a.None?
  {
    if Nullish(order) then None
    else
      var t := OrElse(OptMember(order, "total"), Num(0));
      match t
      case Num(n) => Some(n)
      case Bool(b) => Some(if b then 1 else 0)
      case _ => None
  }

  /** `orders.reduce((sum, order) => sum + (order.total || 0), 0)`, a left fold. */
  function TotalOrders(orders: seq<JsValue>): (r: Option<int>)
    ensures r.Some? <==> forall i :: 0 <= i < |orders| ==> OrderAmount(orders[i]).Some?
    decreases |orders|
  {
    if orders == [] then Some(0)
    else
      var init := orders[..|orders| - 1];
      match TotalOrders(init)
      case None => None
      case Some(sum) =>
        match OrderAmount(orders[|orders| - 1])
        case None => None
        case Some(a) => Some(sum + a)
  }

  /** `chartData.orders` read for `.reduce`: it must be an array. */
  function OrdersOf(chartData: JsValue): (r: Option<seq<JsValue>>)
    ensures r.Some? <==> OptMember(chartData, "orders").Arr?
  {
    var orders := OptMember(chartData, "orders");
    if orders.Arr? then Some(orders.items) else None
  }

  /** The number shown as "Total Order"; None where the computation throws or
      is no longer a number. */
  function TotalOf(chartData: JsValue): Option<int> {
    match OrdersOf(chartData)
    case None => None
    case Some(orders) => TotalOrders(orders)
  }

  /** The dates the chart groups: `(chartData.orders || []).map(o => o.date)`,
      None where that throws. */
  function ChartDates(chartData: JsValue): (r: Option<seq<JsValue>>)
    ensures var orders := OrElse(OptMember(chartData, "orders"), Arr([]));
      r.None? <==> !orders.Arr? || exists i :: 0 <= i < |orders.items| && Nullish(orders.items[i])
    ensures var orders := OrElse(OptMember(chartData, "orders"), Arr([]));
      r.Some? ==> |r.value| == |orders.items|
                  && forall i :: 0 <= i < |r.value| ==> r.value[i] == OptMember(orders.items[i], "date")
  {
    var orders := OrElse(OptMember(chartData, "orders"), Arr([]));
    if orders.Arr? && forall i :: 0 <= i < |orders.items| ==> !Nullish(orders.items[i]) then
      Some(seq(|orders.items|, i requires 0 <= i < |orders.items| => OptMember(orders.items[i], "date")))
    else None
  }

  // ---------------------------------------------------------------------------
  // Properties

  /** Summing a concatenation sums each part: the fold is a running total. */
  lemma {:induction false} TotalAppend(a: seq<JsValue>, b: seq<JsValue>)
    ensures TotalOrders(a + b) ==
      (if TotalOrders(a).Some? && TotalOrders(b).Some? then Some(TotalOrders(a).value + TotalOrders(b).value) else None)
    decreases |b|
  {
    if b == [] {
      assert a + b == a;
    } else {
      var b' := b[..|b| - 1];
      TotalAppend(a, b');
      assert (a + b)[..|a + b| - 1] == a + b';
      assert (a + b)[|a + b| - 1] == b[|b| - 1];
    }
  }

  /** Orders that each count one add up to how many there are. */
  lemma {:induction false} TotalOfOnes(orders: seq<JsValue>)
    requires forall i :: 0 <= i < |orders| ==> OrderAmount(orders[i]) == Some(1)
    ensures TotalOrders(orders) == Some(|orders|)
    decreases |orders|
  {
    if orders != [] {
      TotalOfOnes(orders[..|orders| - 1]);
    }
  }

  /** Orders whose totals are all missing, null, 0 or "" add up to 0. */
  lemma {:induction false} TotalOfFalsy(orders: seq<JsValue>)
    requires forall i :: 0 <= i < |orders| ==> !Nullish(orders[i]) && !Truthy(OptMember(orders[i], "total"))
    ensures TotalOrders(orders) == Some(0)
    decreases |orders|
  {
    if orders != [] {
      TotalOfFalsy(orders[..|orders| - 1]);
    }
  }

  /** For a successful answer of the route, "Total Order" is the number of
      rows the view returned. */
  lemma TotalCountsRows(dateParam: Option<string>, typeParam: Option<string>, zone: int, fetch: FetchOutcome)
    requires Respond(dateParam, typeParam, zone, fetch).Orders?
    ensures fetch.Responded? && RowsOf(fetch.body).Ok?
    ensures TotalOf(ResponseJson(Respond(dateParam, typeParam, zone, fetch))) == Some(|RowsOf(fetch.body).value|)
  {
    OneOrderPerRow(dateParam, typeParam, zone, fetch);
    var orders := Respond(dateParam, typeParam, zone, fetch).orders;
    var json := OrdersJson(orders);
    assert OrdersOf(ResponseJson(Respond(dateParam, typeParam, zone, fetch))) == Some(json);
    TotalOfOnes(json);
  }

  /** A failed answer carries no orders: computing the total throws. */
  lemma FailureHasNoTotal(r: DashboardResponse)
    requires r.Failure?
    ensures OrdersOf(ResponseJson(r)).None? && TotalOf(ResponseJson(r)).None?
  {
  }

  /** The `date` field of each order, in order. */
  function DatesOf(orders: seq<DashOrder>): (ds: seq<JsValue>)
    ensures |ds| == |orders| && forall i :: 0 <= i < |orders| ==> ds[i] == orders[i].date
  {
    seq(|orders|, i requires 0 <= i < |orders| => orders[i].date)
  }

  /** The chart of a route answer groups the answer's order dates, in order;
      a failed answer has no `orders`, so the chart is empty while the total
      throws. */
  lemma ChartDatesOfAnswer(r: DashboardResponse)
    ensures r.Orders? ==> ChartDates(ResponseJson(r)) == Some(DatesOf(r.orders))
    ensures r.Failure? ==> ChartDates(ResponseJson(r)) == Some([])
  {
    if r.Orders? {
      var json := ResponseJson(r);
      var items := OrdersJson(r.orders);
      assert OptMember(json, "orders") == Arr(items);
      assert forall i :: 0 <= i < |items| ==> !Nullish(items[i]);
      var dates := ChartDates(json).value;
      assert forall i :: 0 <= i < |dates| ==> dates[i] == r.orders[i].date;
      assert dates == DatesOf(r.orders);
    }
  }

  /** For orders each counting one, none dated with the name of an
      Object.prototype member (the route's "-" default is not one), the
      chart's bars add up to the "Total Order" figure. */
  lemma ChartMatchesTotal(orders: seq<DashOrder>, startKey: Option<string>, endKey: Option<string>)
    requires forall i :: 0 <= i < |orders| ==>
               orders[i].total == 1 && ToStr(orders[i].date) !in ChartOrders.ObjectPrototypeMembers
    ensures var json := ResponseJson(Orders(orders, startKey, endKey));
      && TotalOf(json) == Some(|orders|)
      && ChartDates(json).Some?
      && ChartOrders.SumTotals(ChartOrders.ChartValues(ChartDates(json).value, ChartOrders.ObjectPrototypeMembers)) == |orders|
  {
    var items := OrdersJson(orders);
    var json := ResponseJson(Orders(orders, startKey, endKey));
    assert OptMember(json, "orders") == Arr(items);
    TotalOfOnes(items);
    ChartDatesOfAnswer(Orders(orders, startKey, endKey));
    var dates := ChartDates(json).value;
    assert forall i :: 0 <= i < |dates| ==> dates[i] == orders[i].date;
    ChartOrders.PlainDatesCounted(dates);
  }
}
