/** The order page: the orders of the selected day, read from the by_date
    view through /api/order and turned into rows of the table, with editing
    and deletion written back to the store. */
module OrderPage {
  import opened Outcomes
  import opened JsValues
  import Text
  import opened CouchView
  import opened IdLists

  // ---------------------------------------------------------------------------
  // The request

  /** The path fetched for a day: the view's range keys for that date. */
  function OrdersPath(date: string): string {
    "/api/order?startKey=" + StartKey(date) + "&endKey=" + EndKey(date)
  }

  /** The path carries the two keys of the day, each holding the date. */
  lemma OrdersPathKeys(date: string)
    ensures OrdersPath(date) == "/api/order?startKey=" + StartKey(date) + "&endKey=" + EndKey(date)
    ensures KeyDate(StartKey(date)) == date && KeyDate(EndKey(date)) == date
    ensures StartKey(date) != EndKey(date)
  {
    KeysCarryDate(date);
  }

  // ---------------------------------------------------------------------------
  // Rows into orders

  /** A table row. The `type` field is `orderType` here. */
  datatype Order = Order(
    id: JsValue, customerId: JsValue, customerName: JsValue, orderType: JsValue,
    driverId: JsValue, driverNickname: JsValue, description: string, status: string,
    createdAt: JsValue)

  const Arrow := " → "

  /** A part of the description: `${x || ""}`. */
  function Part(v: JsValue): string {
    ToStr(OrElse(v, Str("")))
  }

  /** The map callback. `row.value`, `val.orderData` and `row.key[1]` are read
      unguarded, in that order; the fields of the order data are read with `?.`. */
  function TransformRow(row: JsValue): (r: Result<Order>)
    ensures r.Ok? <==> !Nullish(row) && !Nullish(OptMember(row, "value")) && !Nullish(OptMember(row, "key"))
    ensures r.Ok? ==> r.value.id == OptMember(row, "id") && r.value.status == "completed"
  {
    match Member(row, "value")
    case Err(e) => Err(e)
    case Ok(val) =>
      match Member(val, "orderData")
      case Err(e) => Err(e)
      case Ok(d) =>
        var key := OptMember(row, "key");
        match Element(key, 1)
        case Err(e) => Err(e)
        case Ok(customer) =>
          var driver := OrElse(OptMember(val, "driverPhoneNumber"), Str(""));
          Ok(Order(
            OptMember(row, "id"),
            OrElse(customer, Str("")),
            OrElse(OptMember(d, "nama"), Str("")),
            OrElse(OptMember(val, "orderType"), Str("ride")),
            driver,
            driver,
            Part(OptMember(d, "lokasi_penjemputan")) + Arrow + Part(OptMember(d, "lokasi_tujuan"))
              + " (" + Part(OptMember(d, "waktu")) + ")",
            "completed",
            Element(key, 0).value))
  }

  /** A row whose key is an object with properties "0" and "1" rather than
      an array: `row.key[1]` and `row.key[0]` read those properties. */
  lemma ObjectKeyRow()
    ensures var key := Obj(map["0" := Str("2025-11-02"), "1" := Str("c1")]);
      var row := Obj(map["id" := Str("o1"), "value" := Obj(map["orderData" := Obj(map[])]), "key" := key]);
      && TransformRow(row).Ok?
      && TransformRow(row).value.createdAt == Str("2025-11-02")
      && TransformRow(row).value.customerId == Str("c1")
  {
    assert Text.Decimal(0) == "0" && Text.Decimal(1) == "1";
  }

  /** `data.rows.map(transform)`: the orders in row order, or the first error. */
  function TransformRows(data: JsValue): (r: Result<seq<Order>>)
    ensures r.Ok? ==> RowsOf(data).Ok? && |r.value| == |RowsOf(data).value|
    ensures r.Ok? ==> forall i :: 0 <= i < |r.value| ==> TransformRow(RowsOf(data).value[i]) == Ok(r.value[i])
  {
    match RowsOf(data)
    case Err(e) => Err(e)
    case Ok(rows) => MapRows(rows, TransformRow)
  }

  /** The fields of a transformed row: the customer and creation date come
      from the row's key, the type falls back to "ride", both driver fields
      are the driver's phone number, and every `||` replaces a falsy value. */
  lemma TransformFields(row: JsValue)
    requires TransformRow(row).Ok?
    ensures var o := TransformRow(row).value;
      var val := OptMember(row, "value");
      var key := OptMember(row, "key");
      && o.createdAt == Element(key, 0).value
      && (Truthy(Element(key, 1).value) ==> o.customerId == Element(key, 1).value)
      && (!Truthy(Element(key, 1).value) ==> o.customerId == Str(""))
      && (Truthy(OptMember(val, "orderType")) ==> o.orderType == OptMember(val, "orderType"))
      && (!Truthy(OptMember(val, "orderType")) ==> o.orderType == Str("ride"))
      && o.driverId == o.driverNickname
      && (Truthy(OptMember(val, "driverPhoneNumber")) ==> o.driverId == OptMember(val, "driverPhoneNumber"))
      && (!Truthy(OptMember(val, "driverPhoneNumber")) ==> o.driverId == Str(""))
  {
  }

  /** The description reads "pickup → destination (time)", each missing or
      empty part written as nothing. */
  lemma DescriptionParts(row: JsValue, pickup: string, destination: string, time: string)
    requires TransformRow(row).Ok?
    requires var d := OptMember(OptMember(row, "value"), "orderData");
      && OptMember(d, "lokasi_penjemputan") in {Str(pickup), Undefined, Null}
      && OptMember(d, "lokasi_tujuan") in {Str(destination), Undefined, Null}
      && OptMember(d, "waktu") in {Str(time), Undefined, Null}
    ensures var d := OptMember(OptMember(row, "value"), "orderData");
      var p := if OptMember(d, "lokasi_penjemputan") == Str(pickup) then pickup else "";
      var q := if OptMember(d, "lokasi_tujuan") == Str(destination) then destination else "";
      var w := if OptMember(d, "waktu") == Str(time) then time else "";
      TransformRow(row).value.description == p + Arrow + q + " (" + w + ")"
  {
  }

  /** The row's status plays no part: every transformed order is "completed". */
  lemma StatusAlwaysCompleted(data: JsValue)
    requires TransformRows(data).Ok?
    ensures forall i :: 0 <= i < |TransformRows(data).value| ==>
              TransformRows(data).value[i].status == "completed"
              && StatusLabel(Str(TransformRows(data).value[i].status)) == "Selesai"
  {
  }

  // ---------------------------------------------------------------------------
  // Labels

  /** `getTypeLabel`: the label of an order type, "Order" for any other value. */
  function TypeLabel(t: JsValue): (text: string)
    ensures text == "Order" <==> t !in {Str("ride"), Str("food"), Str("send")}
  {
    if t == Str("ride") then "Ride"
    else if t == Str("food") then "Food"
    else if t == Str("send") then "Send"
    else "Order"
  }

  /** `getStatusLabel`: the label of a status, "Unknown" for any other value. */
  function StatusLabel(s: JsValue): (text: string)
    ensures text == "Unknown" <==> s !in {Str("completed"), Str("pending"), Str("canceled")}
  {
    if s == Str("completed") then "Selesai"
    else if s == Str("pending") then "Menunggu"
    else if s == Str("canceled") then "Dibatalkan"
    else "Unknown"
  }

  /** Different known types get different labels, and so do different known statuses. */
  lemma LabelsDistinguish(t1: JsValue, t2: JsValue, s1: JsValue, s2: JsValue)
    ensures TypeLabel(t1) != "Order" && TypeLabel(t1) == TypeLabel(t2) ==> t1 == t2
    ensures StatusLabel(s1) != "Unknown" && StatusLabel(s1) == StatusLabel(s2) ==> s1 == s2
  {
  }

  // ---------------------------------------------------------------------------
  // The page state

  const FetchFailed := "Gagal fetch API"
  const SaveFailed := "Gagal menyimpan perubahan"
  const DeleteFailed := "Gagal menghapus orderan"

  function IdOf(o: Order): JsValue {
    o.id
  }

  class OrderPage {
    var selectedDate: string
    var orders: seq<Order>
    var loading: bool
    var error: Option<string>
    var editingId: Option<JsValue>
    var editForm: Option<Order>

    /** The first render: today's date (the UTC date of the moment the page
        opens), no orders, nothing being edited. */
    constructor (today: string)
      ensures selectedDate == today && orders == [] && !loading
      ensures error.None? && editingId.None? && editForm.None?
    {
      selectedDate := today;
      orders := [];
      loading := false;
      error := None;
      editingId := None;
      editForm := None;
    }

    /** The date input. */
    method SelectDate(date: string)
      modifies this
      ensures selectedDate == date
      ensures orders == old(orders) && loading == old(loading) && error == old(error)
      ensures editingId == old(editingId) && editForm == old(editForm)
    {
      selectedDate := date;
    }

    /** `fetchOrders`: requests the day's range and, given how the request
        ended, replaces the orders or records the error. */
    method FetchOrders(response: FetchOutcome) returns (path: string)
      modifies this
      ensures path == OrdersPath(selectedDate) && selectedDate == old(selectedDate)
      ensures !loading && editingId == old(editingId) && editForm == old(editForm)
      ensures response.Threw? ==> error == Some(response.message) && orders == old(orders)
      ensures response.Responded? && !response.ok ==> error == Some(FetchFailed) && orders == old(orders)
      ensures response.Responded? && response.ok ==>
                match TransformRows(response.body)
                case Ok(rows) => orders == rows && error.None?
                case Err(e) => orders == old(orders) && error == Some(e)
    {
      loading := true;
      error := None;
      path := OrdersPath(selectedDate);
      if response.Threw? {
        error := Some(response.message);
      } else if !response.ok {
        error := Some(FetchFailed);
      } else {
        var transformed := TransformRows(response.body);
        if transformed.Ok? {
          orders := transformed.value;
        } else {
          error := Some(transformed.message);
        }
      }
      loading := false;
    }

    /** `handleEdit`: edit a copy of the order. */
    method Edit(order: Order)
      modifies this
      ensures editingId == Some(order.id) && editForm == Some(order)
      ensures selectedDate == old(selectedDate) && orders == old(orders)
      ensures loading == old(loading) && error == old(error)
    {
      editingId := Some(order.id);
      editForm := Some(order);
    }

    /** `handleSaveEdit`: without a form nothing happens; after a successful
        PUT every order with the id becomes the form and editing ends; a
        failed one records its error. */
    method SaveEdit(id: JsValue, response: FetchOutcome)
      modifies this
      ensures old(editForm).None? ==>
                orders == old(orders) && loading == old(loading) && error == old(error)
                && editingId == old(editingId) && editForm == old(editForm)
      ensures old(editForm).Some? ==> !loading
      ensures old(editForm).Some? && response.Responded? && response.ok ==>
                orders == ReplaceById(old(orders), IdOf, id, old(editForm).value)
                && editingId.None? && editForm.None? && error == old(error)
      ensures old(editForm).Some? && response.Threw? ==>
                orders == old(orders) && error == Some(response.message)
                && editingId == old(editingId) && editForm == old(editForm)
      ensures old(editForm).Some? && response.Responded? && !response.ok ==>
                orders == old(orders) && error == Some(SaveFailed)
                && editingId == old(editingId) && editForm == old(editForm)
      ensures selectedDate == old(selectedDate)
    {
      if editForm.None? {
        return;
      }
      loading := true;
      if response.Threw? {
        error := Some(response.message);
      } else if !response.ok {
        error := Some(SaveFailed);
      } else {
        orders := ReplaceById(orders, IdOf, id, editForm.value);
        editingId := None;
        editForm := None;
      }
      loading := false;
    }

    /** `handleDelete`: only a confirmed deletion reaches the store; after a
        successful DELETE every order with the id is dropped. */
    method Delete(id: JsValue, confirmed: bool, response: FetchOutcome)
      modifies this
      ensures !confirmed ==> orders == old(orders) && loading == old(loading) && error == old(error)
      ensures confirmed ==> !loading
      ensures confirmed && response.Responded? && response.ok ==>
                orders == RemoveById(old(orders), IdOf, id) && error == old(error)
      ensures confirmed && response.Threw? ==> orders == old(orders) && error == Some(response.message)
      ensures confirmed && response.Responded? && !response.ok ==> orders == old(orders) && error == Some(DeleteFailed)
      ensures selectedDate == old(selectedDate) && editingId == old(editingId) && editForm == old(editForm)
    {
      if !confirmed {
        return;
      }
      loading := true;
      if response.Threw? {
        error := Some(response.message);
      } else if !response.ok {
        error := Some(DeleteFailed);
      } else {
        orders := RemoveById(orders, IdOf, id);
      }
      loading := false;
    }

    /** `handleCancel`: stop editing. */
    method Cancel()
      modifies this
      ensures editingId.None? && editForm.None?
      ensures selectedDate == old(selectedDate) && orders == old(orders)
      ensures loading == old(loading) && error == old(error)
    {
      editingId := None;
      editForm := None;
    }
  }

  // ---------------------------------------------------------------------------
  // Properties of the list updates

  /** A successful save keeps the number of orders, puts the form in place of
      every order with the id and leaves every other order where it was. */
  lemma SaveReplacesExactly(orders: seq<Order>, id: JsValue, form: Order)
    ensures var r := ReplaceById(orders, IdOf, id, form);
      && |r| == |orders|
      && (forall i :: 0 <= i < |orders| ==> (orders[i].id == id ==> r[i] == form) && (orders[i].id != id ==> r[i] == orders[i]))
  {
  }

  /** A successful deletion leaves no order with the id and keeps every other
      order, in order. */
  lemma DeleteRemovesExactly(orders: seq<Order>, id: JsValue)
    ensures var r := RemoveById(orders, IdOf, id);
      && SubsequenceOf(r, orders)
      && (forall i :: 0 <= i < |r| ==> r[i].id != id)
      && (forall o :: o in orders && o.id != id ==> o in r)
  {
    RemoveByIdSpec(orders, IdOf, id);
  }
}
