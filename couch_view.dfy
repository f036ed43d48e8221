/** What the routes share about the document store's view API: the composite
    range keys `[date, null]` .. `[date, {}]`, the outcome of the HTTP request
    (taken as a parameter, since the request itself is I/O), and reading the
    `rows` array out of a response body. */
module CouchView {
  import opened Outcomes
  import opened JsValues

  /** The lower bound `["<date>", null]`: null sorts before every secondary key. */
  function StartKey(date: string): string {
    "[\"" + date + "\", null]"
  }

  /** The upper bound `["<date>", {}]`: an object sorts after every string secondary key. */
  function EndKey(date: string): string {
    "[\"" + date + "\", {}]"
  }

  /** The date a key was built from: the text between the opening `["` and the closing `", `. */
  function KeyDate(key: string): string {
    if |key| >= 8 && key[|key| - 2] == '}' then key[2..|key| - 6]
    else if |key| >= 10 then key[2..|key| - 8]
    else ""
  }

  lemma KeysCarryDate(date: string)
    ensures KeyDate(StartKey(date)) == date
    ensures KeyDate(EndKey(date)) == date
    ensures StartKey(date) != EndKey(date)
  {
    var s, e := StartKey(date), EndKey(date);
    assert s[2..|s| - 8] == date;
    assert e[2..|e| - 6] == date;
    assert s[|s| - 2] == 'l' && e[|e| - 2] == '}';
  }

  /** How the request to the view ended: a response (its `ok` flag, status
      line and parsed JSON body) or a thrown error with its message. */
  datatype FetchOutcome =
    | Responded(ok: bool, status: int, statusText: string, body: JsValue)
    | Threw(message: string)

  /** `data.rows` read for `.map`: the elements of an array; a TypeError otherwise. */
  function RowsOf(data: JsValue): (r: Result<seq<JsValue>>)
    ensures r.Ok? <==> data.Obj? && "rows" in data.fields && data.fields["rows"].Arr?
    ensures r.Ok? ==> r.value == data.fields["rows"].items
  {
    match Member(data, "rows")
    case Err(e) => Err(e)
    case Ok(rows) =>
      if rows.Arr? then Ok(rows.items)
      else if Nullish(rows) then Err(TypeError(rows, "map"))
      else Err("data.rows.map is not a function")
  }

  /** `rows.map(f)` with a callback that may throw: every row mapped in order,
      or the error of the first row whose callback throws. */
  function MapRows<T>(rows: seq<JsValue>, f: JsValue -> Result<T>): (r: Result<seq<T>>)
    ensures r.Ok? <==> forall i :: 0 <= i < |rows| ==> f(rows[i]).Ok?
    ensures r.Ok? ==> |r.value| == |rows| && forall i :: 0 <= i < |rows| ==> r.value[i] == f(rows[i]).value
    ensures r.Err? ==>
              exists i :: 0 <= i < |rows| && f(rows[i]).Err? && r.message == f(rows[i]).message
                          && forall j :: 0 <= j < i ==> f(rows[j]).Ok?
  {
    if rows == [] then Ok([])
    else
      match f(rows[0])
      case Err(e) => Err(e)
      case Ok(x) =>
        match MapRows(rows[1..], f)
        case Err(e) =>
          var k :| 0 <= k < |rows[1..]| && f(rows[1..][k]).Err? && e == f(rows[1..][k]).message
                   && forall j :: 0 <= j < k ==> f(rows[1..][j]).Ok?;
          assert f(rows[k + 1]).Err? && e == f(rows[k + 1]).message;
          Err(e)
        case Ok(xs) => Ok([x] + xs)
  }

  /** Mapping a concatenation of rows maps each part. */
  lemma {:induction false} MapRowsAppend<T>(a: seq<JsValue>, b: seq<JsValue>, f: JsValue -> Result<T>)
    requires MapRows(a, f).Ok? && MapRows(b, f).Ok?
    ensures MapRows(a + b, f) == Ok(MapRows(a, f).value + MapRows(b, f).value)
  {
    var ab := a + b;
    forall i | 0 <= i < |ab| ensures f(ab[i]).Ok? {
      if i < |a| { assert ab[i] == a[i]; } else { assert ab[i] == b[i - |a|]; }
    }
    var r := MapRows(ab, f).value;
    var expected := MapRows(a, f).value + MapRows(b, f).value;
    assert |r| == |expected|;
    forall i | 0 <= i < |r| ensures r[i] == expected[i] {
      if i < |a| { assert ab[i] == a[i]; } else { assert ab[i] == b[i - |a|]; }
    }
    assert r == expected;
  }
}
