/** The order chart's data: the orders grouped by their `date`, counted into
    a plain object `acc` by `orders.reduce` and read back with Object.values.
    The chart is drawn from the dates alone; the component's startDate,
    endDate and totalOrders properties take no part, so they are not
    parameters here. */
module ChartOrders {
  import opened Text
  import opened JsValues

  /** One bar: the date value of the first order with that key, and how many
      orders carry it. */
  datatype Bucket = Bucket(date: JsValue, total: int)

  /** The property names a fresh `{}` already answers with a truthy value: the
      members of Object.prototype. */
  const ObjectPrototypeMembers: set<string> := {
    "constructor", "hasOwnProperty", "isPrototypeOf", "propertyIsEnumerable",
    "toString", "toLocaleString", "valueOf", "__proto__",
    "__defineGetter__", "__defineSetter__", "__lookupGetter__", "__lookupSetter__"
  }

  /** The accumulator object: its own keys in insertion order and the bucket
      stored under each. */
  datatype Acc = Acc(keys: seq<string>, buckets: map<string, Bucket>)

  // ---------------------------------------------------------------------------
  // Counting

  /** How many of the dates convert to the property key k. */
  function CountKey(dates: seq<JsValue>, k: string): nat {
    if dates == [] then 0
    else CountKey(dates[..|dates| - 1], k) + (if ToStr(dates[|dates| - 1]) == k then 1 else 0)
  }

  /** How many of the dates convert to a key in `names`. */
  function CountIn(dates: seq<JsValue>, names: set<string>): nat {
    if dates == [] then 0
    else CountIn(dates[..|dates| - 1], names) + (if ToStr(dates[|dates| - 1]) in names then 1 else 0)
  }

  /** The position of the first date with key k; |dates| when there is none. */
  function FirstIndex(dates: seq<JsValue>, k: string): (f: nat)
    ensures f <= |dates|
    ensures f < |dates| ==> ToStr(dates[f]) == k
  {
    if dates == [] then 0
    else
      var f := FirstIndex(dates[..|dates| - 1], k);
      if f < |dates| - 1 then f
      else if ToStr(dates[|dates| - 1]) == k then |dates| - 1
      else |dates|
  }

  /** One call of the reducer for an order whose date is `date`. An own bucket
      is incremented; a key the object inherits reads as truthy, so no bucket
      is made and the increment lands on the inherited member instead; any
      other key gets a new bucket holding 1. */
  function Step(acc: Acc, date: JsValue, inherited: set<string>): Acc {
    var key := ToStr(date);
    if key in acc.buckets then
      Acc(acc.keys, acc.buckets[key := Bucket(acc.buckets[key].date, acc.buckets[key].total + 1)])
    else if key in inherited then acc
    else Acc(acc.keys + [key], acc.buckets[key := Bucket(date, 1)])
  }

  /** The accumulator after reducing over all the dates, starting from an
      object that inherits the names `inherited`. */
  function Accumulate(dates: seq<JsValue>, inherited: set<string>): Acc {
    if dates == [] then Acc([], map[])
    else Step(Accumulate(dates[..|dates| - 1], inherited), dates[|dates| - 1], inherited)
  }

  // ---------------------------------------------------------------------------
  // Object.values

  /** A canonical array index: "0" or digits without a leading zero, below 2^32 - 1. */
  predicate IsArrayIndex(k: string) {
    && |k| >= 1
    && (forall i :: 0 <= i < |k| ==> IsDigit(k[i]))
    && (k[0] != '0' || k == "0")
    && DigitsValue(k) < 0xFFFF_FFFF
  }

  predicate AllIndices(s: seq<string>) {
    forall i :: 0 <= i < |s| ==> IsArrayIndex(s[i])
  }

  predicate Ascending(s: seq<string>)
    requires AllIndices(s)
  {
    forall i, j :: 0 <= i < j < |s| ==> DigitsValue(s[i]) <= DigitsValue(s[j])
  }

  predicate Distinct(s: seq<string>) {
    forall i, j :: 0 <= i < j < |s| ==> s[i] != s[j]
  }

  function InsertIndex(k: string, s: seq<string>): (r: seq<string>)
    requires IsArrayIndex(k) && AllIndices(s)
    ensures AllIndices(r)
    ensures multiset(r) == multiset(s) + multiset{k}
    ensures forall x :: x in r <==> x in s || x == k
  {
    if s == [] || DigitsValue(k) <= DigitsValue(s[0]) then [k] + s
    else
      assert s == [s[0]] + s[1..];
      [s[0]] + InsertIndex(k, s[1..])
  }

  lemma {:induction false} InsertAscending(k: string, s: seq<string>)
    requires IsArrayIndex(k) && AllIndices(s) && Ascending(s)
    ensures Ascending(InsertIndex(k, s))
    decreases |s|
  {
    if s != [] && DigitsValue(k) > DigitsValue(s[0]) {
      InsertAscending(k, s[1..]);
      var r := InsertIndex(k, s);
      var t := InsertIndex(k, s[1..]);
      assert r == [s[0]] + t;
      forall x | x in t ensures DigitsValue(s[0]) <= DigitsValue(x) {
        assert x in s[1..] || x == k;
      }
    }
  }

  lemma {:induction false} InsertDistinct(k: string, s: seq<string>)
    requires IsArrayIndex(k) && AllIndices(s)
    ensures Distinct(s) && k !in s ==> Distinct(InsertIndex(k, s))
    decreases |s|
  {
    if Distinct(s) && k !in s && s != [] && DigitsValue(k) > DigitsValue(s[0]) {
      InsertDistinct(k, s[1..]);
      var t := InsertIndex(k, s[1..]);
      assert s[0] !in s[1..];
      assert s[0] !in t;
    }
  }

  function SortIndices(s: seq<string>): (r: seq<string>)
    requires AllIndices(s)
    ensures AllIndices(r)
    ensures multiset(r) == multiset(s)
    ensures forall x :: x in r <==> x in s
  {
    if s == [] then []
    else
      assert s == [s[0]] + s[1..];
      InsertIndex(s[0], SortIndices(s[1..]))
  }

  lemma {:induction false} SortAscending(s: seq<string>)
    requires AllIndices(s)
    ensures Ascending(SortIndices(s))
    decreases |s|
  {
    if s != [] {
      SortAscending(s[1..]);
      InsertAscending(s[0], SortIndices(s[1..]));
    }
  }

  lemma {:induction false} SortDistinct(s: seq<string>)
    requires AllIndices(s) && Distinct(s)
    ensures Distinct(SortIndices(s))
    decreases |s|
  {
    if s != [] {
      SortDistinct(s[1..]);
      assert s[0] !in s[1..];
      InsertDistinct(s[0], SortIndices(s[1..]));
    }
  }

  function IndexKeys(keys: seq<string>): (r: seq<string>)
    ensures AllIndices(r)
    ensures forall x :: x in r <==> x in keys && IsArrayIndex(x)
    ensures Distinct(keys) ==> Distinct(r)
  {
    if keys == [] then []
    else if IsArrayIndex(keys[0]) then [keys[0]] + IndexKeys(keys[1..])
    else IndexKeys(keys[1..])
  }

  function OtherKeys(keys: seq<string>): (r: seq<string>)
    ensures forall x :: x in r <==> x in keys && !IsArrayIndex(x)
    ensures Distinct(keys) ==> Distinct(r)
  {
    if keys == [] then []
    else if IsArrayIndex(keys[0]) then OtherKeys(keys[1..])
    else [keys[0]] + OtherKeys(keys[1..])
  }

  /** The order in which Object.values lists own string keys: array indices
      in ascending numeric order, then every other key in insertion order. */
  function OwnKeysOrder(keys: seq<string>): (r: seq<string>)
    ensures forall x :: x in r <==> x in keys
    ensures Distinct(keys) ==> Distinct(r)
    ensures multiset(r) == multiset(keys)
  {
    KeysSplit(keys);
    if Distinct(keys) then SortDistinct(IndexKeys(keys)); SortIndices(IndexKeys(keys)) + OtherKeys(keys)
    else SortIndices(IndexKeys(keys)) + OtherKeys(keys)
  }

  /** The index keys and the other keys together are the keys, counted with
      their multiplicities. */
  lemma {:induction false} KeysSplit(keys: seq<string>)
    ensures multiset(IndexKeys(keys)) + multiset(OtherKeys(keys)) == multiset(keys)
    decreases |keys|
  {
    if keys != [] {
      KeysSplit(keys[1..]);
      assert keys == [keys[0]] + keys[1..];
    }
  }

  function ValuesOf(order: seq<string>, buckets: map<string, Bucket>): (r: seq<Bucket>)
    requires forall k :: k in order ==> k in buckets
    ensures |r| == |order| && forall i :: 0 <= i < |order| ==> r[i] == buckets[order[i]]
  {
    seq(|order|, i requires 0 <= i < |order| => buckets[order[i]])
  }

  function SumTotals(data: seq<Bucket>): int {
    if data == [] then 0 else SumTotals(data[..|data| - 1]) + data[|data| - 1].total
  }

  lemma {:induction false} SumTotalsAppend(a: seq<Bucket>, b: seq<Bucket>)
    ensures SumTotals(a + b) == SumTotals(a) + SumTotals(b)
    decreases |b|
  {
    if b == [] {
      assert a + b == a;
    } else {
      var b' := b[..|b| - 1];
      SumTotalsAppend(a, b');
      assert (a + b)[..|a + b| - 1] == a + b';
    }
  }

  lemma ValuesOfConcat(a: seq<string>, b: seq<string>, buckets: map<string, Bucket>)
    requires forall k :: k in a + b ==> k in buckets
    ensures ValuesOf(a + b, buckets) == ValuesOf(a, buckets) + ValuesOf(b, buckets)
  {
  }

  lemma SumAroundOne(front: seq<Bucket>, x: Bucket, back: seq<Bucket>)
    ensures SumTotals(front + [x] + back) == SumTotals(front + back) + x.total
  {
    SumTotalsAppend(front + [x], back);
    SumTotalsAppend(front, back);
    assert (front + [x])[..|front + [x]| - 1] == front;
  }

  /** Taking one key out of a list takes its bucket's total out of the sum. */
  lemma SumRemoveAt(t: seq<string>, i: nat, buckets: map<string, Bucket>)
    requires i < |t| && forall k :: k in t ==> k in buckets
    ensures SumTotals(ValuesOf(t, buckets)) == SumTotals(ValuesOf(t[..i] + t[i + 1..], buckets)) + buckets[t[i]].total
  {
    var front, back := ValuesOf(t[..i], buckets), ValuesOf(t[i + 1..], buckets);
    assert ValuesOf(t, buckets) == front + [buckets[t[i]]] + back;
    assert ValuesOf(t[..i] + t[i + 1..], buckets) == front + back;
    SumAroundOne(front, buckets[t[i]], back);
  }

  lemma MultisetRemoveAt(t: seq<string>, i: nat)
    requires i < |t|
    ensures multiset(t[..i] + t[i + 1..]) == multiset(t) - multiset{t[i]}
  {
    assert t == t[..i] + [t[i]] + t[i + 1..];
  }

  lemma MultisetRemoveLast(s: seq<string>)
    requires s != []
    ensures multiset(s[..|s| - 1]) == multiset(s) - multiset{s[|s| - 1]}
  {
    assert s == s[..|s| - 1] + [s[|s| - 1]];
  }

  lemma KeysOfSameMultiset(s: seq<string>, t: seq<string>, buckets: map<string, Bucket>)
    requires forall k :: k in s ==> k in buckets
    requires multiset(s) == multiset(t)
    ensures forall k :: k in t ==> k in buckets
  {
    forall k | k in t ensures k in buckets {
      assert k in multiset(s);
    }
  }

  /** Listing the same keys in another order does not change the sum of
      their buckets' totals. */
  lemma {:induction false} SumPermutation(s: seq<string>, t: seq<string>, buckets: map<string, Bucket>)
    requires forall k :: k in s ==> k in buckets
    requires multiset(s) == multiset(t)
    ensures forall k :: k in t ==> k in buckets
    ensures SumTotals(ValuesOf(s, buckets)) == SumTotals(ValuesOf(t, buckets))
    decreases |s|
  {
    KeysOfSameMultiset(s, t, buckets);
    if s != [] {
      var x, s' := s[|s| - 1], s[..|s| - 1];
      assert x in multiset(t) by {
        assert x in multiset(s);
      }
      var i :| 0 <= i < |t| && t[i] == x;
      MultisetRemoveAt(t, i);
      MultisetRemoveLast(s);
      assert forall k :: k in s' ==> k in s;
      SumPermutation(s', t[..i] + t[i + 1..], buckets);
      SumPermutationStep(s, t, i, buckets);
    }
  }

  /** The step of SumPermutation: the last key of s, taken out of t at i. */
  lemma SumPermutationStep(s: seq<string>, t: seq<string>, i: nat, buckets: map<string, Bucket>)
    requires s != [] && i < |t| && t[i] == s[|s| - 1]
    requires forall k :: k in s ==> k in buckets
    requires forall k :: k in t ==> k in buckets
    requires SumTotals(ValuesOf(s[..|s| - 1], buckets)) == SumTotals(ValuesOf(t[..i] + t[i + 1..], buckets))
    ensures SumTotals(ValuesOf(s, buckets)) == SumTotals(ValuesOf(t, buckets))
  {
    var x, s' := s[|s| - 1], s[..|s| - 1];
    assert s == s' + [x];
    ValuesOfAppend(s', x, buckets);
    SumSnoc(ValuesOf(s', buckets), buckets[x]);
    SumRemoveAt(t, i, buckets);
  }

  lemma SumSnoc(a: seq<Bucket>, b: Bucket)
    ensures SumTotals(a + [b]) == SumTotals(a) + b.total
  {
    assert (a + [b])[..|a|] == a;
  }

  // ---------------------------------------------------------------------------
  // The invariant of the accumulator

  /** What the accumulator holds after reducing over `dates`: one bucket per
      distinct key not inherited, keys in order of first occurrence, each
      bucket holding the first date with its key and the number of orders
      with it, and the totals adding up to every order not lost to an
      inherited key. */
  ghost predicate Tallied(dates: seq<JsValue>, inherited: set<string>, acc: Acc) {
    && KeysListed(acc)
    && BucketsTally(dates, inherited, acc)
    && AllCounted(dates, inherited, acc)
    && KeysInFirstOrder(dates, acc)
    && SumMatches(dates, inherited, acc)
  }

  /** The own keys are listed once each, exactly the keys holding a bucket. */
  ghost predicate KeysListed(acc: Acc) {
    Distinct(acc.keys) && forall k :: k in acc.buckets <==> k in acc.keys
  }

  ghost predicate BucketsTally(dates: seq<JsValue>, inherited: set<string>, acc: Acc) {
    forall k :: k in acc.buckets ==>
      && k !in inherited
      && FirstIndex(dates, k) < |dates|
      && acc.buckets[k].date == dates[FirstIndex(dates, k)]
      && acc.buckets[k].total == CountKey(dates, k)
      && acc.buckets[k].total >= 1
  }

  ghost predicate AllCounted(dates: seq<JsValue>, inherited: set<string>, acc: Acc) {
    forall i :: 0 <= i < |dates| && ToStr(dates[i]) !in inherited ==> ToStr(dates[i]) in acc.buckets
  }

  ghost predicate KeysInFirstOrder(dates: seq<JsValue>, acc: Acc) {
    forall i, j :: 0 <= i < j < |acc.keys| ==> FirstIndex(dates, acc.keys[i]) < FirstIndex(dates, acc.keys[j])
  }

  ghost predicate SumMatches(dates: seq<JsValue>, inherited: set<string>, acc: Acc) {
    && (forall k :: k in acc.keys ==> k in acc.buckets)
    && SumTotals(ValuesOf(acc.keys, acc.buckets)) + CountIn(dates, inherited) == |dates|
  }

  lemma ValuesOfAppend(keys: seq<string>, k: string, buckets: map<string, Bucket>)
    requires forall x :: x in keys + [k] ==> x in buckets
    ensures ValuesOf(keys + [k], buckets) == ValuesOf(keys, buckets) + [buckets[k]]
  {
  }

  lemma {:induction false} ValuesOfOtherKey(keys: seq<string>, k: string, b: Bucket, buckets: map<string, Bucket>)
    requires forall x :: x in keys ==> x in buckets
    requires k !in keys
    ensures ValuesOf(keys, buckets[k := b]) == ValuesOf(keys, buckets)
  {
  }

  /** Changing the bucket of a key listed once changes the sum by the change of its total. */
  lemma {:induction false} SumUpdate(keys: seq<string>, k: string, b: Bucket, buckets: map<string, Bucket>)
    requires forall x :: x in keys ==> x in buckets
    requires Distinct(keys) && k in keys
    ensures SumTotals(ValuesOf(keys, buckets[k := b])) == SumTotals(ValuesOf(keys, buckets)) - buckets[k].total + b.total
    decreases |keys|
  {
    var init, last := keys[..|keys| - 1], keys[|keys| - 1];
    assert keys == init + [last];
    ValuesOfAppend(init, last, buckets);
    ValuesOfAppend(init, last, buckets[k := b]);
    var v := ValuesOf(keys, buckets);
    var w := ValuesOf(keys, buckets[k := b]);
    assert v[..|v| - 1] == ValuesOf(init, buckets);
    assert w[..|w| - 1] == ValuesOf(init, buckets[k := b]);
    if last == k {
      assert k !in init;
      ValuesOfOtherKey(init, k, b, buckets);
    } else {
      SumUpdate(init, k, b, buckets);
    }
  }

  lemma CountsOfAppend(dates: seq<JsValue>, d: JsValue, inherited: set<string>, k: string)
    ensures CountKey(dates + [d], k) == CountKey(dates, k) + (if ToStr(d) == k then 1 else 0)
    ensures CountIn(dates + [d], inherited) == CountIn(dates, inherited) + (if ToStr(d) in inherited then 1 else 0)
    ensures FirstIndex(dates + [d], k) ==
              if FirstIndex(dates, k) < |dates| then FirstIndex(dates, k)
              else if ToStr(d) == k then |dates| else |dates| + 1
  {
    assert (dates + [d])[..|dates|] == dates;
  }

  lemma {:induction false} CountKeyAbsent(dates: seq<JsValue>, k: string)
    requires forall i :: 0 <= i < |dates| ==> ToStr(dates[i]) != k
    ensures CountKey(dates, k) == 0
    decreases |dates|
  {
    if dates != [] {
      CountKeyAbsent(dates[..|dates| - 1], k);
    }
  }

  /** Each step of the reducer keeps the accumulator tallied. */
  lemma StepTallied(dates: seq<JsValue>, d: JsValue, inherited: set<string>, acc: Acc)
    requires Tallied(dates, inherited, acc)
    ensures Tallied(dates + [d], inherited, Step(acc, d, inherited))
  {
    var key := ToStr(d);
    if key in acc.buckets {
      StepIncrements(dates, d, inherited, acc);
    } else if key in inherited {
      StepInherited(dates, d, inherited, acc);
    } else {
      StepAdds(dates, d, inherited, acc);
    }
  }

  lemma AppendFacts(dates: seq<JsValue>, d: JsValue, inherited: set<string>)
    ensures forall i :: 0 <= i < |dates| ==> (dates + [d])[i] == dates[i]
    ensures forall k :: CountKey(dates + [d], k) == CountKey(dates, k) + (if ToStr(d) == k then 1 else 0)
    ensures CountIn(dates + [d], inherited) == CountIn(dates, inherited) + (if ToStr(d) in inherited then 1 else 0)
    ensures forall k :: FirstIndex(dates, k) < |dates| ==> FirstIndex(dates + [d], k) == FirstIndex(dates, k)
  {
    forall k ensures
      && CountKey(dates + [d], k) == CountKey(dates, k) + (if ToStr(d) == k then 1 else 0)
      && (FirstIndex(dates, k) < |dates| ==> FirstIndex(dates + [d], k) == FirstIndex(dates, k))
    {
      CountsOfAppend(dates, d, inherited, k);
    }
    CountsOfAppend(dates, d, inherited, ToStr(d));
  }

  lemma StepIncrements(dates: seq<JsValue>, d: JsValue, inherited: set<string>, acc: Acc)
    requires Tallied(dates, inherited, acc) && ToStr(d) in acc.buckets
    ensures Tallied(dates + [d], inherited, Step(acc, d, inherited))
  {
    TallyAfterIncrement(dates, d, inherited, acc);
    CoveredAfterStep(dates, d, inherited, acc);
    OrderAfterKeep(dates, d, inherited, acc);
    SumAfterIncrement(dates, d, inherited, acc);
  }

  lemma TallyAfterIncrement(dates: seq<JsValue>, d: JsValue, inherited: set<string>, acc: Acc)
    requires BucketsTally(dates, inherited, acc) && ToStr(d) in acc.buckets
    ensures BucketsTally(dates + [d], inherited, Step(acc, d, inherited))
  {
    AppendFacts(dates, d, inherited);
  }

  /** Every order whose key is not inherited has its bucket after any step. */
  lemma CoveredAfterStep(dates: seq<JsValue>, d: JsValue, inherited: set<string>, acc: Acc)
    requires AllCounted(dates, inherited, acc)
    ensures AllCounted(dates + [d], inherited, Step(acc, d, inherited))
  {
    var ds := dates + [d];
    var a := Step(acc, d, inherited);
    assert forall k :: k in acc.buckets ==> k in a.buckets;
    forall i | 0 <= i < |ds| && ToStr(ds[i]) !in inherited ensures ToStr(ds[i]) in a.buckets {
      if i < |dates| { assert ds[i] == dates[i]; }
    }
  }

  /** A step that adds no key keeps the keys in first-occurrence order. */
  lemma OrderAfterKeep(dates: seq<JsValue>, d: JsValue, inherited: set<string>, acc: Acc)
    requires KeysInFirstOrder(dates, acc) && KeysListed(acc) && BucketsTally(dates, inherited, acc)
    requires ToStr(d) in acc.buckets || ToStr(d) in inherited
    ensures KeysInFirstOrder(dates + [d], Step(acc, d, inherited))
  {
    FirstIndexStable(dates, d, inherited, acc);
    OrderOfSameKeys(dates, dates + [d], acc.keys);
  }

  /** A step that adds a key appends the one that occurs last. */
  lemma OrderAfterAdd(dates: seq<JsValue>, d: JsValue, inherited: set<string>, acc: Acc)
    requires KeysInFirstOrder(dates, acc) && KeysListed(acc) && BucketsTally(dates, inherited, acc)
    requires ToStr(d) !in acc.buckets && ToStr(d) !in inherited && FirstIndex(dates, ToStr(d)) == |dates|
    ensures KeysInFirstOrder(dates + [d], Step(acc, d, inherited))
  {
    FirstIndexStable(dates, d, inherited, acc);
    CountsOfAppend(dates, d, inherited, ToStr(d));
    OrderOfAppended(dates + [d], acc.keys, ToStr(d), |dates|);
  }

  lemma FirstIndexStable(dates: seq<JsValue>, d: JsValue, inherited: set<string>, acc: Acc)
    requires KeysListed(acc) && BucketsTally(dates, inherited, acc)
    ensures forall k :: k in acc.keys ==> FirstIndex(dates + [d], k) == FirstIndex(dates, k) < |dates|
  {
    forall k | k in acc.keys ensures FirstIndex(dates + [d], k) == FirstIndex(dates, k) < |dates| {
      assert k in acc.buckets;
      CountsOfAppend(dates, d, inherited, k);
    }
  }

  lemma OrderOfSameKeys(dates: seq<JsValue>, ds: seq<JsValue>, keys: seq<string>)
    requires forall i, j :: 0 <= i < j < |keys| ==> FirstIndex(dates, keys[i]) < FirstIndex(dates, keys[j])
    requires forall k :: k in keys ==> FirstIndex(ds, k) == FirstIndex(dates, k)
    ensures forall i, j :: 0 <= i < j < |keys| ==> FirstIndex(ds, keys[i]) < FirstIndex(ds, keys[j])
  {
    forall i, j | 0 <= i < j < |keys| ensures FirstIndex(ds, keys[i]) < FirstIndex(ds, keys[j]) {
      assert keys[i] in keys && keys[j] in keys;
    }
  }

  lemma OrderOfAppended(ds: seq<JsValue>, keys: seq<string>, key: string, n: nat)
    requires forall i, j :: 0 <= i < j < |keys| ==> FirstIndex(ds, keys[i]) < FirstIndex(ds, keys[j])
    requires forall k :: k in keys ==> FirstIndex(ds, k) < n
    requires FirstIndex(ds, key) == n
    ensures forall i, j :: 0 <= i < j < |keys + [key]| ==> FirstIndex(ds, (keys + [key])[i]) < FirstIndex(ds, (keys + [key])[j])
  {
    var ks := keys + [key];
    forall i, j | 0 <= i < j < |ks| ensures FirstIndex(ds, ks[i]) < FirstIndex(ds, ks[j]) {
      assert ks[i] == keys[i] && ks[i] in keys;
      if j < |keys| { assert ks[j] == keys[j]; }
    }
  }

  lemma SumAfterIncrement(dates: seq<JsValue>, d: JsValue, inherited: set<string>, acc: Acc)
    requires SumMatches(dates, inherited, acc) && KeysListed(acc)
    requires ToStr(d) in acc.buckets && ToStr(d) !in inherited
    ensures SumMatches(dates + [d], inherited, Step(acc, d, inherited))
  {
    var key := ToStr(d);
    var b := Bucket(acc.buckets[key].date, acc.buckets[key].total + 1);
    assert Step(acc, d, inherited) == Acc(acc.keys, acc.buckets[key := b]);
    CountInAppend(dates, d, inherited);
    SumIncremented(acc.keys, acc.buckets, key, b, CountIn(dates, inherited), |dates|);
  }

  lemma SumIncremented(keys: seq<string>, buckets: map<string, Bucket>, key: string, b: Bucket, lost: int, n: int)
    requires forall k :: k in keys ==> k in buckets
    requires Distinct(keys) && key in keys && b.total == buckets[key].total + 1
    requires SumTotals(ValuesOf(keys, buckets)) + lost == n
    ensures forall k :: k in keys ==> k in buckets[key := b]
    ensures SumTotals(ValuesOf(keys, buckets[key := b])) + lost == n + 1
  {
    SumUpdate(keys, key, b, buckets);
  }

  lemma CountInAppend(dates: seq<JsValue>, d: JsValue, inherited: set<string>)
    ensures CountIn(dates + [d], inherited) == CountIn(dates, inherited) + (if ToStr(d) in inherited then 1 else 0)
  {
    assert (dates + [d])[..|dates|] == dates;
  }

  lemma StepInherited(dates: seq<JsValue>, d: JsValue, inherited: set<string>, acc: Acc)
    requires Tallied(dates, inherited, acc) && ToStr(d) !in acc.buckets && ToStr(d) in inherited
    ensures Tallied(dates + [d], inherited, Step(acc, d, inherited))
  {
    AppendFacts(dates, d, inherited);
    CoveredAfterStep(dates, d, inherited, acc);
    OrderAfterKeep(dates, d, inherited, acc);
  }

  lemma StepAdds(dates: seq<JsValue>, d: JsValue, inherited: set<string>, acc: Acc)
    requires Tallied(dates, inherited, acc) && ToStr(d) !in acc.buckets && ToStr(d) !in inherited
    ensures Tallied(dates + [d], inherited, Step(acc, d, inherited))
  {
    var key := ToStr(d);
    forall i | 0 <= i < |dates| ensures ToStr(dates[i]) != key { }
    CountKeyAbsent(dates, key);
    CountsOfAppend(dates, d, inherited, key);
    assert FirstIndex(dates, key) == |dates|;
    TallyAfterAdd(dates, d, inherited, acc);
    CoveredAfterStep(dates, d, inherited, acc);
    OrderAfterAdd(dates, d, inherited, acc);
    SumAfterAdd(dates, d, inherited, acc);
  }

  lemma TallyAfterAdd(dates: seq<JsValue>, d: JsValue, inherited: set<string>, acc: Acc)
    requires BucketsTally(dates, inherited, acc) && ToStr(d) !in acc.buckets && ToStr(d) !in inherited
    requires FirstIndex(dates, ToStr(d)) == |dates| && CountKey(dates, ToStr(d)) == 0
    ensures BucketsTally(dates + [d], inherited, Step(acc, d, inherited))
  {
    AppendFacts(dates, d, inherited);
    CountsOfAppend(dates, d, inherited, ToStr(d));
  }

  lemma SumAfterAdd(dates: seq<JsValue>, d: JsValue, inherited: set<string>, acc: Acc)
    requires SumMatches(dates, inherited, acc) && KeysListed(acc)
    requires ToStr(d) !in acc.buckets && ToStr(d) !in inherited
    ensures KeysListed(Step(acc, d, inherited)) && SumMatches(dates + [d], inherited, Step(acc, d, inherited))
  {
    var key := ToStr(d);
    assert Step(acc, d, inherited) == Acc(acc.keys + [key], acc.buckets[key := Bucket(d, 1)]);
    CountInAppend(dates, d, inherited);
    SumAppended(acc.keys, acc.buckets, key, Bucket(d, 1), CountIn(dates, inherited), |dates|);
  }

  lemma SumAppended(keys: seq<string>, buckets: map<string, Bucket>, key: string, b: Bucket, lost: int, n: int)
    requires Distinct(keys) && (forall k :: k in buckets <==> k in keys)
    requires key !in keys && b.total == 1
    requires SumTotals(ValuesOf(keys, buckets)) + lost == n
    ensures Distinct(keys + [key]) && (forall k :: k in buckets[key := b] <==> k in keys + [key])
    ensures SumTotals(ValuesOf(keys + [key], buckets[key := b])) + lost == n + 1
  {
    var nb := buckets[key := b];
    ValuesOfAppend(keys, key, nb);
    ValuesOfOtherKey(keys, key, b, buckets);
    var v := ValuesOf(keys + [key], nb);
    assert v[..|v| - 1] == ValuesOf(keys, buckets);
  }


  /** The accumulator after any number of orders is tallied. */
  lemma {:induction false} AccumulateTallied(dates: seq<JsValue>, inherited: set<string>)
    ensures Tallied(dates, inherited, Accumulate(dates, inherited))
    decreases |dates|
  {
    if dates != [] {
      var init := dates[..|dates| - 1];
      AccumulateTallied(init, inherited);
      assert dates == init + [dates[|dates| - 1]];
      StepTallied(init, dates[|dates| - 1], inherited, Accumulate(init, inherited));
    }
  }

  // ---------------------------------------------------------------------------
  // The chart data

  /** `Object.values(orders.reduce(...))` for the orders' dates. */
  function ChartValues(dates: seq<JsValue>, inherited: set<string>): seq<Bucket> {
    var acc := Accumulate(dates, inherited);
    AccumulateTallied(dates, inherited);
    ValuesOf(OwnKeysOrder(acc.keys), acc.buckets)
  }

  /** `Object.values(orders.reduce(...))`: the reduce, then the values in
      own-key order. */
  method ChartData(dates: seq<JsValue>, inherited: set<string>) returns (data: seq<Bucket>)
    ensures data == ChartValues(dates, inherited)
    ensures forall j :: 0 <= j < |data| ==>
              data[j].total == CountKey(dates, ToStr(data[j].date)) >= 1 && ToStr(data[j].date) !in inherited
  {
    var keys, buckets := Reduce(dates, inherited);
    AccumulateTallied(dates, inherited);
    data := ValuesOf(OwnKeysOrder(keys), buckets);
    BucketTotals(dates, inherited);
    BucketsNotInherited(dates, inherited);
  }

  /** The reduce as a loop over the orders: a bucket is created with total 0
      when the key reads as falsy, then the key's total is incremented. */
  method Reduce(dates: seq<JsValue>, inherited: set<string>) returns (keys: seq<string>, buckets: map<string, Bucket>)
    ensures Acc(keys, buckets) == Accumulate(dates, inherited)
  {
    keys := [];
    buckets := map[];
    var i := 0;
    while i < |dates|
      invariant 0 <= i <= |dates|
      invariant Acc(keys, buckets) == Accumulate(dates[..i], inherited)
    {
      var date := dates[i];
      var key := ToStr(date);
      ghost var next := Step(Acc(keys, buckets), date, inherited);
      if key !in buckets && key !in inherited {
        keys := keys + [key];
        buckets := buckets[key := Bucket(date, 0)];
      }
      if key in buckets {
        buckets := buckets[key := Bucket(buckets[key].date, buckets[key].total + 1)];
      }
      assert Acc(keys, buckets) == next;
      AccumulatePrefix(dates, i, inherited);
      i := i + 1;
    }
    assert dates[..i] == dates;
  }

  lemma AccumulatePrefix(dates: seq<JsValue>, i: nat, inherited: set<string>)
    requires i < |dates|
    ensures Accumulate(dates[..i + 1], inherited) == Step(Accumulate(dates[..i], inherited), dates[i], inherited)
  {
    assert dates[..i + 1][..i] == dates[..i];
  }

  // ---------------------------------------------------------------------------
  // Properties

  /** Each bucket's own date converts to the key it is stored under. */
  lemma BucketsKeyedByDate(dates: seq<JsValue>, inherited: set<string>)
    ensures var acc := Accumulate(dates, inherited);
      forall k :: k in acc.buckets ==> ToStr(acc.buckets[k].date) == k
  {
    AccumulateTallied(dates, inherited);
  }

  /** Every order is counted exactly once: the bars add up to the number of
      orders, less those whose date names an inherited member. */
  lemma ChartCountsEveryOrder(dates: seq<JsValue>, inherited: set<string>)
    ensures SumTotals(ChartValues(dates, inherited)) + CountIn(dates, inherited) == |dates|
  {
    var acc := Accumulate(dates, inherited);
    AccumulateTallied(dates, inherited);
    SumPermutation(acc.keys, OwnKeysOrder(acc.keys), acc.buckets);
  }

  /** Without orders there are no bars. */
  lemma NoOrdersNoBuckets(inherited: set<string>)
    ensures ChartValues([], inherited) == []
  {
  }

  /** The bars are the buckets in Object.values order, each under its own
      date's key, each key listed once. */
  lemma ChartValuesKeys(dates: seq<JsValue>, inherited: set<string>)
    ensures var acc := Accumulate(dates, inherited);
      var order := OwnKeysOrder(acc.keys);
      var data := ChartValues(dates, inherited);
      && Tallied(dates, inherited, acc)
      && Distinct(order)
      && (forall k :: k in order <==> k in acc.buckets)
      && |data| == |order|
      && (forall j :: 0 <= j < |data| ==> data[j] == acc.buckets[order[j]] && ToStr(data[j].date) == order[j])
  {
    var acc := Accumulate(dates, inherited);
    AccumulateTallied(dates, inherited);
    BucketsKeyedByDate(dates, inherited);
    ValuesInOrder(acc.keys, acc.buckets);
    assert ChartValues(dates, inherited) == ValuesOf(OwnKeysOrder(acc.keys), acc.buckets);
  }

  lemma ValuesInOrder(keys: seq<string>, buckets: map<string, Bucket>)
    requires KeysListed(Acc(keys, buckets))
    requires forall k :: k in buckets ==> ToStr(buckets[k].date) == k
    ensures var order := OwnKeysOrder(keys);
      var data := ValuesOf(order, buckets);
      && Distinct(order)
      && (forall k :: k in order <==> k in buckets)
      && |data| == |order|
      && (forall j :: 0 <= j < |data| ==> data[j] == buckets[order[j]] && ToStr(data[j].date) == order[j])
  {
  }

  /** Every bar has total at least 1, and it is the number of orders whose
      date has the bar's key. */
  lemma BucketTotals(dates: seq<JsValue>, inherited: set<string>)
    ensures var data := ChartValues(dates, inherited);
      forall j :: 0 <= j < |data| ==> data[j].total == CountKey(dates, ToStr(data[j].date)) >= 1
  {
    ChartValuesKeys(dates, inherited);
  }

  /** No bar is kept under an inherited name. */
  lemma BucketsNotInherited(dates: seq<JsValue>, inherited: set<string>)
    ensures var data := ChartValues(dates, inherited);
      forall j :: 0 <= j < |data| ==> ToStr(data[j].date) !in inherited
  {
    ChartValuesKeys(dates, inherited);
  }

  /** Every date not inherited has a bar. */
  lemma EveryDateHasBucket(dates: seq<JsValue>, inherited: set<string>)
    ensures var data := ChartValues(dates, inherited);
      forall i :: 0 <= i < |dates| && ToStr(dates[i]) !in inherited ==>
        exists j :: 0 <= j < |data| && ToStr(data[j].date) == ToStr(dates[i])
  {
    ChartValuesKeys(dates, inherited);
    var acc := Accumulate(dates, inherited);
    var order := OwnKeysOrder(acc.keys);
    var data := ChartValues(dates, inherited);
    forall i | 0 <= i < |dates| && ToStr(dates[i]) !in inherited
      ensures exists j :: 0 <= j < |data| && ToStr(data[j].date) == ToStr(dates[i])
    {
      var k := ToStr(dates[i]);
      assert k in acc.buckets;
      var j :| 0 <= j < |order| && order[j] == k;
      assert ToStr(data[j].date) == k;
    }
  }

  /** No two bars share a key. */
  lemma BucketKeysDistinct(dates: seq<JsValue>, inherited: set<string>)
    ensures var data := ChartValues(dates, inherited);
      forall j1, j2 :: 0 <= j1 < j2 < |data| ==> ToStr(data[j1].date) != ToStr(data[j2].date)
  {
    ChartValuesKeys(dates, inherited);
  }

  /** When no key is an array index, the bars follow the first occurrence of
      their dates among the orders. */
  lemma FirstOccurrenceOrder(dates: seq<JsValue>, inherited: set<string>)
    requires forall i :: 0 <= i < |dates| ==> !IsArrayIndex(ToStr(dates[i]))
    ensures var data := ChartValues(dates, inherited);
      forall j1, j2 :: 0 <= j1 < j2 < |data| ==>
        FirstIndex(dates, ToStr(data[j1].date)) < FirstIndex(dates, ToStr(data[j2].date))
  {
    var acc := Accumulate(dates, inherited);
    AccumulateTallied(dates, inherited);
    BucketsKeyedByDate(dates, inherited);
    forall k | k in acc.keys ensures !IsArrayIndex(k) {
      assert FirstIndex(dates, k) < |dates|;
    }
    NoIndexKeys(acc.keys);
  }

  lemma NoIndexKeys(keys: seq<string>)
    requires forall k :: k in keys ==> !IsArrayIndex(k)
    ensures OwnKeysOrder(keys) == keys
  {
    NoIndexKeysFiltered(keys);
  }

  lemma {:induction false} NoIndexKeysFiltered(keys: seq<string>)
    requires forall k :: k in keys ==> !IsArrayIndex(k)
    ensures IndexKeys(keys) == [] && OtherKeys(keys) == keys
    decreases |keys|
  {
    if keys != [] {
      assert keys == [keys[0]] + keys[1..];
      NoIndexKeysFiltered(keys[1..]);
    }
  }

  // ---------------------------------------------------------------------------
  // The dashboard's orders

  /** An order date as the dashboard's orders carry it: text of the form YYYY-MM-DD. */
  predicate IsoDateText(v: JsValue) {
    v.Str? && |v.s| == 10 && v.s[4] == '-' && v.s[7] == '-'
  }

  /** A date text is neither an array index nor a member of Object.prototype. */
  lemma IsoDateKeyPlain(v: JsValue)
    requires IsoDateText(v)
    ensures !IsArrayIndex(ToStr(v)) && ToStr(v) !in ObjectPrototypeMembers
  {
    assert !IsDigit(ToStr(v)[4]);
  }

  lemma {:induction false} CountInNone(dates: seq<JsValue>, names: set<string>)
    requires forall i :: 0 <= i < |dates| ==> ToStr(dates[i]) !in names
    ensures CountIn(dates, names) == 0
    decreases |dates|
  {
    if dates != [] {
      CountInNone(dates[..|dates| - 1], names);
    }
  }

  /** When no order's date names a member of Object.prototype (the route's
      "-" default among them), the bars add up to the number of orders. */
  lemma PlainDatesCounted(dates: seq<JsValue>)
    requires forall i :: 0 <= i < |dates| ==> ToStr(dates[i]) !in ObjectPrototypeMembers
    ensures SumTotals(ChartValues(dates, ObjectPrototypeMembers)) == |dates|
  {
    ChartCountsEveryOrder(dates, ObjectPrototypeMembers);
    CountInNone(dates, ObjectPrototypeMembers);
  }

  /** For orders dated YYYY-MM-DD, counted into a fresh object: every order
      is counted once, the bars follow the first occurrence of their dates,
      and every date has its bar. */
  lemma IsoDatesChart(dates: seq<JsValue>)
    requires forall i :: 0 <= i < |dates| ==> IsoDateText(dates[i])
    ensures var data := ChartValues(dates, ObjectPrototypeMembers);
      && SumTotals(data) == |dates|
      && (forall j1, j2 :: 0 <= j1 < j2 < |data| ==>
            FirstIndex(dates, ToStr(data[j1].date)) < FirstIndex(dates, ToStr(data[j2].date)))
      && (forall i :: 0 <= i < |dates| ==> exists j :: 0 <= j < |data| && ToStr(data[j].date) == ToStr(dates[i]))
  {
    var inherited := ObjectPrototypeMembers;
    forall i | 0 <= i < |dates|
      ensures !IsArrayIndex(ToStr(dates[i])) && ToStr(dates[i]) !in inherited
    {
      IsoDateKeyPlain(dates[i]);
    }
    var acc := Accumulate(dates, inherited);
    AccumulateTallied(dates, inherited);
    CountInNone(dates, inherited);
    FirstOccurrenceOrder(dates, inherited);
    EveryDateHasBucket(dates, inherited);
    forall k | k in acc.keys ensures !IsArrayIndex(k) {
      assert FirstIndex(dates, k) < |dates|;
    }
    NoIndexKeys(acc.keys);
    assert ChartValues(dates, inherited) == ValuesOf(acc.keys, acc.buckets);
  }
}
