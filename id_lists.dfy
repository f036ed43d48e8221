/** The list updates the admin pages apply to their records: replacing the
    entries with a given id (`items.map(x => x.id === id ? y : x)`), keeping
    the entries a test accepts (`items.filter(...)`, which deletion uses with
    `x.id !== id`) and finding the first entry with an id (`items.find(...)`).
    Ids are compared with `==`, which is JavaScript's `===` on the string ids
    the pages hold. */
module IdLists {
  import opened Outcomes

  // ---------------------------------------------------------------------------
  // Order-preserving sublists

  /** a is b with some entries left out, the rest in their order. */
  predicate SubsequenceOf<T(==)>(a: seq<T>, b: seq<T>)
    decreases |b|
  {
    a == [] ||
    (b != [] &&
     ((a[|a| - 1] == b[|b| - 1] && SubsequenceOf(a[..|a| - 1], b[..|b| - 1]))
      || SubsequenceOf(a, b[..|b| - 1])))
  }

  // ---------------------------------------------------------------------------
  // filter

  /** `items.filter(keep)`: the accepted entries, in their order. */
  function Filter<T(!new)>(items: seq<T>, keep: T -> bool): (r: seq<T>)
    ensures |r| <= |items|
    ensures forall i :: 0 <= i < |r| ==> keep(r[i])
    decreases |items|
  {
    if items == [] then []
    else
      var r := Filter(items[..|items| - 1], keep);
      if keep(items[|items| - 1]) then r + [items[|items| - 1]] else r
  }

  /** The filter keeps every accepted entry as often as it occurs, and the
      entries it keeps stay in their order. */
  lemma {:induction false} FilterSpec<T(!new)>(items: seq<T>, keep: T -> bool)
    ensures multiset(Filter(items, keep)) <= multiset(items)
    ensures forall x :: keep(x) ==> multiset(Filter(items, keep))[x] == multiset(items)[x]
    ensures SubsequenceOf(Filter(items, keep), items)
    decreases |items|
  {
    if items != [] {
      var init := items[..|items| - 1];
      var last := items[|items| - 1];
      FilterSpec(init, keep);
      assert items == init + [last];
      var r := Filter(init, keep);
      if keep(last) {
        assert (r + [last])[..|r|] == r;
      } else if r != [] {
        assert items[..|items| - 1] == init;
      }
    }
  }

  /** Every entry accepted is kept, every entry refused is dropped. */
  lemma FilterMembers<T(!new)>(items: seq<T>, keep: T -> bool, x: T)
    ensures x in Filter(items, keep) <==> x in items && keep(x)
  {
    var r := Filter(items, keep);
    FilterSpec(items, keep);
    if x in items && keep(x) {
      assert multiset(items)[x] > 0;
      assert multiset(r)[x] > 0;
    }
    if x in r {
      assert multiset(r)[x] > 0;
      assert multiset(items)[x] > 0;
    }
  }

  /** A test that accepts every entry keeps the list as it is. */
  lemma {:induction false} FilterAll<T(!new)>(items: seq<T>, keep: T -> bool)
    requires forall i :: 0 <= i < |items| ==> keep(items[i])
    ensures Filter(items, keep) == items
    decreases |items|
  {
    if items != [] {
      FilterAll(items[..|items| - 1], keep);
      assert items == items[..|items| - 1] + [items[|items| - 1]];
    }
  }

  /** Filtering twice with the same test is filtering once. */
  lemma FilterIdempotent<T(!new)>(items: seq<T>, keep: T -> bool)
    ensures Filter(Filter(items, keep), keep) == Filter(items, keep)
  {
    FilterAll(Filter(items, keep), keep);
  }

  // ---------------------------------------------------------------------------
  // Delete by id

  /** `items.filter(x => x.id !== id)`. */
  function RemoveById<T(!new), K(==)>(items: seq<T>, idOf: T -> K, id: K): (r: seq<T>)
  {
    Filter(items, x => idOf(x) != id)
  }

  /** Deleting drops every entry with the id and keeps every other entry, in
      order and as often as it occurred. */
  lemma RemoveByIdSpec<T(!new), K>(items: seq<T>, idOf: T -> K, id: K)
    ensures var r := RemoveById(items, idOf, id);
      && SubsequenceOf(r, items)
      && (forall i :: 0 <= i < |r| ==> idOf(r[i]) != id)
      && (forall x :: idOf(x) != id ==> multiset(r)[x] == multiset(items)[x])
      && (forall x :: x in r <==> x in items && idOf(x) != id)
  {
    FilterSpec(items, x => idOf(x) != id);
    forall x ensures x in RemoveById(items, idOf, id) <==> x in items && idOf(x) != id {
      FilterMembers(items, x => idOf(x) != id, x);
    }
  }

  /** Deleting an id no entry has changes nothing. */
  lemma RemoveAbsent<T(!new), K>(items: seq<T>, idOf: T -> K, id: K)
    requires forall i :: 0 <= i < |items| ==> idOf(items[i]) != id
    ensures RemoveById(items, idOf, id) == items
  {
    FilterAll(items, x => idOf(x) != id);
  }

  // ---------------------------------------------------------------------------
  // Replace by id

  /** `items.map(x => x.id === id ? y : x)`. */
  function ReplaceById<T(!new), K(==)>(items: seq<T>, idOf: T -> K, id: K, y: T): (r: seq<T>)
    ensures |r| == |items|
    ensures forall i :: 0 <= i < |items| && idOf(items[i]) == id ==> r[i] == y
    ensures forall i :: 0 <= i < |items| && idOf(items[i]) != id ==> r[i] == items[i]
    decreases |items|
  {
    if items == [] then []
    else
      var last := items[|items| - 1];
      ReplaceById(items[..|items| - 1], idOf, id, y) + [if idOf(last) == id then y else last]
  }

  /** Replacing with an entry that carries the id again changes nothing more. */
  lemma ReplaceIdempotent<T(!new), K>(items: seq<T>, idOf: T -> K, id: K, y: T)
    requires idOf(y) == id
    ensures ReplaceById(ReplaceById(items, idOf, id, y), idOf, id, y) == ReplaceById(items, idOf, id, y)
  {
  }

  /** Replacing an id no entry has changes nothing. */
  lemma ReplaceAbsent<T(!new), K>(items: seq<T>, idOf: T -> K, id: K, y: T)
    requires forall i :: 0 <= i < |items| ==> idOf(items[i]) != id
    ensures ReplaceById(items, idOf, id, y) == items
  {
  }

  /** When the new entry keeps the id, deleting that id afterwards leaves
      what deleting it first would: the replacement touched nothing else. */
  lemma {:induction false} RemoveAfterReplace<T(!new), K>(items: seq<T>, idOf: T -> K, id: K, y: T)
    requires idOf(y) == id
    ensures RemoveById(ReplaceById(items, idOf, id, y), idOf, id) == RemoveById(items, idOf, id)
    decreases |items|
  {
    if items != [] {
      var init := items[..|items| - 1];
      var r := ReplaceById(items, idOf, id, y);
      RemoveAfterReplace(init, idOf, id, y);
      assert r[..|r| - 1] == ReplaceById(init, idOf, id, y);
    }
  }

  // ---------------------------------------------------------------------------
  // find

  /** The position of the first entry with the id; |items| when there is none. */
  function FindIndex<T(!new), K(==)>(items: seq<T>, idOf: T -> K, id: K): (k: nat)
    ensures k <= |items|
    ensures k < |items| ==> idOf(items[k]) == id
    ensures forall j :: 0 <= j < k ==> idOf(items[j]) != id
    decreases |items|
  {
    if items == [] then 0
    else if idOf(items[0]) == id then 0
    else 1 + FindIndex(items[1..], idOf, id)
  }

  /** `items.find(x => x.id === id) || null`: the first entry with the id. */
  function FindById<T(!new), K(==)>(items: seq<T>, idOf: T -> K, id: K): (r: Option<T>)
  {
    var k := FindIndex(items, idOf, id);
    if k < |items| then Some(items[k]) else None
  }

  /** find answers the first entry carrying the id, and nothing exactly when
      no entry carries it. */
  lemma FindByIdSpec<T(!new), K>(items: seq<T>, idOf: T -> K, id: K)
    ensures var r := FindById(items, idOf, id);
      && (r.None? <==> forall i :: 0 <= i < |items| ==> idOf(items[i]) != id)
      && (r.Some? ==> exists k :: 0 <= k < |items| && r.value == items[k] && idOf(items[k]) == id
                                  && forall j :: 0 <= j < k ==> idOf(items[j]) != id)
  {
    var k := FindIndex(items, idOf, id);
    if k < |items| {
      assert FindById(items, idOf, id).value == items[k];
    }
  }

  /** After deleting an id, find no longer answers an entry for it. */
  lemma FindAfterRemove<T(!new), K>(items: seq<T>, idOf: T -> K, id: K)
    ensures FindById(RemoveById(items, idOf, id), idOf, id).None?
  {
    RemoveByIdSpec(items, idOf, id);
  }
}
