/** Sort keys of pull-request feedback and the order the adapter sorts and filters by. */
module FeedbackKeys {
  import opened Text

  datatype Source = Issue | ReviewComment | Review {
    function Name(): (name: string)
      ensures name != []
    {
      match this
      case Issue => "issue"
      case ReviewComment => "review_comment"
      case Review => "review"
    }
  }

  /** The tuple `(updated_at, source, numeric_id)`; a parsed since cursor may name any source. */
  datatype SortKey = SortKey(updatedAt: string, source: string, id: int)

  predicate TupleLess(a: SortKey, b: SortKey) {
    || StrLess(a.updatedAt, b.updatedAt)
    || (a.updatedAt == b.updatedAt
        && (StrLess(a.source, b.source) || (a.source == b.source && a.id < b.id)))
  }

  datatype Key = Key(updatedAt: string, source: Source, id: int) {
    function Sort(): SortKey {
      SortKey(updatedAt, source.Name(), id)
    }
  }

  datatype Item = Item(key: Key, body: string)

  predicate KeyLess(a: Key, b: Key) {
    TupleLess(a.Sort(), b.Sort())
  }

  lemma NamesDistinct(a: Source, b: Source)
    ensures a.Name() == b.Name() ==> a == b
  {
    var issue, review, comment := Issue.Name(), Review.Name(), ReviewComment.Name();
    assert |issue| == 5 && |review| == 6 && |comment| == 14;
  }

  /** The keys are totally ordered, so "not at or below the since key" means "above it". */
  lemma TupleTotal(a: SortKey, b: SortKey)
    ensures TupleLess(a, b) || a == b || TupleLess(b, a)
    ensures !(TupleLess(a, b) && TupleLess(b, a)) && !(TupleLess(a, b) && a == b)
  {
    StrTrichotomy(a.updatedAt, b.updatedAt);
    StrTrichotomy(a.source, b.source);
  }

  lemma TupleTransitive(a: SortKey, b: SortKey, c: SortKey)
    requires TupleLess(a, b) && TupleLess(b, c)
    ensures TupleLess(a, c)
  {
    StrTrichotomy(a.updatedAt, c.updatedAt);
    if StrLess(a.updatedAt, b.updatedAt) && StrLess(b.updatedAt, c.updatedAt) {
      StrTransitive(a.updatedAt, b.updatedAt, c.updatedAt);
    } else if StrLess(a.source, b.source) && StrLess(b.source, c.source) {
      StrTransitive(a.source, b.source, c.source);
    }
  }

  lemma KeyTotal(a: Key, b: Key)
    ensures KeyLess(a, b) || a == b || KeyLess(b, a)
    ensures !(KeyLess(a, b) && KeyLess(b, a)) && !(KeyLess(a, b) && a == b)
  {
    TupleTotal(a.Sort(), b.Sort());
    NamesDistinct(a.source, b.source);
  }

  lemma KeyTransitive(a: Key, b: Key, c: Key)
    requires KeyLess(a, b) && KeyLess(b, c)
    ensures KeyLess(a, c)
  {
    TupleTransitive(a.Sort(), b.Sort(), c.Sort());
  }

  /** No later item sorts strictly before an earlier one. */
  predicate Sorted(items: seq<Item>) {
    forall i, j :: 0 <= i < j < |items| ==> !KeyLess(items[j].key, items[i].key)
  }

  /** Places `x` after every item that does not sort after it, as a stable sort does. */
  function Insert(items: seq<Item>, x: Item): (r: seq<Item>)
    ensures multiset(r) == multiset(items) + multiset{x}
  {
    if items == [] || !KeyLess(x.key, items[|items| - 1].key) then
      items + [x]
    else
      var last := |items| - 1;
      assert items == items[..last] + [items[last]];
      Insert(items[..last], x) + [items[last]]
  }

  function SortByKey(items: seq<Item>): (r: seq<Item>)
    ensures multiset(r) == multiset(items)
  {
    if items == [] then []
    else
      var last := |items| - 1;
      assert items == items[..last] + [items[last]];
      Insert(SortByKey(items[..last]), items[last])
  }

  lemma InsertMember(items: seq<Item>, x: Item, y: Item)
    requires y in Insert(items, x)
    ensures y in items || y == x
  {
    assert y in multiset(Insert(items, x));
  }

  /** Everything in a sorted run stays at or below a bound on its last item. */
  lemma SortedBelow(items: seq<Item>, x: Item, i: nat)
    requires Sorted(items) && i < |items|
    requires !KeyLess(x.key, items[|items| - 1].key)
    ensures !KeyLess(x.key, items[i].key)
  {
    var last := items[|items| - 1];
    KeyTotal(items[i].key, last.key);
    if KeyLess(x.key, items[i].key) && KeyLess(items[i].key, last.key) {
      KeyTransitive(x.key, items[i].key, last.key);
    }
  }

  lemma SortedAppend(items: seq<Item>, x: Item)
    requires Sorted(items)
    requires forall y :: y in items ==> !KeyLess(x.key, y.key)
    ensures Sorted(items + [x])
  {
  }

  lemma {:induction false} InsertSorted(items: seq<Item>, x: Item)
    requires Sorted(items)
    ensures Sorted(Insert(items, x))
  {
    var last := |items| - 1;
    if items == [] || !KeyLess(x.key, items[last].key) {
      forall y | y in items ensures !KeyLess(x.key, y.key) {
        var i :| 0 <= i < |items| && items[i] == y;
        SortedBelow(items, x, i);
      }
      SortedAppend(items, x);
    } else {
      var front := Insert(items[..last], x);
      InsertSorted(items[..last], x);
      forall y | y in front ensures !KeyLess(items[last].key, y.key) {
        InsertMember(items[..last], x, y);
        KeyTotal(x.key, items[last].key);
      }
      SortedAppend(front, items[last]);
    }
  }

  /** The items with one key, in the order they stand in. */
  function WithKey(items: seq<Item>, key: Key): seq<Item> {
    if items == [] then []
    else
      var last := items[|items| - 1];
      WithKey(items[..|items| - 1], key) + if last.key == key then [last] else []
  }

  lemma WithKeyAppend(items: seq<Item>, x: Item, key: Key)
    ensures WithKey(items + [x], key) == WithKey(items, key) + if x.key == key then [x] else []
  {
    assert (items + [x])[..|items|] == items;
  }

  lemma {:induction false} InsertStable(items: seq<Item>, x: Item, key: Key)
    ensures WithKey(Insert(items, x), key) == WithKey(items + [x], key)
  {
    hide KeyLess;
    var last := |items| - 1;
    if items != [] && KeyLess(x.key, items[last].key) {
      InsertStable(items[..last], x, key);
      WithKeyAppend(Insert(items[..last], x), items[last], key);
      WithKeyAppend(items[..last], x, key);
      WithKeyAppend(items, x, key);
      KeyTotal(x.key, items[last].key);
    }
  }

  /** The result is in order, is a permutation, and keeps items with equal keys in the order they came in. */
  lemma {:induction false} SortByKeySorted(items: seq<Item>)
    ensures Sorted(SortByKey(items))
    ensures multiset(SortByKey(items)) == multiset(items)
    ensures forall key :: WithKey(SortByKey(items), key) == WithKey(items, key)
  {
    hide KeyLess, Sorted;
    if items == [] {
      NothingSorted();
    } else {
      var last := |items| - 1;
      var front := SortByKey(items[..last]);
      SortByKeySorted(items[..last]);
      InsertSorted(front, items[last]);
      forall key ensures WithKey(SortByKey(items), key) == WithKey(items, key) {
        InsertStable(front, items[last], key);
        WithKeyAppend(front, items[last], key);
      }
    }
  }

  lemma NothingSorted()
    ensures Sorted([])
  {
  }
}
