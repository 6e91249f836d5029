/** The cursor that a sequence of pages leaves behind, and when it names the largest key on them. */
module ReportedCursor {
  import opened Text
  import opened FeedbackKeys
  import opened CursorText

  type Pages = seq<seq<Item>>

  function Flat(pages: Pages): seq<Item> {
    if pages == [] then [] else Flat(pages[..|pages| - 1]) + pages[|pages| - 1]
  }

  function LastOf(page: seq<Item>): Item
    requires page != []
  {
    page[|page| - 1]
  }

  function KeyText(x: Item): string {
    PrintSince(x.key.Sort())
  }

  /** A page reports its last item; an empty one reports the since cursor, and nothing when there is none. */
  function Reported(pages: Pages, since: Option<string>): Option<string> {
    if pages == [] then since
    else
      var page := pages[|pages| - 1];
      if page != [] then Some(KeyText(LastOf(page)))
      else if since.Some? then since
      else Reported(pages[..|pages| - 1], since)
  }

  /** Page `m` is the last one with items; with a since cursor it must be the last page. */
  predicate Decides(pages: Pages, since: Option<string>, m: nat) {
    && m < |pages| && pages[m] != []
    && (forall k :: m < k < |pages| ==> pages[k] == [])
    && (since.Some? ==> m == |pages| - 1)
  }

  lemma {:induction false} DecidedBy(pages: Pages, since: Option<string>)
    ensures forall m: nat :: Decides(pages, since, m) ==> Reported(pages, since) == Some(KeyText(LastOf(pages[m])))
    ensures (forall m: nat :: !Decides(pages, since, m)) ==> Reported(pages, since) == since
  {
    hide KeyText;
    if pages != [] {
      var last := |pages| - 1;
      if pages[last] != [] {
        assert Decides(pages, since, last);
      } else if since.None? {
        var front := pages[..last];
        DecidedBy(front, since);
        forall m: nat ensures Decides(pages, since, m) <==> Decides(front, since, m) {
          assert m < last ==> front[m] == pages[m];
        }
        if forall m: nat :: !Decides(pages, since, m) {
          forall m: nat ensures !Decides(front, since, m) {
            assert !Decides(pages, since, m);
          }
        }
      }
    }
  }

  predicate Largest(items: seq<Item>, x: Item) {
    x in items && forall y :: y in items ==> !KeyLess(x.key, y.key)
  }

  /** The text names an item that no other item is above. */
  predicate NamesLargest(items: seq<Item>, text: Option<string>) {
    exists x :: x in items && Largest(items, x) && text == Some(KeyText(x))
  }

  predicate EachSorted(pages: Pages) {
    forall k :: 0 <= k < |pages| ==> Sorted(pages[k])
  }

  lemma {:induction false} OnSomePage(pages: Pages, x: Item)
    ensures x in Flat(pages) <==> exists k :: 0 <= k < |pages| && x in pages[k]
  {
    if pages != [] {
      var last := |pages| - 1;
      OnSomePage(pages[..last], x);
      if k :| 0 <= k < |pages| && x in pages[k] && k != last {
        assert x in pages[..last][k];
      }
    }
  }

  lemma LastIsLargest(page: seq<Item>, x: Item)
    requires Sorted(page) && page != [] && x in page
    ensures !KeyLess(LastOf(page).key, x.key)
  {
    hide KeyLess;
    KeyTotal(x.key, x.key);
    var i :| 0 <= i < |page| && page[i] == x;
  }

  lemma NotAboveThrough(x: Item, y: Item, z: Item)
    requires !KeyLess(x.key, y.key) && !KeyLess(y.key, z.key)
    ensures !KeyLess(x.key, z.key)
  {
    hide KeyLess;
    KeyTotal(x.key, y.key);
    KeyTotal(y.key, z.key);
    KeyTotal(x.key, z.key);
    if KeyLess(z.key, y.key) && KeyLess(y.key, x.key) {
      KeyTransitive(z.key, y.key, x.key);
    }
  }

  lemma {:induction false} LargestExists(items: seq<Item>) returns (x: Item)
    requires items != []
    ensures Largest(items, x)
  {
    hide KeyLess;
    var last := |items| - 1;
    x := items[last];
    KeyTotal(x.key, x.key);
    if last > 0 {
      var y := LargestExists(items[..last]);
      if KeyLess(x.key, y.key) {
        KeyTotal(x.key, y.key);
        x := y;
      } else {
        forall z | z in items[..last] ensures !KeyLess(x.key, z.key) {
          NotAboveThrough(x, y, z);
        }
      }
      assert items == items[..last] + [items[last]];
    }
  }

  /** No page ends above the end of page `m`. */
  predicate EndsHighest(pages: Pages, m: nat)
    requires m < |pages| && pages[m] != []
  {
    forall k :: 0 <= k < |pages| && pages[k] != [] ==> !KeyLess(LastOf(pages[m]).key, LastOf(pages[k]).key)
  }

  lemma HighestIff(pages: Pages, m: nat)
    requires EachSorted(pages) && m < |pages| && pages[m] != []
    ensures Largest(Flat(pages), LastOf(pages[m])) <==> EndsHighest(pages, m)
  {
    hide KeyLess, Sorted, Flat;
    var x := LastOf(pages[m]);
    OnSomePage(pages, x);
    if EndsHighest(pages, m) {
      forall y | y in Flat(pages) ensures !KeyLess(x.key, y.key) {
        OnSomePage(pages, y);
        var k :| 0 <= k < |pages| && y in pages[k];
        LastIsLargest(pages[k], y);
        NotAboveThrough(x, LastOf(pages[k]), y);
      }
    }
    if Largest(Flat(pages), x) {
      forall k | 0 <= k < |pages| && pages[k] != [] ensures !KeyLess(x.key, LastOf(pages[k]).key) {
        OnSomePage(pages, LastOf(pages[k]));
      }
    }
  }

  /** Two keys without the cursor's separator that have the same text are the same key. */
  lemma SameText(x: Item, y: Item)
    requires '|' !in x.key.updatedAt && '|' !in y.key.updatedAt && KeyText(x) == KeyText(y)
    ensures x.key == y.key
  {
    hide PrintSince;
    SinceRoundTrip(x.key);
    SinceRoundTrip(y.key);
    NamesDistinct(x.key.source, y.key.source);
  }

  /** The reported cursor names the largest key if and only if some page decides and no page ends above it. */
  lemma LargestIff(pages: Pages, since: Option<string>)
    requires EachSorted(pages)
    requires forall x :: x in Flat(pages) ==> '|' !in x.key.updatedAt && since != Some(KeyText(x))
    ensures NamesLargest(Flat(pages), Reported(pages, since))
            <==> exists m: nat :: Decides(pages, since, m) && EndsHighest(pages, m)
  {
    hide KeyLess, Sorted, Flat, KeyText, Reported;
    var items, text := Flat(pages), Reported(pages, since);
    DecidedBy(pages, since);
    if m: nat :| Decides(pages, since, m) {
      var last := LastOf(pages[m]);
      HighestIff(pages, m);
      OnSomePage(pages, last);
      if NamesLargest(items, text) {
        var x :| x in items && Largest(items, x) && text == Some(KeyText(x));
        SameText(x, last);
      }
    }
  }
}
