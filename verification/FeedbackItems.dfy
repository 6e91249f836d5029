/** What one call returns, and that no item stands twice in what it loads. */
module FeedbackItems {
  import opened Text
  import opened FeedbackKeys
  import opened FeedbackPaging
  import opened FeedbackRuns

  /** Cutting a sorted list keeps, with every item, all the items that sort before it. */
  lemma TakeIsDownClosed(items: seq<Item>, limit: nat, x: Item, y: Item)
    requires Sorted(items)
    requires x in Take(items, limit) && y in items && KeyLess(y.key, x.key)
    ensures y in Take(items, limit)
  {
    var i :| 0 <= i < |Take(items, limit)| && items[i] == x;
    var j :| 0 <= j < |items| && items[j] == y;
    KeyTotal(x.key, y.key);
    assert j < i;
    assert Take(items, limit)[j] == y;
  }

  lemma MergedSorted(views: Views, cs: Cursors, perPage: nat)
    requires ValidCursors(cs)
    ensures Sorted(Merged(views, cs, perPage))
  {
    hide Window;
    SortByKeySorted(Loaded(Window(views.Get(Issue), cs.Get(Issue), perPage))
                    + Loaded(Window(views.Get(ReviewComment), cs.Get(ReviewComment), perPage))
                    + Loaded(Window(views.Get(Review), cs.Get(Review), perPage)));
  }

  lemma PageItems(views: Views, cs: Cursors, limit: nat)
    requires ValidCursors(cs)
    ensures ReadPage(views, cs, limit).items == Take(Merged(views, cs, PerPage(limit)), limit)
    ensures |ReadPage(views, cs, limit).items| <= limit
  {
    hide Merged, NextCursor;
  }

  // ---- Items are handed out once --------------------------------------------

  /** A window whose loaded items strictly increase loads each of them once. */
  lemma {:induction false} LoadedOnce(window: seq<Entry>, x: Item)
    requires forall i, j :: 0 <= i < j < |window| && window[i].Some? && window[j].Some?
               ==> window[i].value != window[j].value
    ensures multiset(Loaded(window))[x] <= 1
  {
    if window != [] {
      var last := |window| - 1;
      LoadedOnce(window[..last], x);
      LoadedMembers(window[..last], x);
      if window[last] == Some(x) {
        assert x !in Loaded(window[..last]);
        assert x !in multiset(Loaded(window[..last]));
      }
    }
  }

  lemma SliceOnce(views: Views, s: Source, lo: int, hi: int, x: Item)
    requires UniqueIds(views) && Tagged(views) && 0 <= lo <= hi <= |views.Get(s)|
    ensures multiset(Loaded(views.Get(s)[lo..hi]))[x] <= if x.key.source == s then 1 else 0
  {
    var entries, window := views.Get(s), views.Get(s)[lo..hi];
    forall i, j | 0 <= i < j < |window| && window[i].Some? && window[j].Some?
      ensures window[i].value != window[j].value
    {
      assert window[i] == entries[lo + i] && window[j] == entries[lo + j];
    }
    LoadedOnce(window, x);
    LoadedMembers(window, x);
    assert x in Loaded(window) <==> x in multiset(Loaded(window));
    if Some(x) in window {
      assert Some(x) in entries;
    }
  }

  lemma WindowOnce(views: Views, cs: Cursors, perPage: nat, s: Source, x: Item)
    requires perPage >= 1 && AllInRange(views, cs, perPage) && ValidCursors(cs)
    requires UniqueIds(views) && Tagged(views)
    ensures multiset(Loaded(Window(views.Get(s), cs.Get(s), perPage)))[x] <= if x.key.source == s then 1 else 0
  {
    hide Window, InRange, UniqueIds, Tagged;
    assert InRange(views.Get(s), cs.Get(s), perPage);
    WindowIsSlice(views.Get(s), cs.Get(s), perPage);
    var lo, hi :| 0 <= lo <= hi <= |views.Get(s)| && Window(views.Get(s), cs.Get(s), perPage) == views.Get(s)[lo..hi];
    SliceOnce(views, s, lo, hi, x);
  }

  lemma WindowIsSlice(entries: seq<Entry>, c: SourceCursor, perPage: nat)
    requires perPage >= 1 && InRange(entries, c, perPage)
    ensures exists lo, hi :: 0 <= lo <= hi <= |entries| && Window(entries, c, perPage) == entries[lo..hi]
  {
    if c.page.Number? {
      hide PageStart, After, PageOf;
      WindowShape(entries, c, perPage);
    } else {
      assert Window(entries, c, perPage) == entries[0..0];
    }
  }

  lemma MergedOnce(views: Views, cs: Cursors, perPage: nat, x: Item)
    requires perPage >= 1 && AllInRange(views, cs, perPage) && ValidCursors(cs)
    requires UniqueIds(views) && Tagged(views)
    ensures multiset(Merged(views, cs, perPage))[x] <= 1
  {
    hide Window, AllInRange, UniqueIds, Tagged;
    forall s: Source
      ensures multiset(Loaded(Window(views.Get(s), cs.Get(s), perPage)))[x] <= if x.key.source == s then 1 else 0
    {
      WindowOnce(views, cs, perPage, s, x);
    }
    var a := Loaded(Window(views.Get(Issue), cs.Get(Issue), perPage));
    var b := Loaded(Window(views.Get(ReviewComment), cs.Get(ReviewComment), perPage));
    var c := Loaded(Window(views.Get(Review), cs.Get(Review), perPage));
    assert multiset(a + b + c) == multiset(a) + multiset(b) + multiset(c);
  }

  lemma TakeCount(items: seq<Item>, limit: nat, x: Item)
    ensures multiset(Take(items, limit))[x] <= multiset(items)[x]
  {
    if |items| > limit {
      assert items == items[..limit] + items[limit..];
    }
  }

  ghost predicate Behind(views: Views, cs: Cursors, perPage: nat, item: Item) {
    exists s: Source, i :: 0 <= i < Position(views.Get(s), cs.Get(s), perPage) && i < |views.Get(s)|
                           && views.Get(s)[i] == Some(item)
  }

  lemma OnlyPlace(views: Views, s: Source, i: nat, t: Source, j: nat, item: Item)
    requires UniqueIds(views) && Tagged(views)
    requires i < |views.Get(s)| && j < |views.Get(t)| && views.Get(s)[i] == views.Get(t)[j] == Some(item)
    ensures s == t && i == j
  {
  }

  lemma InWindowAt(views: Views, cs: Cursors, perPage: nat, s: Source, i: nat, item: Item)
    requires perPage >= 1 && InRange(views.Get(s), cs.Get(s), perPage) && UniqueIds(views) && Tagged(views)
    requires i < |views.Get(s)| && views.Get(s)[i] == Some(item)
             && Some(item) in Window(views.Get(s), cs.Get(s), perPage)
    ensures cs.Get(s).page.Number?
    ensures var start := Position(views.Get(s), cs.Get(s), perPage);
            start <= i < start + |Window(views.Get(s), cs.Get(s), perPage)|
  {
    hide UniqueIds, Tagged, PageStart, After, PageOf, Position;
    var entries, c := views.Get(s), cs.Get(s);
    OpenIfSeen(entries, c, perPage, item);
    WindowShape(entries, c, perPage);
    hide Window, InRange, ValidCursor;
    var window, start := Window(entries, c, perPage), Position(entries, c, perPage);
    var k :| 0 <= k < |window| && window[k] == Some(item);
    assert entries[start + k] == Some(item);
    OnlyPlace(views, s, i, s, start + k, item);
  }

  lemma OpenIfSeen(entries: seq<Entry>, c: SourceCursor, perPage: nat, item: Item)
    requires ValidCursor(c) && Some(item) in Window(entries, c, perPage)
    ensures c.page.Number?
  {
  }

  lemma BehindKept(views: Views, cs: Cursors, limit: nat, item: Item)
    requires limit >= 1 && AllInRange(views, cs, PerPage(limit)) && ValidCursors(cs)
    requires Behind(views, cs, PerPage(limit), item)
    ensures Behind(views, ReadPage(views, cs, limit).next, PerPage(limit), item)
  {
    hide ReadPage, Window, PageStart;
    var perPage := PerPage(limit);
    var s: Source, i :| 0 <= i < Position(views.Get(s), cs.Get(s), perPage) && i < |views.Get(s)|
                        && views.Get(s)[i] == Some(item);
    assert InRange(views.Get(s), cs.Get(s), perPage);
    NextCursors(views, cs, limit, s);
    Advance(views.Get(s), cs.Get(s), perPage, IdsOf(ReadPage(views, cs, limit).items));
  }

  lemma SeenIsMerged(views: Views, cs: Cursors, perPage: nat, s: Source, j: nat)
    requires ValidCursors(cs)
    requires var window := Window(views.Get(s), cs.Get(s), perPage); j < |window| && window[j].Some?
    ensures Window(views.Get(s), cs.Get(s), perPage)[j].value in Merged(views, cs, perPage)
  {
    hide Window, Merged;
    var window := Window(views.Get(s), cs.Get(s), perPage);
    assert Some(window[j].value) in window;
    MergedMembers(views, cs, perPage, window[j].value);
  }
}
