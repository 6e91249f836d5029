/** Limits under which no order is needed, and exactly when a call moves nothing. */
module StuckCalls {
  import opened Text
  import opened FeedbackKeys
  import opened FeedbackPaging
  import opened FeedbackRuns
  import opened FeedbackItems
  import opened RunsOnce

  // ---- Limits that need no order --------------------------------------------

  lemma {:induction false} LoadedLength(window: seq<Entry>)
    ensures |Loaded(window)| <= |window|
  {
    if window != [] {
      LoadedLength(window[..|window| - 1]);
    }
  }

  lemma WindowLength(entries: seq<Entry>, c: SourceCursor, perPage: nat)
    requires ValidCursor(c)
    ensures |Window(entries, c, perPage)| <= perPage && |Window(entries, c, perPage)| <= |entries|
  {
    hide PageStart;
  }

  lemma SortedLength(items: seq<Item>)
    ensures |SortByKey(items)| == |items|
  {
    assert |multiset(SortByKey(items))| == |multiset(items)|;
  }

  lemma MergedLength(views: Views, cs: Cursors, perPage: nat)
    requires ValidCursors(cs)
    ensures |Merged(views, cs, perPage)| <= 3 * perPage
    ensures |Merged(views, cs, perPage)| <= |views.issue| + |views.reviewComment| + |views.review|
  {
    hide Window, Loaded;
    forall s: Source
      ensures |Loaded(Window(views.Get(s), cs.Get(s), perPage))| <= perPage
      ensures |Loaded(Window(views.Get(s), cs.Get(s), perPage))| <= |views.Get(s)|
    {
      assert ValidCursor(cs.Get(s));
      WindowLength(views.Get(s), cs.Get(s), perPage);
      LoadedLength(Window(views.Get(s), cs.Get(s), perPage));
    }
    SortedLength(Loaded(Window(views.Get(Issue), cs.Get(Issue), perPage))
                 + Loaded(Window(views.Get(ReviewComment), cs.Get(ReviewComment), perPage))
                 + Loaded(Window(views.Get(Review), cs.Get(Review), perPage)));
    assert views.Get(Issue) == views.issue && views.Get(ReviewComment) == views.reviewComment;
  }

  /** A call that returns all it loaded consumes every window. */
  lemma WholeCall(views: Views, cs: Cursors, limit: nat)
    requires ValidCursors(cs) && |Merged(views, cs, PerPage(limit))| <= limit
    ensures forall s: Source ::
              var window := Window(views.Get(s), cs.Get(s), PerPage(limit));
              Consumed(window, IdsOf(ReadPage(views, cs, limit).items)) == |window|
    ensures PassesReturned(views, cs, limit)
    ensures !AllExhausted(cs) ==> SomeSourceMoves(views, cs, limit)
  {
    hide ReadPage, Merged, Window;
    var perPage := PerPage(limit);
    PageItems(views, cs, limit);
    var items := ReadPage(views, cs, limit).items;
    forall s: Source, j |
      0 <= j < |Window(views.Get(s), cs.Get(s), perPage)| && Window(views.Get(s), cs.Get(s), perPage)[j].Some?
      ensures Returned(Window(views.Get(s), cs.Get(s), perPage)[j], IdsOf(items))
    {
      SeenIsMerged(views, cs, perPage, s, j);
    }
    if !AllExhausted(cs) {
      var s: Source :| cs.Get(s).page.Number?;
      assert Moves(views.Get(s), cs.Get(s), perPage, IdsOf(items));
    }
  }

  /** With a limit of at least three full pages, or of at least all that is listed, any order will do. */
  lemma LargeLimitIsSteady(views: Views, limit: nat)
    requires limit >= 1
    requires limit >= 3 * PER_PAGE_MAX || limit >= |views.issue| + |views.reviewComment| + |views.review|
    ensures Steady(views, limit)
  {
    hide ReadPage, SomeSourceMoves, PassesReturned, AllExhausted, Merged;
    forall k: nat | !Ended(views, limit, k)
      ensures SomeSourceMoves(views, Iterate(views, limit, k).cursors, limit)
      ensures PassesReturned(views, Iterate(views, limit, k).cursors, limit)
    {
      MergedLength(views, Iterate(views, limit, k).cursors, PerPage(limit));
      WholeCall(views, Iterate(views, limit, k).cursors, limit);
    }
  }

  // ---- What moves a source --------------------------------------------------

  function ItemSet(items: seq<Item>): set<Item> {
    set item | item in items
  }

  function BelowKey(items: seq<Item>, key: Key): set<Item> {
    set item | item in items && KeyLess(item.key, key)
  }

  /** The loaded items that sort before `key`. */
  function Below(views: Views, cs: Cursors, perPage: nat, key: Key): set<Item>
    requires ValidCursors(cs)
  {
    BelowKey(Merged(views, cs, perPage), key)
  }

  lemma {:induction false} PrefixCard(items: seq<Item>)
    requires forall i, j :: 0 <= i < j < |items| ==> items[i] != items[j]
    ensures |ItemSet(items)| == |items|
    decreases |items|
  {
    if items != [] {
      var last := |items| - 1;
      PrefixCard(items[..last]);
      assert ItemSet(items) == ItemSet(items[..last]) + {items[last]};
    }
  }

  lemma DistinctFrom(items: seq<Item>)
    requires forall x :: multiset(items)[x] <= 1
    ensures forall i, j :: 0 <= i < j < |items| ==> items[i] != items[j]
  {
    forall i, j | 0 <= i < j < |items| ensures items[i] != items[j] {
      assert items == items[..j] + items[j..];
      assert multiset(items) == multiset(items[..j]) + multiset(items[j..]);
      assert items[..j][i] == items[i] && items[j..][0] == items[j];
      assert items[i] in multiset(items[..j]) && items[j] in multiset(items[j..]);
      assert multiset(items)[items[i]] <= 1;
    }
  }

  /** In a sorted list without equal keys, an item is preceded by exactly the items that sort before it. */
  lemma RankInSorted(merged: seq<Item>, at: nat)
    requires Sorted(merged) && at < |merged|
    requires forall i, j :: 0 <= i < j < |merged| ==> merged[i].key != merged[j].key
    ensures |BelowKey(merged, merged[at].key)| == at
  {
    hide KeyLess;
    var front := merged[..at];
    PrefixCard(front);
    forall item ensures item in merged && KeyLess(item.key, merged[at].key) <==> item in front {
      if item in front {
        var i :| 0 <= i < at && front[i] == item;
        KeyTotal(merged[i].key, merged[at].key);
      } else if item in merged {
        var i :| 0 <= i < |merged| && merged[i] == item;
        KeyTotal(item.key, item.key);
      }
    }
    hide KeyLess, Sorted;
    assert BelowKey(merged, merged[at].key) == ItemSet(front);
  }

  /** Two loaded items with the same source and id are the same item. */
  lemma LoadedIds(views: Views, cs: Cursors, perPage: nat, x: Item, y: Item)
    requires perPage >= 1 && AllInRange(views, cs, perPage) && ValidCursors(cs) && UniqueIds(views) && Tagged(views)
    requires x in Merged(views, cs, perPage) && y in Merged(views, cs, perPage)
    requires x.key.source == y.key.source && x.key.id == y.key.id
    ensures x == y
  {
    hide Merged, Window;
    MergedMembers(views, cs, perPage, x);
    MergedMembers(views, cs, perPage, y);
    var s: Source :| Some(x) in Window(views.Get(s), cs.Get(s), perPage);
    var t: Source :| Some(y) in Window(views.Get(t), cs.Get(t), perPage);
    assert InRange(views.Get(s), cs.Get(s), perPage) && InRange(views.Get(t), cs.Get(t), perPage);
    WindowMember(views.Get(s), cs.Get(s), perPage, x);
    WindowMember(views.Get(t), cs.Get(t), perPage, y);
    var i :| 0 <= i < |views.Get(s)| && views.Get(s)[i] == Some(x);
    var j :| 0 <= j < |views.Get(t)| && views.Get(t)[j] == Some(y);
    assert s == t;
    assert i < j || j < i || i == j;
  }

  /** A source moves exactly when it has nothing to look at, or its first entry was filtered out, or fewer than `limit`
      loaded items sort before it. */
  lemma MovesIff(views: Views, cs: Cursors, limit: nat, s: Source)
    requires limit >= 1 && AllInRange(views, cs, PerPage(limit)) && ValidCursors(cs)
    requires UniqueIds(views) && Tagged(views)
    ensures var perPage := PerPage(limit);
            var window := Window(views.Get(s), cs.Get(s), perPage);
            Moves(views.Get(s), cs.Get(s), perPage, IdsOf(ReadPage(views, cs, limit).items))
            <==> cs.Get(s).page.Number?
                 && (window == [] || window[0].None? || |Below(views, cs, perPage, window[0].value.key)| < limit)
  {
    hide ReadPage, Merged, Window, AllInRange, UniqueIds, Tagged, KeyLess;
    var perPage := PerPage(limit);
    var merged, window := Merged(views, cs, perPage), Window(views.Get(s), cs.Get(s), perPage);
    PageItems(views, cs, limit);
    var items := ReadPage(views, cs, limit).items;
    if window != [] && window[0].Some? {
      var head := window[0].value;
      SeenIsMerged(views, cs, perPage, s, 0);
      HeadRank(views, cs, perPage, head);
      var at :| 0 <= at < |merged| && merged[at] == head && |Below(views, cs, perPage, head.key)| == at;
      MergedDistinct(views, cs, perPage);
      if at < limit {
        assert items[at] == head;
        assert Returned(window[0], IdsOf(items));
      } else {
        forall y | y in items ensures (y.key.source, y.key.id) != (head.key.source, head.key.id) {
          var i :| 0 <= i < |items| && items[i] == y;
          assert y == merged[i] && y in merged;
          if (y.key.source, y.key.id) == (head.key.source, head.key.id) {
            LoadedIds(views, cs, perPage, y, head);
          }
        }
      }
    }
  }

  lemma MergedDistinct(views: Views, cs: Cursors, perPage: nat)
    requires perPage >= 1 && AllInRange(views, cs, perPage) && ValidCursors(cs) && UniqueIds(views) && Tagged(views)
    ensures var merged := Merged(views, cs, perPage);
            forall i, j :: 0 <= i < j < |merged| ==> merged[i].key != merged[j].key && merged[i] != merged[j]
  {
    hide Merged, AllInRange, UniqueIds, Tagged;
    var merged := Merged(views, cs, perPage);
    forall x ensures multiset(merged)[x] <= 1 {
      MergedOnce(views, cs, perPage, x);
    }
    DistinctFrom(merged);
    forall i, j | 0 <= i < j < |merged| ensures merged[i].key != merged[j].key {
      if merged[i].key == merged[j].key {
        LoadedIds(views, cs, perPage, merged[i], merged[j]);
      }
    }
  }

  lemma HeadRank(views: Views, cs: Cursors, perPage: nat, head: Item)
    requires perPage >= 1 && AllInRange(views, cs, perPage) && ValidCursors(cs) && UniqueIds(views) && Tagged(views)
    requires head in Merged(views, cs, perPage)
    ensures var merged := Merged(views, cs, perPage);
            exists at :: 0 <= at < |merged| && merged[at] == head && |Below(views, cs, perPage, head.key)| == at
  {
    hide Merged, AllInRange, UniqueIds, Tagged, KeyLess;
    var merged := Merged(views, cs, perPage);
    MergedDistinct(views, cs, perPage);
    MergedSorted(views, cs, perPage);
    var at :| 0 <= at < |merged| && merged[at] == head;
    RankInSorted(merged, at);
  }

  /** A call is stuck exactly when every open source starts with an item that at least `limit` loaded items precede. */
  lemma StuckIff(views: Views, cs: Cursors, limit: nat)
    requires limit >= 1 && AllInRange(views, cs, PerPage(limit)) && ValidCursors(cs)
    requires UniqueIds(views) && Tagged(views)
    ensures !SomeSourceMoves(views, cs, limit)
            <==> forall s: Source :: cs.Get(s).page.Number? ==>
                   var window := Window(views.Get(s), cs.Get(s), PerPage(limit));
                   && window != [] && window[0].Some?
                   && |Below(views, cs, PerPage(limit), window[0].value.key)| >= limit
  {
    hide ReadPage, Merged, Window, AllInRange, UniqueIds, Tagged, Below, Moves;
    PageItems(views, cs, limit);
    forall s: Source
      ensures var window := Window(views.Get(s), cs.Get(s), PerPage(limit));
              Moves(views.Get(s), cs.Get(s), PerPage(limit), IdsOf(Take(Merged(views, cs, PerPage(limit)), limit)))
              <==> cs.Get(s).page.Number?
                   && (window == [] || window[0].None?
                       || |Below(views, cs, PerPage(limit), window[0].value.key)| < limit)
    {
      MovesIff(views, cs, limit, s);
    }
  }
}
