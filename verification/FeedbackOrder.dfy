/**
 Runs over lists whose pages come in sort-key order: they end, and they return every eligible item exactly once.
 Without any order a call can leave all three cursors unchanged; `NewestFirstNeverEnds` gives such lists.
 */
module FeedbackOrder {
  import opened Text
  import opened FeedbackKeys
  import opened FeedbackPaging
  import opened FeedbackRuns
  import opened FeedbackItems
  import opened RunsOnce

  // ---- Pages in order -------------------------------------------------------

  predicate InOrder(page: seq<Entry>) {
    forall i, j :: 0 <= i < j < |page| && page[i].Some? && page[j].Some? ==>
      KeyLess(page[i].value.key, page[j].value.key)
  }

  /** Each page is listed in sort-key order; pages may follow one another in any order. */
  ghost predicate OrderedPages(views: Views, perPage: nat) {
    forall s: Source, n: int :: n >= 1 ==> InOrder(PageOf(views.Get(s), n, perPage))
  }

  lemma OrderedLists(views: Views, perPage: nat)
    requires Ordered(views)
    ensures OrderedPages(views, perPage)
  {
    hide KeyLess, PageStart;
  }

  lemma WindowInOrder(views: Views, cs: Cursors, perPage: nat, s: Source)
    requires ValidCursors(cs) && OrderedPages(views, perPage)
    ensures InOrder(Window(views.Get(s), cs.Get(s), perPage))
  {
    hide KeyLess, PageOf;
    if cs.Get(s).page.Number? {
      assert ValidCursor(cs.Get(s));
      assert InOrder(PageOf(views.Get(s), cs.Get(s).page.n, perPage));
    }
  }

  /** In order, what a call returns from a source it also moves past. */
  lemma OrderedPasses(views: Views, cs: Cursors, limit: nat)
    requires limit >= 1 && ValidCursors(cs) && OrderedPages(views, PerPage(limit))
    ensures PassesReturned(views, cs, limit)
  {
    hide ReadPage, Merged, Window, KeyLess, OrderedPages, IdsOf;
    forall s: Source
      ensures PassesIn(Window(views.Get(s), cs.Get(s), PerPage(limit)), ReadPage(views, cs, limit).items)
    {
      OrderedPassesIn(views, cs, limit, s);
    }
  }

  lemma OrderedPassesIn(views: Views, cs: Cursors, limit: nat, s: Source)
    requires limit >= 1 && ValidCursors(cs) && OrderedPages(views, PerPage(limit))
    ensures PassesIn(Window(views.Get(s), cs.Get(s), PerPage(limit)), ReadPage(views, cs, limit).items)
  {
    hide ReadPage, Merged, Window, KeyLess, OrderedPages;
    var perPage, items := PerPage(limit), ReadPage(views, cs, limit).items;
    var window := Window(views.Get(s), cs.Get(s), perPage);
    var k := Consumed(window, IdsOf(items));
    forall j | k <= j < |window| && window[j].Some? ensures window[j].value !in items {
      var first, item := window[k].value, window[j].value;
      assert first !in items;
      if k < j && item in items {
        PageItems(views, cs, limit);
        MergedSorted(views, cs, perPage);
        SeenIsMerged(views, cs, perPage, s, k);
        WindowInOrder(views, cs, perPage, s);
        TakeIsDownClosed(Merged(views, cs, perPage), limit, item, first);
      }
    }
  }

  /** Every call of an ordered run that is not finished moves some source. */
  lemma OrderedMoves(views: Views, cs: Cursors, limit: nat)
    requires limit >= 1 && ValidCursors(cs)
    requires OrderedPages(views, PerPage(limit)) && !AllExhausted(cs)
    ensures SomeSourceMoves(views, cs, limit)
  {
    hide Window, KeyLess, Merged, PageStart, OrderedPages;
    var perPage := PerPage(limit);
    var merged := Merged(views, cs, perPage);
    var ids := IdsOf(Take(merged, limit));
    if merged == [] {
      var s: Source :| cs.Get(s).page.Number?;
      var window := Window(views.Get(s), cs.Get(s), perPage);
      if window != [] && window[0].Some? {
        SeenIsMerged(views, cs, perPage, s, 0);
      }
      assert Moves(views.Get(s), cs.Get(s), perPage, ids);
    } else {
      var first := merged[0];
      MergedMembers(views, cs, perPage, first);
      var s: Source :| Some(first) in Window(views.Get(s), cs.Get(s), perPage);
      FirstOfWindow(views, cs, limit, s, first);
    }
  }

  lemma FirstOfWindow(views: Views, cs: Cursors, limit: nat, s: Source, first: Item)
    requires limit >= 1 && ValidCursors(cs) && OrderedPages(views, PerPage(limit))
    requires var merged := Merged(views, cs, PerPage(limit)); merged != [] && merged[0] == first
    requires Some(first) in Window(views.Get(s), cs.Get(s), PerPage(limit))
    ensures Moves(views.Get(s), cs.Get(s), PerPage(limit), IdsOf(Take(Merged(views, cs, PerPage(limit)), limit)))
  {
    hide KeyLess, Merged, Window, OrderedPages;
    var perPage := PerPage(limit);
    var merged, window := Merged(views, cs, perPage), Window(views.Get(s), cs.Get(s), perPage);
    OpenIfSeen(views.Get(s), cs.Get(s), perPage, first);
    var k :| 0 <= k < |window| && window[k] == Some(first);
    assert Take(merged, limit)[0] == first;
    if k > 0 && window[0].Some? {
      WindowInOrder(views, cs, perPage, s);
      SeenIsMerged(views, cs, perPage, s, 0);
      MergedSorted(views, cs, perPage);
      FirstIsLeast(merged, window[0].value);
    }
  }

  lemma FirstIsLeast(merged: seq<Item>, y: Item)
    requires Sorted(merged) && y in merged
    ensures !KeyLess(y.key, merged[0].key)
  {
    KeyTotal(y.key, y.key);
    var j :| 0 <= j < |merged| && merged[j] == y;
  }

  lemma OrderedIsSteady(views: Views, limit: nat)
    requires limit >= 1 && OrderedPages(views, PerPage(limit))
    ensures Steady(views, limit)
  {
    hide ReadPage, OrderedPages, SomeSourceMoves, PassesReturned, AllExhausted;
    forall k: nat | !Ended(views, limit, k)
      ensures SomeSourceMoves(views, Iterate(views, limit, k).cursors, limit)
      ensures PassesReturned(views, Iterate(views, limit, k).cursors, limit)
    {
      OrderedMoves(views, Iterate(views, limit, k).cursors, limit);
      OrderedPasses(views, Iterate(views, limit, k).cursors, limit);
    }
  }

  /** Exactly once, in a bounded number of calls, when each page comes in order. */
  lemma ExactlyOnce(views: Views, limit: nat) returns (n: nat)
    requires limit >= 1 && Tagged(views) && UniqueIds(views) && OrderedPages(views, PerPage(limit))
    ensures Ended(views, limit, n)
    ensures n <= |views.issue| + |views.reviewComment| + |views.review| + 3
    ensures EachOnce(views, Iterate(views, limit, n).output)
  {
    hide *;
    OrderedIsSteady(views, limit);
    n := SteadyIsOnce(views, limit);
  }

  // ---- The order is needed --------------------------------------------------

  /** Issue comments `i1`, `i2` and review comments `c1`, `c2`, each list with the newer edit first. */
  predicate NewestFirst(i1: Item, i2: Item, c1: Item, c2: Item) {
    && i1.key.source.Issue? && i2.key.source.Issue? && i1.key.id != i2.key.id
    && c1.key.source.ReviewComment? && c2.key.source.ReviewComment? && c1.key.id != c2.key.id
    && KeyLess(i2.key, i1.key) && KeyLess(c2.key, i1.key) && KeyLess(i2.key, c1.key) && KeyLess(c2.key, c1.key)
  }

  function TwoLists(i1: Item, i2: Item, c1: Item, c2: Item): Views {
    Triple([Some(i1), Some(i2)], [Some(c1), Some(c2)], [])
  }

  const WAITING: Cursors := Triple(INITIAL, INITIAL, SourceCursor(Exhausted, 0))

  lemma FirstWindow(entries: seq<Entry>)
    requires |entries| <= 2
    ensures Window(entries, INITIAL, 2) == entries && Window(entries, SourceCursor(Exhausted, 0), 2) == []
  {
    assert PageStart(1, 2) == 0;
    hide PageStart;
    assert entries[0..|entries|] == entries;
  }

  lemma TwoListsMerged(i1: Item, i2: Item, c1: Item, c2: Item, cs: Cursors, x: Item)
    requires NewestFirst(i1, i2, c1, c2) && (cs == INITIAL_CURSORS || cs == WAITING) && ValidCursors(cs)
    ensures x in Merged(TwoLists(i1, i2, c1, c2), cs, 2) <==> x in {i1, i2, c1, c2}
    ensures Window(TwoLists(i1, i2, c1, c2).Get(Issue), cs.Get(Issue), 2) == [Some(i1), Some(i2)]
    ensures Window(TwoLists(i1, i2, c1, c2).Get(ReviewComment), cs.Get(ReviewComment), 2) == [Some(c1), Some(c2)]
    ensures Window(TwoLists(i1, i2, c1, c2).Get(Review), cs.Get(Review), 2) == []
  {
    hide Merged, KeyLess, Window, PageStart, ValidCursors;
    var views := TwoLists(i1, i2, c1, c2);
    MergedMembers(views, cs, 2, x);
    FirstWindow(views.issue);
    FirstWindow(views.reviewComment);
    FirstWindow(views.review);
    assert cs.Get(Issue) == INITIAL && cs.Get(ReviewComment) == INITIAL;
    assert cs.Get(Review) == INITIAL || cs.Get(Review) == SourceCursor(Exhausted, 0);
    assert Some(x) in [Some(i1), Some(i2)] <==> x == i1 || x == i2;
    assert Some(x) in [Some(c1), Some(c2)] <==> x == c1 || x == c2;
  }

  /** The two older comments sort first, so with a limit of two neither newer one is returned. */
  lemma NewerWaits(i1: Item, i2: Item, c1: Item, c2: Item, cs: Cursors, newer: Item)
    requires NewestFirst(i1, i2, c1, c2) && (cs == INITIAL_CURSORS || cs == WAITING) && ValidCursors(cs)
    requires newer == i1 || newer == c1
    ensures (newer.key.source, newer.key.id) !in IdsOf(Take(Merged(TwoLists(i1, i2, c1, c2), cs, 2), 2))
  {
    hide Merged, KeyLess;
    var views := TwoLists(i1, i2, c1, c2);
    var merged := Merged(views, cs, 2);
    var items := Take(merged, 2);
    MergedSorted(views, cs, 2);
    forall x | x in items ensures (x.key.source, x.key.id) != (newer.key.source, newer.key.id) {
      assert x in merged;
      TwoListsMerged(i1, i2, c1, c2, cs, x);
      if x == newer {
        TwoListsMerged(i1, i2, c1, c2, cs, i2);
        TwoListsMerged(i1, i2, c1, c2, cs, c2);
        TakeIsDownClosed(merged, 2, newer, i2);
        TakeIsDownClosed(merged, 2, newer, c2);
        KeyTotal(newer.key, i2.key);
        KeyTotal(newer.key, c2.key);
        assert false;
      }
    }
  }

  /** Such a pair of lists is re-read for ever: each call returns the older comments again and passes nothing. */
  lemma {:induction false} NewestFirstNeverEnds(i1: Item, i2: Item, c1: Item, c2: Item, n: nat)
    requires NewestFirst(i1, i2, c1, c2)
    ensures Tagged(TwoLists(i1, i2, c1, c2)) && UniqueIds(TwoLists(i1, i2, c1, c2))
    ensures n >= 1 ==> Iterate(TwoLists(i1, i2, c1, c2), 2, n).cursors == WAITING
    ensures !Ended(TwoLists(i1, i2, c1, c2), 2, n)
  {
    hide Merged, KeyLess, Window, IdsOf, NextCursor;
    var views := TwoLists(i1, i2, c1, c2);
    if n > 0 {
      NewestFirstNeverEnds(i1, i2, c1, c2, n - 1);
      var cs := Iterate(views, 2, n - 1).cursors;
      WaitingStep(i1, i2, c1, c2, cs);
    }
    assert Iterate(views, 2, n).cursors.Get(Issue) == INITIAL;
  }

  lemma WaitingStep(i1: Item, i2: Item, c1: Item, c2: Item, cs: Cursors)
    requires NewestFirst(i1, i2, c1, c2) && (cs == INITIAL_CURSORS || cs == WAITING) && ValidCursors(cs)
    ensures ReadPage(TwoLists(i1, i2, c1, c2), cs, 2).next == WAITING
  {
    hide Merged, KeyLess, Window, IdsOf;
    TwoListsMerged(i1, i2, c1, c2, cs, i1);
    NewerWaits(i1, i2, c1, c2, cs, i1);
    NewerWaits(i1, i2, c1, c2, cs, c1);
    var views := TwoLists(i1, i2, c1, c2);
    assert cs.Get(Issue) == INITIAL && cs.Get(ReviewComment) == INITIAL;
    assert views.Get(Issue) == views.issue && views.Get(ReviewComment) == views.reviewComment;
    assert views.Get(Review) == views.review && cs.Get(Review) == cs.review;
  }
}
