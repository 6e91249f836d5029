/**
 Whole page runs: start with no page cursor, feed the next cursor back until every source is exhausted.
 */
module FeedbackRuns {
  import opened Text
  import opened FeedbackKeys
  import opened FeedbackPaging

  // ---- One source -----------------------------------------------------------

  /** How far into its list a cursor has got. */
  function Position(entries: seq<Entry>, c: SourceCursor, perPage: nat): int {
    if c.page.Exhausted? then |entries| else PageStart(c.page.n, perPage) + c.offset
  }

  predicate InRange(entries: seq<Entry>, c: SourceCursor, perPage: nat) {
    && ValidCursor(c) && (c.page.Number? ==> 0 <= c.offset < perPage)
    && Position(entries, c, perPage) <= |entries|
  }

  lemma NextPageStart(n: int, perPage: nat)
    requires n >= 1
    ensures PageStart(n + 1, perPage) == PageStart(n, perPage) + perPage
  {
  }

  lemma WindowShape(entries: seq<Entry>, c: SourceCursor, perPage: nat)
    requires perPage >= 1 && InRange(entries, c, perPage) && c.page.Number?
    ensures var pos := Position(entries, c, perPage);
            var end := Min(PageStart(c.page.n, perPage) + perPage, |entries|);
            0 <= pos <= end && Window(entries, c, perPage) == entries[pos..end]
  {
    NextPageStart(c.page.n, perPage);
  }

  /** A call moves a source forward by exactly its consumed prefix, and stays in range. */
  lemma Advance(entries: seq<Entry>, c: SourceCursor, perPage: nat, ids: Ids)
    requires perPage >= 1 && InRange(entries, c, perPage)
    ensures var next := NextCursor(entries, c, perPage, ids);
            && InRange(entries, next, perPage)
            && Position(entries, next, perPage)
               == Position(entries, c, perPage) + Consumed(Window(entries, c, perPage), ids)
  {
    if c.page.Number? {
      WindowShape(entries, c, perPage);
      NextPageStart(c.page.n, perPage);
    }
  }

  /** What a source still owes the run. */
  function Rank(entries: seq<Entry>, c: SourceCursor, perPage: nat): int {
    if c.page.Exhausted? then 0 else |entries| - Position(entries, c, perPage) + 1
  }

  /** An open source moves when there is nothing to look at, or when its first entry may be left behind. */
  predicate Moves(entries: seq<Entry>, c: SourceCursor, perPage: nat, ids: Ids)
    requires ValidCursor(c)
  {
    c.page.Number? &&
    var window := Window(entries, c, perPage); window == [] || Returned(window[0], ids)
  }

  lemma RankFalls(entries: seq<Entry>, c: SourceCursor, perPage: nat, ids: Ids)
    requires perPage >= 1 && InRange(entries, c, perPage)
    ensures var next := NextCursor(entries, c, perPage, ids);
            && 0 <= Rank(entries, next, perPage) <= Rank(entries, c, perPage)
            && (Moves(entries, c, perPage, ids) ==> Rank(entries, next, perPage) < Rank(entries, c, perPage))
            && (!Moves(entries, c, perPage, ids) ==> next == c)
  {
    Advance(entries, c, perPage, ids);
    if c.page.Number? {
      WindowShape(entries, c, perPage);
    }
  }

  // ---- One call -------------------------------------------------------------

  predicate AllInRange(views: Views, cs: Cursors, perPage: nat) {
    forall s: Source :: InRange(views.Get(s), cs.Get(s), perPage)
  }

  lemma InRangeValid(views: Views, cs: Cursors, perPage: nat)
    requires AllInRange(views, cs, perPage)
    ensures ValidCursors(cs)
  {
    forall s: Source ensures ValidCursor(cs.Get(s)) {
      assert InRange(views.Get(s), cs.Get(s), perPage);
    }
  }

  /** Every entry carries the source it was listed under. */
  predicate Tagged(views: Views) {
    forall s: Source, i :: 0 <= i < |views.Get(s)| && views.Get(s)[i].Some? ==> views.Get(s)[i].value.key.source == s
  }

  /** The server never lists one id twice in a source. */
  predicate UniqueIds(views: Views) {
    forall s: Source, i, j :: 0 <= i < j < |views.Get(s)| && views.Get(s)[i].Some? && views.Get(s)[j].Some?
      ==> views.Get(s)[i].value.key.id != views.Get(s)[j].value.key.id
  }

  /** Each source is listed in sort-key order. */
  predicate Ordered(views: Views) {
    forall s: Source, i, j :: 0 <= i < j < |views.Get(s)| && views.Get(s)[i].Some? && views.Get(s)[j].Some?
      ==> KeyLess(views.Get(s)[i].value.key, views.Get(s)[j].value.key)
  }

  lemma {:induction false} LoadedMembers(window: seq<Entry>, item: Item)
    ensures item in Loaded(window) <==> Some(item) in window
  {
    if window != [] {
      var last := |window| - 1;
      LoadedMembers(window[..last], item);
      assert window == window[..last] + [window[last]];
    }
  }

  lemma MergedMembers(views: Views, cs: Cursors, perPage: nat, item: Item)
    requires ValidCursors(cs)
    ensures item in Merged(views, cs, perPage)
            <==> exists s: Source :: Some(item) in Window(views.Get(s), cs.Get(s), perPage)
  {
    var a := Window(views.Get(Issue), cs.Get(Issue), perPage);
    var b := Window(views.Get(ReviewComment), cs.Get(ReviewComment), perPage);
    var c := Window(views.Get(Review), cs.Get(Review), perPage);
    LoadedMembers(a, item);
    LoadedMembers(b, item);
    LoadedMembers(c, item);
    var all := Loaded(a) + Loaded(b) + Loaded(c);
    assert item in multiset(all) <==> item in multiset(SortByKey(all));
    assert item in all <==> item in Loaded(a) || item in Loaded(b) || item in Loaded(c);
  }

  lemma NextCursors(views: Views, cs: Cursors, limit: nat, s: Source)
    requires ValidCursors(cs)
    ensures var page := ReadPage(views, cs, limit);
            page.next.Get(s) == NextCursor(views.Get(s), cs.Get(s), PerPage(limit), IdsOf(page.items))
  {
  }

  lemma ItemsAreMerged(views: Views, cs: Cursors, limit: nat, item: Item)
    requires ValidCursors(cs)
    requires item in ReadPage(views, cs, limit).items
    ensures item in Merged(views, cs, PerPage(limit))
  {
    hide Merged, NextCursor;
  }

  lemma WindowMember(entries: seq<Entry>, c: SourceCursor, perPage: nat, item: Item)
    requires perPage >= 1 && InRange(entries, c, perPage)
    requires Some(item) in Window(entries, c, perPage)
    ensures exists i :: Position(entries, c, perPage) <= i < |entries| && entries[i] == Some(item)
  {
    hide PageStart, After, PageOf;
    WindowShape(entries, c, perPage);
    var pos := Position(entries, c, perPage);
    var window := Window(entries, c, perPage);
    var k :| 0 <= k < |window| && window[k] == Some(item);
    assert entries[pos + k] == Some(item);
  }

  /** What one call hands out is in the lists, inside the windows it looked at. */
  lemma ItemOrigin(views: Views, cs: Cursors, limit: nat, item: Item)
    requires limit >= 1 && AllInRange(views, cs, PerPage(limit)) && ValidCursors(cs)
    requires item in ReadPage(views, cs, limit).items
    ensures exists s: Source, i ::
              && Position(views.Get(s), cs.Get(s), PerPage(limit)) <= i < |views.Get(s)|
              && views.Get(s)[i] == Some(item)
              && Some(item) in Window(views.Get(s), cs.Get(s), PerPage(limit))
  {
    hide ReadPage, Merged, Window, Position;
    ItemsAreMerged(views, cs, limit, item);
    MergedMembers(views, cs, PerPage(limit), item);
    var s: Source :| Some(item) in Window(views.Get(s), cs.Get(s), PerPage(limit));
    assert InRange(views.Get(s), cs.Get(s), PerPage(limit));
    WindowMember(views.Get(s), cs.Get(s), PerPage(limit), item);
  }

  /** A source moves past entries that may be left behind, and no others. */
  lemma PassedMayGo(views: Views, cs: Cursors, limit: nat, s: Source, i: int)
    requires limit >= 1 && AllInRange(views, cs, PerPage(limit)) && ValidCursors(cs)
    requires Position(views.Get(s), cs.Get(s), PerPage(limit)) <= i
             < Position(views.Get(s), ReadPage(views, cs, limit).next.Get(s), PerPage(limit))
    ensures 0 <= i < |views.Get(s)|
    ensures Returned(views.Get(s)[i], IdsOf(ReadPage(views, cs, limit).items))
  {
    hide ReadPage, Returned, NextCursor, Window;
    var perPage, page := PerPage(limit), ReadPage(views, cs, limit);
    var entries, c, ids := views.Get(s), cs.Get(s), IdsOf(page.items);
    NextCursors(views, cs, limit, s);
    assert InRange(entries, c, perPage);
    Advance(entries, c, perPage, ids);
    WindowShape(entries, c, perPage);
    assert entries[i] == Window(entries, c, perPage)[i - Position(entries, c, perPage)];
  }

  /** An entry a source moves past was either dropped by the filter or handed out by this very call. */
  lemma PassedIsReturned(views: Views, cs: Cursors, limit: nat, s: Source, i: int)
    requires limit >= 1 && AllInRange(views, cs, PerPage(limit)) && ValidCursors(cs)
    requires Tagged(views) && UniqueIds(views)
    requires Position(views.Get(s), cs.Get(s), PerPage(limit)) <= i
             < Position(views.Get(s), ReadPage(views, cs, limit).next.Get(s), PerPage(limit))
    ensures i < |views.Get(s)|
    ensures views.Get(s)[i].None? || views.Get(s)[i].value in ReadPage(views, cs, limit).items
  {
    hide ReadPage, Position, AllInRange, ValidCursors, Window;
    PassedMayGo(views, cs, limit, s, i);
    var entries, items := views.Get(s), ReadPage(views, cs, limit).items;
    if entries[i].Some? {
      var item :| item in items
                    && (item.key.source, item.key.id) == (entries[i].value.key.source, entries[i].value.key.id);
      PlaceInLists(views, cs, limit, item);
      var s', j :| 0 <= j < |views.Get(s')| && views.Get(s')[j] == Some(item);
      assert s' == item.key.source == s;
      assert i < j || j < i || i == j;
    }
  }

  lemma PlaceInLists(views: Views, cs: Cursors, limit: nat, item: Item)
    requires limit >= 1 && AllInRange(views, cs, PerPage(limit)) && ValidCursors(cs)
    requires item in ReadPage(views, cs, limit).items
    ensures exists s: Source, i :: 0 <= i < |views.Get(s)| && views.Get(s)[i] == Some(item)
  {
    hide ReadPage, Window;
    ItemOrigin(views, cs, limit, item);
    var s: Source, i :| && Position(views.Get(s), cs.Get(s), PerPage(limit)) <= i < |views.Get(s)|
                        && views.Get(s)[i] == Some(item)
                        && Some(item) in Window(views.Get(s), cs.Get(s), PerPage(limit));
    assert InRange(views.Get(s), cs.Get(s), PerPage(limit));
  }

  // ---- A run ----------------------------------------------------------------

  datatype Run = Run(cursors: Cursors, output: seq<Item>)

  /** The run after `n` calls. A call on exhausted cursors returns nothing, so a finished run stands still. */
  function Iterate(views: Views, limit: nat, n: nat): (r: Run)
    requires limit >= 1
    ensures ValidCursors(r.cursors) && AllInRange(views, r.cursors, PerPage(limit))
  {
    if n == 0 then
      StartInRange(views, limit);
      Run(INITIAL_CURSORS, [])
    else
      var r := Iterate(views, limit, n - 1);
      var page := ReadPage(views, r.cursors, limit);
      StepInRange(views, r.cursors, limit);
      Run(page.next, r.output + page.items)
  }

  lemma StartInRange(views: Views, limit: nat)
    requires limit >= 1
    ensures ValidCursors(INITIAL_CURSORS) && AllInRange(views, INITIAL_CURSORS, PerPage(limit))
  {
    forall s: Source ensures InRange(views.Get(s), INITIAL_CURSORS.Get(s), PerPage(limit)) {
      assert INITIAL_CURSORS.Get(s) == INITIAL;
    }
    InRangeValid(views, INITIAL_CURSORS, PerPage(limit));
  }

  lemma StepInRange(views: Views, cs: Cursors, limit: nat)
    requires limit >= 1 && AllInRange(views, cs, PerPage(limit)) && ValidCursors(cs)
    ensures var next := ReadPage(views, cs, limit).next;
            ValidCursors(next) && AllInRange(views, next, PerPage(limit))
  {
    var page := ReadPage(views, cs, limit);
    forall s: Source ensures InRange(views.Get(s), page.next.Get(s), PerPage(limit)) {
      NextCursors(views, cs, limit, s);
      assert InRange(views.Get(s), cs.Get(s), PerPage(limit));
      Advance(views.Get(s), cs.Get(s), PerPage(limit), IdsOf(page.items));
    }
    InRangeValid(views, page.next, PerPage(limit));
  }

  predicate Ended(views: Views, limit: nat, n: nat)
    requires limit >= 1
  {
    AllExhausted(Iterate(views, limit, n).cursors)
  }

  /** The call after which the loop stops. */
  predicate FirstEnd(views: Views, limit: nat, n: nat)
    requires limit >= 1
  {
    n > 0 && Ended(views, limit, n) && !Ended(views, limit, n - 1)
  }

  ghost predicate Eligible(views: Views, item: Item) {
    exists s: Source :: Some(item) in views.Get(s)
  }

  /** At every moment of a run, whatever lies behind a source's cursor has been handed out or was filtered out. */
  lemma {:induction false} BehindIsReturned(views: Views, limit: nat, n: nat, s: Source, i: nat)
    requires limit >= 1 && Tagged(views) && UniqueIds(views)
    requires i < Position(views.Get(s), Iterate(views, limit, n).cursors.Get(s), PerPage(limit))
    ensures i < |views.Get(s)|
    ensures views.Get(s)[i].None? || views.Get(s)[i].value in Iterate(views, limit, n).output
  {
    hide ReadPage;
    var run := Iterate(views, limit, n);
    assert InRange(views.Get(s), run.cursors.Get(s), PerPage(limit));
    if n > 0 {
      var before := Iterate(views, limit, n - 1);
      if i < Position(views.Get(s), before.cursors.Get(s), PerPage(limit)) {
        BehindIsReturned(views, limit, n - 1, s, i);
      } else {
        PassedIsReturned(views, before.cursors, limit, s, i);
      }
    }
  }

  /** Nothing else is ever handed out. */
  lemma {:induction false} OnlyEligible(views: Views, limit: nat, n: nat, item: Item)
    requires limit >= 1
    requires item in Iterate(views, limit, n).output
    ensures Eligible(views, item)
  {
    hide ReadPage;
    if n > 0 {
      var before := Iterate(views, limit, n - 1);
      if item in before.output {
        OnlyEligible(views, limit, n - 1, item);
      } else {
        ItemOrigin(views, before.cursors, limit, item);
      }
    }
  }

  /** No skip: a run that ends has returned exactly the eligible items, in whatever order the lists came. */
  lemma NoSkip(views: Views, limit: nat, n: nat)
    requires limit >= 1 && Tagged(views) && UniqueIds(views)
    requires Ended(views, limit, n)
    ensures forall item :: item in Iterate(views, limit, n).output <==> Eligible(views, item)
  {
    var run := Iterate(views, limit, n);
    forall item ensures item in run.output <==> Eligible(views, item) {
      if item in run.output {
        OnlyEligible(views, limit, n, item);
      }
      if Eligible(views, item) {
        var s: Source :| Some(item) in views.Get(s);
        var i :| 0 <= i < |views.Get(s)| && views.Get(s)[i] == Some(item);
        assert run.cursors.Get(s).page.Exhausted?;
        BehindIsReturned(views, limit, n, s, i);
      }
    }
  }

  // ---- Progress -------------------------------------------------------------

  function TotalRank(views: Views, cs: Cursors, perPage: nat): int {
    Rank(views.issue, cs.issue, perPage) + Rank(views.reviewComment, cs.reviewComment, perPage)
    + Rank(views.review, cs.review, perPage)
  }

  predicate SomeSourceMoves(views: Views, cs: Cursors, limit: nat)
    requires ValidCursors(cs)
  {
    var ids := IdsOf(Take(Merged(views, cs, PerPage(limit)), limit));
    exists s: Source :: Moves(views.Get(s), cs.Get(s), PerPage(limit), ids)
  }

  /** A call either lowers the rank or leaves all three cursors exactly where they were. */
  lemma ProgressOrStuck(views: Views, cs: Cursors, limit: nat)
    requires limit >= 1 && AllInRange(views, cs, PerPage(limit)) && ValidCursors(cs)
    ensures var next := ReadPage(views, cs, limit).next;
            && 0 <= TotalRank(views, next, PerPage(limit))
            && (SomeSourceMoves(views, cs, limit)
                <==> TotalRank(views, next, PerPage(limit)) < TotalRank(views, cs, PerPage(limit)))
            && (SomeSourceMoves(views, cs, limit) <==> next != cs)
  {
    var perPage, page := PerPage(limit), ReadPage(views, cs, limit);
    var ids := IdsOf(page.items);
    forall s: Source
      ensures var next := page.next.Get(s);
              && 0 <= Rank(views.Get(s), next, perPage) <= Rank(views.Get(s), cs.Get(s), perPage)
              && (Moves(views.Get(s), cs.Get(s), perPage, ids)
                  <==> Rank(views.Get(s), next, perPage) < Rank(views.Get(s), cs.Get(s), perPage))
              && (!Moves(views.Get(s), cs.Get(s), perPage, ids) ==> next == cs.Get(s))
    {
      NextCursors(views, cs, limit, s);
      assert InRange(views.Get(s), cs.Get(s), perPage);
      RankFalls(views.Get(s), cs.Get(s), perPage, ids);
    }
    assert page.next.Get(Issue) == page.next.issue && cs.Get(Issue) == cs.issue;
    assert page.next.Get(ReviewComment) == page.next.reviewComment && cs.Get(ReviewComment) == cs.reviewComment;
    assert page.next.Get(Review) == page.next.review && cs.Get(Review) == cs.review;
  }

  /** With every source exhausted there is nothing owed, and a call returns nothing and moves nothing. */
  lemma ExhaustedIsDone(views: Views, cs: Cursors, limit: nat)
    requires limit >= 1 && ValidCursors(cs) && AllExhausted(cs)
    ensures TotalRank(views, cs, PerPage(limit)) == 0
    ensures ReadPage(views, cs, limit) == FeedbackPage([], cs)
  {
    assert cs.Get(Issue).page.Exhausted? && cs.Get(ReviewComment).page.Exhausted? && cs.Get(Review).page.Exhausted?;
    var perPage := PerPage(limit);
    var none: seq<Item> := [];
    assert Loaded([]) == none;
    assert none + none + none == none;
    assert Merged(views, cs, perPage) == none;
  }

  /** A run that reaches a stuck call repeats it for ever. */
  lemma {:induction false} StuckForever(views: Views, limit: nat, n: nat, m: nat)
    requires limit >= 1 && n <= m
    requires !Ended(views, limit, n) && !SomeSourceMoves(views, Iterate(views, limit, n).cursors, limit)
    ensures Iterate(views, limit, m).cursors == Iterate(views, limit, n).cursors
  {
    hide ReadPage, SomeSourceMoves, AllExhausted;
    if n < m {
      StuckForever(views, limit, n, m - 1);
      ProgressOrStuck(views, Iterate(views, limit, n).cursors, limit);
    }
  }

  ghost predicate EverStuck(views: Views, limit: nat)
    requires limit >= 1
  {
    exists n: nat :: !Ended(views, limit, n) && !SomeSourceMoves(views, Iterate(views, limit, n).cursors, limit)
  }

  lemma {:induction false} EndsWithin(views: Views, limit: nat, n: nat) returns (m: nat)
    requires limit >= 1 && !EverStuck(views, limit)
    ensures Ended(views, limit, m)
    ensures m <= n + TotalRank(views, Iterate(views, limit, n).cursors, PerPage(limit))
    decreases TotalRank(views, Iterate(views, limit, n).cursors, PerPage(limit))
  {
    hide ReadPage, SomeSourceMoves, TotalRank, AllExhausted;
    var cs := Iterate(views, limit, n).cursors;
    ProgressOrStuck(views, cs, limit);
    if Ended(views, limit, n) {
      ExhaustedIsDone(views, cs, limit);
      m := n;
    } else {
      m := EndsWithin(views, limit, n + 1);
    }
  }

  /** Paging terminates exactly when no call along the way leaves every open source waiting. */
  lemma EndsIffNeverStuck(views: Views, limit: nat)
    requires limit >= 1
    ensures (exists n: nat :: Ended(views, limit, n)) <==> !EverStuck(views, limit)
  {
    if !EverStuck(views, limit) {
      var m := EndsWithin(views, limit, 0);
    } else if n: nat :| Ended(views, limit, n) {
      var k: nat :| !Ended(views, limit, k) && !SomeSourceMoves(views, Iterate(views, limit, k).cursors, limit);
      if k <= n {
        StuckForever(views, limit, k, n);
      } else {
        EndedForever(views, limit, n, k);
      }
    }
  }

  lemma {:induction false} EndedForever(views: Views, limit: nat, n: nat, m: nat)
    requires limit >= 1 && n <= m && Ended(views, limit, n)
    ensures Iterate(views, limit, m) == Iterate(views, limit, n)
  {
    hide ReadPage, AllExhausted;
    if n < m {
      EndedForever(views, limit, n, m - 1);
      ExhaustedIsDone(views, Iterate(views, limit, n).cursors, limit);
    }
  }
}
