/** Which cursor a poll saves, and when it is the largest key the poll has ingested. */
module PrFeedbackCursor {
  import opened Text
  import opened FeedbackKeys
  import opened FeedbackPaging
  import opened FeedbackRuns
  import opened FeedbackItems
  import opened RunsOnce
  import opened StuckCalls
  import opened CursorText
  import opened ReportedCursor
  import opened PrFeedbackPoll
  import opened PrFeedbackTheorems
  import ClusterInvariant

  // ---- The cursor of a run --------------------------------------------------

  /** The items of call `k` of a run. */
  function PageAt(views: Views, limit: nat, k: nat): seq<Item>
    requires limit >= 1
  {
    ReadPage(views, Iterate(views, limit, k).cursors, limit).items
  }

  function PagesOfRun(views: Views, limit: nat, n: nat): (pages: Pages)
    requires limit >= 1
    ensures |pages| == n
  {
    if n == 0 then [] else PagesOfRun(views, limit, n - 1) + [PageAt(views, limit, n - 1)]
  }

  /** The windows at these cursors hold no eligible entry. */
  predicate NothingLoaded(views: Views, cs: Cursors, perPage: nat)
    requires ValidCursors(cs)
  {
    forall s: Source ::
      var window := Window(views.Get(s), cs.Get(s), perPage);
      forall j :: 0 <= j < |window| ==> window[j].None?
  }

  lemma EmptyIff(views: Views, cs: Cursors, limit: nat)
    requires limit >= 1 && ValidCursors(cs)
    ensures ReadPage(views, cs, limit).items == [] <==> NothingLoaded(views, cs, PerPage(limit))
  {
    hide ReadPage, Merged, Window;
    var perPage := PerPage(limit);
    PageItems(views, cs, limit);
    var merged := Merged(views, cs, perPage);
    if merged != [] {
      MergedMembers(views, cs, perPage, merged[0]);
      var s: Source :| Some(merged[0]) in Window(views.Get(s), cs.Get(s), perPage);
      var window := Window(views.Get(s), cs.Get(s), perPage);
      var j :| 0 <= j < |window| && window[j] == Some(merged[0]);
      assert !window[j].None?;
    }
    forall s: Source, j |
      0 <= j < |Window(views.Get(s), cs.Get(s), perPage)| && Window(views.Get(s), cs.Get(s), perPage)[j].Some?
      ensures merged != []
    {
      SeenIsMerged(views, cs, perPage, s, j);
    }
  }

  /** With a since cursor the last call alone decides: it reports the old cursor exactly when it loaded nothing, and
      otherwise its last item. Without one, an empty call leaves what the calls before it reported. */
  lemma LatestIs(views: Views, since: Option<string>, limit: nat, n: nat)
    requires limit >= 1 && n >= 1
    ensures var cs := Iterate(views, limit, n - 1).cursors;
            var page := PageAt(views, limit, n - 1);
            && (page == [] <==> NothingLoaded(views, cs, PerPage(limit)))
            && LatestAfter(views, since, limit, n)
               == (if !NothingLoaded(views, cs, PerPage(limit)) then Some(KeyText(LastOf(page)))
                   else if since.Some? then since else LatestAfter(views, since, limit, n - 1))
  {
    hide ReadPage, NothingLoaded, PrintSince;
    EmptyIff(views, Iterate(views, limit, n - 1).cursors, limit);
  }

  lemma PageSorted(views: Views, limit: nat, k: nat)
    requires limit >= 1
    ensures Sorted(PageAt(views, limit, k))
  {
    hide ReadPage, Merged, KeyLess;
    var cs := Iterate(views, limit, k).cursors;
    PageItems(views, cs, limit);
    MergedSorted(views, cs, PerPage(limit));
  }

  /** The output and the kept cursor of a run are those of its pages. */
  lemma RunIsPages(views: Views, since: Option<string>, limit: nat, n: nat)
    requires limit >= 1
    ensures var pages := PagesOfRun(views, limit, n);
            && EachSorted(pages) && Flat(pages) == Iterate(views, limit, n).output
            && LatestAfter(views, since, limit, n) == Reported(pages, since)
            && forall k :: 0 <= k < n ==> pages[k] == PageAt(views, limit, k)
  {
    hide *;
    RunPages(views, limit, n);
    RunSorted(views, limit, n);
    RunOutput(views, limit, n);
    RunReported(views, since, limit, n);
  }

  lemma PagesGrow(views: Views, limit: nat, n: nat)
    requires limit >= 1 && n >= 1
    ensures PagesOfRun(views, limit, n)[..n - 1] == PagesOfRun(views, limit, n - 1)
    ensures PagesOfRun(views, limit, n)[n - 1] == PageAt(views, limit, n - 1)
  {
    hide PageAt;
  }

  lemma {:induction false} RunPages(views: Views, limit: nat, n: nat)
    requires limit >= 1
    ensures forall k :: 0 <= k < n ==> PagesOfRun(views, limit, n)[k] == PageAt(views, limit, k)
  {
    hide PageAt;
    if n > 0 {
      RunPages(views, limit, n - 1);
      PagesGrow(views, limit, n);
    }
  }

  lemma {:induction false} RunSorted(views: Views, limit: nat, n: nat)
    requires limit >= 1
    ensures EachSorted(PagesOfRun(views, limit, n))
  {
    hide PageAt, Sorted;
    if n > 0 {
      RunSorted(views, limit, n - 1);
      PageSorted(views, limit, n - 1);
      PagesGrow(views, limit, n);
    }
  }

  lemma {:induction false} RunOutput(views: Views, limit: nat, n: nat)
    requires limit >= 1
    ensures Flat(PagesOfRun(views, limit, n)) == Iterate(views, limit, n).output
  {
    hide ReadPage, ValidCursors;
    if n > 0 {
      RunOutput(views, limit, n - 1);
      PagesGrow(views, limit, n);
    }
  }

  lemma {:induction false} RunReported(views: Views, since: Option<string>, limit: nat, n: nat)
    requires limit >= 1
    ensures LatestAfter(views, since, limit, n) == Reported(PagesOfRun(views, limit, n), since)
  {
    hide ReadPage, ValidCursors, PrintSince, Iterate;
    if n > 0 {
      RunReported(views, since, limit, n - 1);
      PagesGrow(views, limit, n);
    }
  }

  lemma OutputPlain(server: Server, since: Option<string>, limit: nat, n: nat, x: Item)
    requires limit >= 1 && PlainStamps(server)
    requires x in Iterate(ReadViews(server, ReadSince(since)), limit, n).output
    ensures '|' !in x.key.updatedAt && since != Some(KeyText(x))
  {
    hide *;
    var key := ReadSince(since);
    OnlyEligible(ReadViews(server, key), limit, n, x);
    PlainStamp(server, key, x);
    EligibleIff(server, key, x);
    NotItself(x);
  }

  /** A key is never above the cursor that names it. */
  lemma NotItself(x: Item)
    requires '|' !in x.key.updatedAt
    ensures !Above(ReadSince(Some(KeyText(x))), x.key)
  {
    hide PrintSince, ReadSince, TupleLess;
    SinceRoundTrip(x.key);
    TupleTotal(x.key.Sort(), x.key.Sort());
  }

  /** The cursor kept after `n` calls names the largest key returned so far if and only if some page decides and no page
      of the run ends above it. */
  lemma SavedIsLargestIff(server: Server, since: Option<string>, limit: nat, n: nat)
    requires limit >= 1 && PlainStamps(server)
    ensures var views := ReadViews(server, ReadSince(since));
            var pages := PagesOfRun(views, limit, n);
            NamesLargest(Iterate(views, limit, n).output, LatestAfter(views, since, limit, n))
            <==> exists m: nat :: Decides(pages, since, m) && EndsHighest(pages, m)
  {
    hide *;
    var views := ReadViews(server, ReadSince(since));
    RunIsPages(views, since, limit, n);
    forall x | x in Iterate(views, limit, n).output ensures '|' !in x.key.updatedAt && since != Some(KeyText(x)) {
      OutputPlain(server, since, limit, n, x);
    }
    LargestIff(PagesOfRun(views, limit, n), since);
  }

  // ---- Lists of one page ----------------------------------------------------

  predicate OnePageEach(views: Views, perPage: nat) {
    |views.issue| <= perPage && |views.reviewComment| <= perPage && |views.review| <= perPage
  }

  /** A call on such lists that consumes every window is the last one. */
  lemma ConsumedEnds(views: Views, cs: Cursors, limit: nat)
    requires limit >= 1 && ValidCursors(cs) && OnePageEach(views, PerPage(limit))
    requires |Merged(views, cs, PerPage(limit))| <= limit
    ensures AllExhausted(ReadPage(views, cs, limit).next)
  {
    hide ReadPage, Merged, Window;
    WholeCall(views, cs, limit);
    var page := ReadPage(views, cs, limit);
    forall s: Source ensures page.next.Get(s).page.Exhausted? {
      NextCursors(views, cs, limit, s);
      assert ValidCursor(cs.Get(s));
      assert |views.Get(s)| <= PerPage(limit);
    }
  }

  /** If the largest loaded item is returned, everything loaded is. */
  lemma LargestReturned(views: Views, cs: Cursors, limit: nat, x: Item)
    requires limit >= 1 && AllInRange(views, cs, PerPage(limit)) && ValidCursors(cs)
             && UniqueIds(views) && Tagged(views)
    requires var merged := Merged(views, cs, PerPage(limit)); x in Take(merged, limit) && Largest(merged, x)
    ensures |Merged(views, cs, PerPage(limit))| <= limit
  {
    hide Merged, KeyLess, AllInRange, UniqueIds, Tagged;
    var merged := Merged(views, cs, PerPage(limit));
    if |merged| > limit {
      assert merged[limit] in merged;
      var i :| 0 <= i < limit && merged[i] == x;
      MergedSorted(views, cs, PerPage(limit));
      MergedDistinct(views, cs, PerPage(limit));
      KeyTotal(x.key, merged[limit].key);
      assert false;
    }
  }

  lemma MergedIsEligible(views: Views, cs: Cursors, perPage: nat, x: Item)
    requires perPage >= 1 && AllInRange(views, cs, perPage) && ValidCursors(cs) && x in Merged(views, cs, perPage)
    ensures Eligible(views, x)
  {
    hide Merged, Window;
    MergedMembers(views, cs, perPage, x);
    var s: Source :| Some(x) in Window(views.Get(s), cs.Get(s), perPage);
    assert InRange(views.Get(s), cs.Get(s), perPage);
    WindowMember(views.Get(s), cs.Get(s), perPage, x);
  }

  lemma ReturnedBy(views: Views, limit: nat, n: nat, x: Item) returns (k: nat)
    requires limit >= 1 && x in Iterate(views, limit, n).output
    ensures k < n && x in PageAt(views, limit, k)
  {
    hide *;
    var pages := PagesOfRun(views, limit, n);
    RunIsPages(views, None, limit, n);
    OnSomePage(pages, x);
    k :| 0 <= k < |pages| && x in pages[k];
  }

  /** When no list is longer than a page, the call that returns the largest item is the last one, whatever the order. */
  lemma LargestEnds(views: Views, cs: Cursors, limit: nat, x: Item)
    requires limit >= 1 && UniqueIds(views) && Tagged(views) && OnePageEach(views, PerPage(limit))
    requires AllInRange(views, cs, PerPage(limit)) && ValidCursors(cs)
    requires x in ReadPage(views, cs, limit).items && forall y :: Eligible(views, y) ==> !KeyLess(x.key, y.key)
    ensures AllExhausted(ReadPage(views, cs, limit).next)
  {
    hide ReadPage, Merged, KeyLess, UniqueIds, Tagged, Eligible, AllExhausted, OnePageEach, AllInRange, ValidCursors;
    var merged := Merged(views, cs, PerPage(limit));
    PageItems(views, cs, limit);
    forall y | y in merged ensures !KeyLess(x.key, y.key) {
      MergedIsEligible(views, cs, PerPage(limit), y);
    }
    LargestReturned(views, cs, limit, x);
    ConsumedEnds(views, cs, limit);
  }

  lemma LargestComesLast(views: Views, limit: nat, n: nat, x: Item)
    requires limit >= 1 && UniqueIds(views) && Tagged(views) && OnePageEach(views, PerPage(limit))
    requires FirstEnd(views, limit, n) && Largest(Iterate(views, limit, n).output, x)
    ensures x in PageAt(views, limit, n - 1)
  {
    hide ReadPage, KeyLess, UniqueIds, Tagged, Eligible, AllExhausted, OnePageEach, AllInRange, ValidCursors, Iterate;
    var k := ReturnedBy(views, limit, n, x);
    NoSkip(views, limit, n);
    LargestEnds(views, Iterate(views, limit, k).cursors, limit, x);
    StepOfRun(views, limit, k);
    assert Ended(views, limit, k + 1);
    if k + 1 <= n - 1 {
      EndedForever(views, limit, k + 1, n - 1);
      assert false;
    }
  }

  /** A condition told before the poll: no list longer than a page, and something eligible. */
  lemma OnePageSavesLargest(views: Views, since: Option<string>, limit: nat, n: nat, any: Item)
    requires limit >= 1 && UniqueIds(views) && Tagged(views) && OnePageEach(views, PerPage(limit))
    requires FirstEnd(views, limit, n) && Eligible(views, any)
    ensures NamesLargest(Iterate(views, limit, n).output, LatestAfter(views, since, limit, n))
  {
    hide ReadPage, PageAt, PagesOfRun, KeyLess, UniqueIds, Tagged, Eligible, OnePageEach, Iterate, LatestAfter, Ended,
         KeyText, Flat, Reported, Sorted;
    NoSkip(views, limit, n);
    var output := Iterate(views, limit, n).output;
    var x := LargestExists(output);
    LargestComesLast(views, limit, n, x);
    var pages := PagesOfRun(views, limit, n);
    RunIsPages(views, since, limit, n);
    var last := LastOf(pages[n - 1]);
    LastIsLargest(pages[n - 1], x);
    OnSomePage(pages, last);
    forall y | y in output ensures !KeyLess(last.key, y.key) {
      NotAboveThrough(last, x, y);
    }
    assert Decides(pages, since, n - 1);
    DecidedBy(pages, since);
  }

  /** So a poll of such lists saves the largest key of the comments it was about. */
  lemma PollSavesLargest(ts: Table, ts': Table, execute: nat, server: Server, limit: nat, any: Item)
    requires ClusterInvariant.Inv(ts) && Pollable(ts, execute) && limit >= 1 && UniqueServer(server)
    requires Polled(ts, ts', execute, server, limit)
    requires execute < |ts| && OnePageEach(ViewsFor(ts, execute, server), PerPage(limit))
    requires Eligible(ViewsFor(ts, execute, server), any)
    ensures execute < |ts'|
    ensures exists x :: Eligible(ViewsFor(ts, execute, server), x) && ts'[execute].context.prCursor == Some(KeyText(x))
              && forall y :: Eligible(ViewsFor(ts, execute, server), y) ==> !KeyLess(x.key, y.key)
  {
    hide *;
    var views, before := ViewsFor(ts, execute, server), ts[execute].context.prCursor;
    var n := PagesOf(ts, ts', execute, server, limit);
    OnePageSavesLargest(views, before, limit, n, any);
    NoSkip(views, limit, n);
    var output := Iterate(views, limit, n).output;
    PollableIsMapped(ts, execute);
    AllIngested(ts, ts[execute].pr.value, output);
    var ingested := IngestAll(ts, ts[execute].pr.value, output);
    IngestedRow(ts, ingested, execute);
    CursorSaved(ts, ingested, execute, LatestAfter(views, before, limit, n));
    var x := Named(output, LatestAfter(views, before, limit, n));
    assert Eligible(views, x);
  }

  lemma Named(items: seq<Item>, text: Option<string>) returns (x: Item)
    requires NamesLargest(items, text)
    ensures x in items && text == Some(KeyText(x)) && forall y :: y in items ==> !KeyLess(x.key, y.key)
  {
    hide KeyLess, KeyText;
    x :| x in items && Largest(items, x) && text == Some(KeyText(x));
  }

  // ---- A last page that is not empty and not the largest --------------------

  /** Issue comments `a`, `c`, `d` and review comments `b`, `e`, in this order. */
  predicate Interleaved(a: Item, b: Item, c: Item, d: Item, e: Item) {
    && a.key.source.Issue? && c.key.source.Issue? && d.key.source.Issue?
    && b.key.source.ReviewComment? && e.key.source.ReviewComment?
    && a.key.id != c.key.id && a.key.id != d.key.id && c.key.id != d.key.id && b.key.id != e.key.id
    && KeyLess(a.key, b.key) && KeyLess(b.key, c.key) && KeyLess(c.key, d.key) && KeyLess(d.key, e.key)
  }

  function FiveItems(a: Item, b: Item, c: Item, d: Item, e: Item): Views {
    Triple([Some(a), Some(c), Some(d)], [Some(b), Some(e)], [])
  }

  const OUT := SourceCursor(Exhausted, 0)

  const HALFWAY: Cursors := Triple(SourceCursor(Number(1), 1), SourceCursor(Number(1), 1), OUT)

  const SECOND: Cursors := Triple(SourceCursor(Number(2), 0), OUT, OUT)

  const OVER: Cursors := Triple(OUT, OUT, OUT)

  lemma SortGrows(items: seq<Item>, x: Item)
    ensures SortByKey(items + [x]) == Insert(SortByKey(items), x)
  {
    assert (items + [x])[..|items|] == items;
  }

  lemma InsertAtEnd(items: seq<Item>, x: Item)
    requires items == [] || !KeyLess(x.key, items[|items| - 1].key)
    ensures Insert(items, x) == items + [x]
  {
  }

  lemma InsertBefore(items: seq<Item>, last: Item, x: Item)
    requires KeyLess(x.key, last.key)
    ensures Insert(items + [last], x) == Insert(items, x) + [last]
  {
    hide KeyLess;
    assert (items + [last])[..|items|] == items;
  }

  lemma SortTwo(x: Item, y: Item)
    requires !KeyLess(y.key, x.key)
    ensures SortByKey([x, y]) == [x, y] && SortByKey([x]) == [x]
  {
    hide KeyLess, SortByKey;
    assert [] + [x] == [x] && [x] + [y] == [x, y];
    SortGrows([], x);
    SortNothing();
    InsertAtEnd([], x);
    SortGrows([x], y);
    InsertAtEnd([x], y);
  }

  lemma SortNothing()
    ensures SortByKey([]) == []
  {
  }

  lemma InsertMiddle(a: Item, b: Item, c: Item)
    requires KeyLess(a.key, b.key) && KeyLess(b.key, c.key)
    ensures Insert([a, c], b) == [a, b, c]
  {
    KeyTotal(a.key, b.key);
    hide KeyLess, Insert;
    InsertBefore([a], c, b);
    InsertAtEnd([a], b);
    assert [a] + [c] == [a, c] && [a] + [b] == [a, b] && [a, b] + [c] == [a, b, c];
  }

  lemma SortThree(a: Item, b: Item, c: Item)
    requires KeyLess(a.key, b.key) && KeyLess(b.key, c.key)
    ensures SortByKey([a, c, b]) == [a, b, c]
  {
    KeyTransitive(a.key, b.key, c.key);
    KeyTotal(a.key, c.key);
    hide KeyLess, SortByKey, Insert;
    SortTwo(a, c);
    InsertMiddle(a, b, c);
    SortGrows([a, c], b);
    assert [a, c] + [b] == [a, c, b];
  }

  lemma SortFour(a: Item, b: Item, c: Item, e: Item)
    requires KeyLess(a.key, b.key) && KeyLess(b.key, c.key) && KeyLess(c.key, e.key)
    ensures SortByKey([a, c, b, e]) == [a, b, c, e]
  {
    KeyTotal(c.key, e.key);
    hide KeyLess, SortByKey, Insert;
    SortThree(a, b, c);
    SortGrows([a, c, b], e);
    InsertAtEnd([a, b, c], e);
    assert [a, c, b] + [e] == [a, c, b, e] && [a, b, c] + [e] == [a, b, c, e];
  }

  lemma LoadedFew(x: Item, y: Item)
    ensures Loaded([]) == [] && Loaded([Some(x)]) == [x] && Loaded([Some(x), Some(y)]) == [x, y]
  {
    var one, two: seq<Entry> := [Some(x)], [Some(x), Some(y)];
    assert one[..0] == [] && two[..1] == one;
    assert Loaded(two) == Loaded(one) + [y] && Loaded(one) == Loaded([]) + [x];
  }

  lemma MergedFrom(views: Views, cs: Cursors, perPage: nat, i: seq<Item>, r: seq<Item>)
    requires ValidCursors(cs)
    requires Loaded(Window(views.Get(Issue), cs.Get(Issue), perPage)) == i
    requires Loaded(Window(views.Get(ReviewComment), cs.Get(ReviewComment), perPage)) == r
    requires Window(views.Get(Review), cs.Get(Review), perPage) == []
    ensures Merged(views, cs, perPage) == SortByKey(i + r)
  {
    hide Window, SortByKey;
    assert Loaded([]) == [];
    assert i + r + [] == i + r;
  }

  lemma ConsumedOf(window: seq<Entry>, ids: Ids)
    ensures window == [] ==> Consumed(window, ids) == 0
    ensures |window| == 1 && Returned(window[0], ids) ==> Consumed(window, ids) == 1
    ensures |window| == 2 && Returned(window[0], ids) && !Returned(window[1], ids) ==> Consumed(window, ids) == 1
    ensures |window| == 2 && Returned(window[0], ids) && Returned(window[1], ids) ==> Consumed(window, ids) == 2
  {
    hide Returned;
    if |window| == 1 {
      assert window[1..] == [];
    } else if |window| == 2 {
      assert window[1..][0] == window[1] && window[1..][1..] == [];
    }
  }

  lemma FirstWindows(a: Item, b: Item, c: Item, d: Item, e: Item)
    ensures var views := FiveItems(a, b, c, d, e);
            && Window(views.issue, INITIAL, 2) == [Some(a), Some(c)]
            && Window(views.reviewComment, INITIAL, 2) == [Some(b), Some(e)]
            && Window(views.issue, HALFWAY.issue, 2) == [Some(c)]
            && Window(views.reviewComment, HALFWAY.reviewComment, 2) == [Some(e)]
            && Window(views.issue, SECOND.issue, 2) == [Some(d)]
            && Window(views.review, INITIAL, 2) == []
            && HasNext(views.issue, 1, 2) && !HasNext(views.issue, 2, 2)
            && !HasNext(views.reviewComment, 1, 2) && !HasNext(views.review, 1, 2)
  {
    var views := FiveItems(a, b, c, d, e);
    assert PageStart(1, 2) == 0 && PageStart(2, 2) == 2;
    hide PageStart;
    assert views.issue[0..2] == [Some(a), Some(c)] && views.reviewComment[0..2] == [Some(b), Some(e)];
    assert views.issue[2..3] == [Some(d)];
    assert [Some(a), Some(c)][1..] == [Some(c)] && [Some(b), Some(e)][1..] == [Some(e)];
  }

  lemma FirstMerged(a: Item, b: Item, c: Item, d: Item, e: Item)
    requires Interleaved(a, b, c, d, e) && ValidCursors(INITIAL_CURSORS)
    ensures Take(Merged(FiveItems(a, b, c, d, e), INITIAL_CURSORS, 2), 2) == [a, b]
  {
    hide KeyLess, Window, SortByKey, Merged, Loaded, ValidCursors;
    var views, cs := FiveItems(a, b, c, d, e), INITIAL_CURSORS;
    KeyTransitive(c.key, d.key, e.key);
    FirstWindows(a, b, c, d, e);
    SortFour(a, b, c, e);
    LoadedFew(a, c);
    LoadedFew(b, e);
    assert cs.Get(Issue) == INITIAL && cs.Get(ReviewComment) == INITIAL && cs.Get(Review) == INITIAL;
    assert views.Get(Issue) == views.issue && views.Get(ReviewComment) == views.reviewComment;
    assert views.Get(Review) == views.review;
    assert [a, c] + [b, e] == [a, c, b, e];
    MergedFrom(views, cs, 2, [a, c], [b, e]);
    assert [a, b, c, e][..2] == [a, b];
  }

  lemma FirstCall(a: Item, b: Item, c: Item, d: Item, e: Item)
    requires Interleaved(a, b, c, d, e) && ValidCursors(INITIAL_CURSORS)
    ensures ReadPage(FiveItems(a, b, c, d, e), INITIAL_CURSORS, 2) == FeedbackPage([a, b], HALFWAY)
  {
    var ids := IdsOf([a, b]);
    InIds([a, b], 0);
    InIds([a, b], 1);
    OutOfIds(a, b, c);
    OutOfIds(a, b, e);
    hide KeyLess, Window, HasNext, Merged, Consumed, IdsOf, Take, Returned;
    FirstWindows(a, b, c, d, e);
    FirstMerged(a, b, c, d, e);
    ConsumedOf([Some(a), Some(c)], ids);
    ConsumedOf([Some(b), Some(e)], ids);
    ConsumedOf([], ids);
  }

  lemma InIds(items: seq<Item>, i: nat)
    requires i < |items|
    ensures Returned(Some(items[i]), IdsOf(items))
  {
    assert items[i] in items;
  }

  lemma OutOfIds(x: Item, y: Item, z: Item)
    requires (x.key.source, x.key.id) != (z.key.source, z.key.id)
             && (y.key.source, y.key.id) != (z.key.source, z.key.id)
    ensures !Returned(Some(z), IdsOf([x, y]))
  {
  }

  lemma SecondCall(a: Item, b: Item, c: Item, d: Item, e: Item)
    requires Interleaved(a, b, c, d, e) && ValidCursors(HALFWAY)
    ensures ReadPage(FiveItems(a, b, c, d, e), HALFWAY, 2) == FeedbackPage([c, e], SECOND)
  {
    hide KeyLess, Window, HasNext, SortByKey, Merged, Loaded, Consumed;
    var views, cs := FiveItems(a, b, c, d, e), HALFWAY;
    KeyTransitive(c.key, d.key, e.key);
    KeyTotal(c.key, e.key);
    FirstWindows(a, b, c, d, e);
    SortTwo(c, e);
    LoadedFew(c, c);
    LoadedFew(e, e);
    assert Window(views.review, OUT, 2) == [] by { OutSeesNothing(views.review); }
    assert cs.Get(Issue) == cs.issue && cs.Get(ReviewComment) == cs.reviewComment && cs.Get(Review) == OUT;
    assert views.Get(Issue) == views.issue && views.Get(ReviewComment) == views.reviewComment;
    assert views.Get(Review) == views.review;
    assert [c] + [e] == [c, e];
    MergedFrom(views, cs, 2, [c], [e]);
    var ids := IdsOf([c, e]);
    assert Returned(Some(c), ids) && Returned(Some(e), ids) by { InIds([c, e], 0); InIds([c, e], 1); }
    ConsumedOf([Some(c)], ids);
    ConsumedOf([Some(e)], ids);
  }

  lemma OutSeesNothing(entries: seq<Entry>)
    ensures Window(entries, OUT, 2) == []
  {
  }

  lemma ThirdCall(a: Item, b: Item, c: Item, d: Item, e: Item)
    requires Interleaved(a, b, c, d, e) && ValidCursors(SECOND)
    ensures ReadPage(FiveItems(a, b, c, d, e), SECOND, 2) == FeedbackPage([d], OVER)
  {
    hide KeyLess, Window, HasNext, SortByKey, Merged, Loaded, Consumed;
    var views, cs := FiveItems(a, b, c, d, e), SECOND;
    KeyTotal(d.key, d.key);
    FirstWindows(a, b, c, d, e);
    SortTwo(d, d);
    LoadedFew(d, d);
    OutSeesNothing(views.review);
    OutSeesNothing(views.reviewComment);
    assert cs.Get(Issue) == cs.issue && cs.Get(ReviewComment) == OUT && cs.Get(Review) == OUT;
    assert views.Get(Issue) == views.issue && views.Get(ReviewComment) == views.reviewComment;
    assert views.Get(Review) == views.review;
    assert [d] + [] == [d];
    MergedFrom(views, cs, 2, [d], []);
    var ids := IdsOf([d]);
    assert Returned(Some(d), ids) by { InIds([d], 0); }
    ConsumedOf([Some(d)], ids);
  }

  lemma FiveAreOrdered(a: Item, b: Item, c: Item, d: Item, e: Item)
    requires Interleaved(a, b, c, d, e)
    ensures var views := FiveItems(a, b, c, d, e); Ordered(views) && UniqueIds(views) && Tagged(views)
    ensures KeyLess(d.key, e.key)
  {
    KeyTransitive(a.key, b.key, c.key);
    KeyTransitive(a.key, c.key, d.key);
    KeyTransitive(c.key, d.key, e.key);
    KeyTransitive(b.key, c.key, e.key);
    hide KeyLess;
  }

  /** Every list in order, no call empty, and yet: the pages are `[a, b]`, `[c, e]`, `[d]`, so `d` is saved although the
      larger `e` was ingested. */
  lemma LastPageNotLargest(a: Item, b: Item, c: Item, d: Item, e: Item, since: Option<string>)
    requires Interleaved(a, b, c, d, e)
    ensures var views := FiveItems(a, b, c, d, e);
            && Ordered(views) && UniqueIds(views) && Tagged(views)
            && FirstEnd(views, 2, 3) && Iterate(views, 2, 3).output == [a, b, c, e, d]
            && PageAt(views, 2, 2) == [d]
            && LatestAfter(views, since, 2, 3) == Some(KeyText(d)) && KeyLess(d.key, e.key)
  {
    hide *;
    var views := FiveItems(a, b, c, d, e);
    FiveCursors();
    FiveAreOrdered(a, b, c, d, e);
    FirstCall(a, b, c, d, e);
    SecondCall(a, b, c, d, e);
    ThirdCall(a, b, c, d, e);
    ThreeCalls(views, 2, HALFWAY, SECOND, OVER, [a, b], [c, e], [d]);
    LatestIs(views, since, 2, 3);
    assert [a, b] + [c, e] + [d] == [a, b, c, e, d];
    LastOfOne(d);
  }

  lemma FiveCursors()
    ensures ValidCursors(INITIAL_CURSORS) && ValidCursors(HALFWAY) && ValidCursors(SECOND)
    ensures AllExhausted(OVER) && !AllExhausted(SECOND)
  {
    assert SECOND.Get(Issue).page.Number?;
  }

  lemma LastOfOne(d: Item)
    ensures LastOf([d]) == d
  {
  }

  lemma ThreeCalls(views: Views, limit: nat, c1: Cursors, c2: Cursors, c3: Cursors, p0: seq<Item>, p1: seq<Item>,
                   p2: seq<Item>)
    requires limit >= 1 && ValidCursors(INITIAL_CURSORS) && ValidCursors(c1) && ValidCursors(c2)
    requires ReadPage(views, INITIAL_CURSORS, limit) == FeedbackPage(p0, c1)
    requires ReadPage(views, c1, limit) == FeedbackPage(p1, c2)
    requires ReadPage(views, c2, limit) == FeedbackPage(p2, c3)
    requires !AllExhausted(c2) && AllExhausted(c3)
    ensures Iterate(views, limit, 3).output == p0 + p1 + p2
    ensures FirstEnd(views, limit, 3) && PageAt(views, limit, 2) == p2
  {
    hide ReadPage, AllInRange, ValidCursors, AllExhausted;
    assert Iterate(views, limit, 0) == Run(INITIAL_CURSORS, []);
    StepOfRun(views, limit, 0);
    StepOfRun(views, limit, 1);
    StepOfRun(views, limit, 2);
    hide Iterate;
    assert [] + p0 == p0;
  }

  // ---- A last page that is empty --------------------------------------------

  const NEXT: Cursors := Triple(SourceCursor(Number(2), 0), OUT, OUT)

  lemma OneByOne(x: Item)
    ensures var issues := [Some(x), None];
            && Window(issues, INITIAL, 1) == [Some(x)] && Window(issues, NEXT.issue, 1) == [None]
            && HasNext(issues, 1, 1) && !HasNext(issues, 2, 1)
    ensures Window([], INITIAL, 1) == [] && !HasNext<Entry>([], 1, 1)
    ensures forall entries :: Window(entries, OUT, 1) == []
    ensures Loaded([None]) == [] && Loaded([Some(x)]) == [x] && Loaded([]) == []
  {
    var issues: seq<Entry> := [Some(x), None];
    assert PageStart(1, 1) == 0 && PageStart(2, 1) == 1;
    hide PageStart;
    assert issues[0..1] == [Some(x)] && issues[1..2] == [None];
    LoadedFew(x, x);
    var none: seq<Entry> := [None];
    assert none[..0] == [];
  }

  /** A comment, then an entry that cannot be read, one per page: the second page is empty, so it reports the old
      cursor, and that is what gets saved although the comment was ingested. */
  lemma CursorFallsBack(x: Item, since: string)
    requires x.key.source.Issue?
    ensures var views := Triple([Some(x), None], [], []);
            && Ordered(views) && UniqueIds(views) && FirstEnd(views, 1, 2)
            && Iterate(views, 1, 2).output == [x]
            && LatestAfter(views, Some(since), 1, 2) == Some(since)
  {
    hide *;
    var views: Views := Triple([Some(x), None], [], []);
    OneOrdered(x, views);
    FallCursors();
    FirstFall(x, views);
    SecondFall(x, views);
    TwoCalls(views, 1, NEXT, OVER, [x], []);
    LatestIs(views, Some(since), 1, 2);
    assert [x] + [] == [x];
  }

  lemma OneOrdered(x: Item, views: Views)
    requires x.key.source.Issue? && views == Triple([Some(x), None], [], [])
    ensures Ordered(views) && UniqueIds(views)
  {
  }

  lemma FallCursors()
    ensures ValidCursors(INITIAL_CURSORS) && ValidCursors(NEXT) && !AllExhausted(NEXT) && AllExhausted(OVER)
  {
    assert NEXT.Get(Issue).page.Number?;
  }

  lemma TwoCalls(views: Views, limit: nat, c1: Cursors, c2: Cursors, p0: seq<Item>, p1: seq<Item>)
    requires limit >= 1 && ValidCursors(INITIAL_CURSORS) && ValidCursors(c1)
    requires ReadPage(views, INITIAL_CURSORS, limit) == FeedbackPage(p0, c1)
    requires ReadPage(views, c1, limit) == FeedbackPage(p1, c2)
    requires !AllExhausted(c1) && AllExhausted(c2)
    ensures Iterate(views, limit, 2).output == p0 + p1
    ensures FirstEnd(views, limit, 2) && PageAt(views, limit, 1) == p1
  {
    hide ReadPage, AllInRange, ValidCursors, AllExhausted;
    assert Iterate(views, limit, 0) == Run(INITIAL_CURSORS, []);
    StepOfRun(views, limit, 0);
    StepOfRun(views, limit, 1);
    hide Iterate;
    assert [] + p0 == p0;
  }

  lemma FirstFall(x: Item, views: Views)
    requires x.key.source.Issue? && views == Triple([Some(x), None], [], []) && ValidCursors(INITIAL_CURSORS)
    ensures ReadPage(views, INITIAL_CURSORS, 1) == FeedbackPage([x], NEXT)
  {
    hide KeyLess, Window, HasNext, SortByKey, Merged, Loaded, Consumed, ValidCursors;
    var cs := INITIAL_CURSORS;
    KeyTotal(x.key, x.key);
    OneByOne(x);
    SortTwo(x, x);
    assert cs.Get(Issue) == INITIAL && cs.Get(ReviewComment) == INITIAL && cs.Get(Review) == INITIAL;
    assert views.Get(Issue) == views.issue && views.Get(ReviewComment) == [] && views.Get(Review) == [];
    assert [x] + [] == [x];
    MergedFrom(views, cs, 1, [x], []);
    var ids := IdsOf([x]);
    InIds([x], 0);
    ConsumedOf([Some(x)], ids);
    ConsumedOf([], ids);
  }

  lemma SecondFall(x: Item, views: Views)
    requires x.key.source.Issue? && views == Triple([Some(x), None], [], []) && ValidCursors(NEXT)
    ensures ReadPage(views, NEXT, 1) == FeedbackPage([], OVER)
  {
    hide KeyLess, Window, HasNext, SortByKey, Merged, Loaded, Consumed, ValidCursors;
    var cs := NEXT;
    OneByOne(x);
    SortNothing();
    assert cs.Get(Issue) == cs.issue && cs.Get(ReviewComment) == OUT && cs.Get(Review) == OUT;
    assert views.Get(Issue) == views.issue && views.Get(ReviewComment) == [] && views.Get(Review) == [];
    var none: seq<Item> := [];
    assert none + none == none;
    MergedFrom(views, cs, 1, [], []);
    ConsumedOf([None], IdsOf([]));
  }
}
