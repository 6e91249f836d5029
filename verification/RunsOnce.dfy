/** Runs that return no item twice: exactly those whose calls pass what they return. */
module RunsOnce {
  import opened Text
  import opened FeedbackKeys
  import opened FeedbackPaging
  import opened FeedbackRuns
  import opened FeedbackItems

  /** No returned item stands behind the consumed prefix. */
  predicate PassesIn(window: seq<Entry>, items: seq<Item>) {
    forall j :: Consumed(window, IdsOf(items)) <= j < |window| && window[j].Some? ==> window[j].value !in items
  }

  /** The call moves every source past all the items that it hands out. */
  predicate PassesReturned(views: Views, cs: Cursors, limit: nat)
    requires ValidCursors(cs)
  {
    forall s: Source :: PassesIn(Window(views.Get(s), cs.Get(s), PerPage(limit)), ReadPage(views, cs, limit).items)
  }

  lemma ReturnedIsPassed(views: Views, cs: Cursors, limit: nat, s: Source, i: int)
    requires limit >= 1 && AllInRange(views, cs, PerPage(limit)) && ValidCursors(cs)
    requires PassesReturned(views, cs, limit) && cs.Get(s).page.Number?
    requires var entries := views.Get(s);
             var start := Position(entries, cs.Get(s), PerPage(limit));
             && start <= i < start + |Window(entries, cs.Get(s), PerPage(limit))| && 0 <= i < |entries|
             && entries[i].Some? && entries[i].value in ReadPage(views, cs, limit).items
    ensures i < Position(views.Get(s), ReadPage(views, cs, limit).next.Get(s), PerPage(limit))
  {
    hide ReadPage, Window, NextCursor, PageStart;
    var perPage, page := PerPage(limit), ReadPage(views, cs, limit);
    var entries, c, ids := views.Get(s), cs.Get(s), IdsOf(page.items);
    NextCursors(views, cs, limit, s);
    assert InRange(entries, c, perPage);
    Advance(entries, c, perPage, ids);
    WindowShape(entries, c, perPage);
    var start, window := Position(entries, c, perPage), Window(entries, c, perPage);
    assert window[i - start] == entries[i];
  }

  /** An item such a call returns was not behind any cursor before it, and is afterwards. */
  lemma PageMoves(views: Views, cs: Cursors, limit: nat, item: Item)
    requires limit >= 1 && AllInRange(views, cs, PerPage(limit)) && ValidCursors(cs)
    requires UniqueIds(views) && Tagged(views) && item in ReadPage(views, cs, limit).items
    ensures !Behind(views, cs, PerPage(limit), item)
    ensures PassesReturned(views, cs, limit) ==> Behind(views, ReadPage(views, cs, limit).next, PerPage(limit), item)
  {
    hide ReadPage, Window, PageStart, UniqueIds, Tagged, PassesReturned;
    var perPage := PerPage(limit);
    ItemOrigin(views, cs, limit, item);
    var s: Source, i :| && Position(views.Get(s), cs.Get(s), perPage) <= i < |views.Get(s)|
                        && views.Get(s)[i] == Some(item)
                        && Some(item) in Window(views.Get(s), cs.Get(s), perPage);
    assert InRange(views.Get(s), cs.Get(s), perPage);
    hide Position;
    InWindowAt(views, cs, perPage, s, i, item);
    forall t: Source, j | 0 <= j < |views.Get(t)| && views.Get(t)[j] == Some(item) ensures t == s && j == i {
      OnlyPlace(views, s, i, t, j, item);
    }
    if PassesReturned(views, cs, limit) {
      ReturnedIsPassed(views, cs, limit, s, i);
    }
  }

  ghost predicate PassesUntil(views: Views, limit: nat, n: nat)
    requires limit >= 1
  {
    forall k: nat :: k < n ==> PassesReturned(views, Iterate(views, limit, k).cursors, limit)
  }

  /** No repeat: a run whose calls pass what they return hands out an item at most once, and only items behind its
      cursors. */
  lemma {:induction false} NoRepeat(views: Views, limit: nat, n: nat, item: Item)
    requires limit >= 1 && Tagged(views) && UniqueIds(views) && PassesUntil(views, limit, n)
    ensures multiset(Iterate(views, limit, n).output)[item] <= 1
    ensures item in Iterate(views, limit, n).output
            ==> Behind(views, Iterate(views, limit, n).cursors, PerPage(limit), item)
  {
    hide ReadPage, Behind, Tagged, UniqueIds, Merged, PassesReturned;
    if n > 0 {
      var before := Iterate(views, limit, n - 1);
      var page := ReadPage(views, before.cursors, limit);
      NoRepeat(views, limit, n - 1, item);
      assert multiset(before.output + page.items) == multiset(before.output) + multiset(page.items);
      if item in page.items {
        PageMoves(views, before.cursors, limit, item);
        assert item !in multiset(before.output);
        PageItems(views, before.cursors, limit);
        TakeCount(Merged(views, before.cursors, PerPage(limit)), limit, item);
        MergedOnce(views, before.cursors, PerPage(limit), item);
      } else {
        assert item !in multiset(page.items);
        if item in before.output {
          BehindKept(views, before.cursors, limit, item);
        }
      }
    }
  }

  /** An item handed out but not passed is handed out again before the run ends. */
  lemma {:induction false} ReturnedAgain(views: Views, limit: nat, m: nat, n: nat, s: Source, i: nat)
    requires limit >= 1 && Tagged(views) && UniqueIds(views) && m <= n
    requires i < |views.Get(s)| && views.Get(s)[i].Some?
    requires Position(views.Get(s), Iterate(views, limit, m).cursors.Get(s), PerPage(limit)) <= i
             < Position(views.Get(s), Iterate(views, limit, n).cursors.Get(s), PerPage(limit))
    ensures |Iterate(views, limit, m).output| <= |Iterate(views, limit, n).output|
    ensures views.Get(s)[i].value in Iterate(views, limit, n).output[|Iterate(views, limit, m).output|..]
    ensures Iterate(views, limit, n).output[..|Iterate(views, limit, m).output|] == Iterate(views, limit, m).output
    decreases n
  {
    hide *;
    var x, first := views.Get(s)[i].value, Iterate(views, limit, m).output;
    if m == n {
      assert false;
    }
    var before := Iterate(views, limit, n - 1);
    var page := ReadPage(views, before.cursors, limit);
    StepOfRun(views, limit, n - 1);
    Grows(views, limit, m, n - 1);
    Grows(views, limit, m, n);
    SuffixGrows(before.output, page.items, |first|);
    if Position(views.Get(s), before.cursors.Get(s), PerPage(limit)) <= i {
      PassedIsReturned(views, before.cursors, limit, s, i);
    } else {
      ReturnedAgain(views, limit, m, n - 1, s, i);
    }
  }

  lemma SuffixGrows(before: seq<Item>, page: seq<Item>, k: nat)
    requires k <= |before|
    ensures forall x :: x in (before + page)[k..] <==> x in before[k..] || x in page
  {
    assert (before + page)[k..] == before[k..] + page;
  }

  lemma {:induction false} Grows(views: Views, limit: nat, m: nat, n: nat)
    requires limit >= 1 && m <= n
    ensures |Iterate(views, limit, m).output| <= |Iterate(views, limit, n).output|
    ensures Iterate(views, limit, n).output[..|Iterate(views, limit, m).output|] == Iterate(views, limit, m).output
    decreases n
  {
    hide ReadPage, AllInRange, ValidCursors;
    if m < n {
      Grows(views, limit, m, n - 1);
    }
  }

  lemma RepeatedTwice(output: seq<Item>, first: seq<Item>, x: Item)
    requires |first| <= |output| && output[..|first|] == first && x in first && x in output[|first|..]
    ensures multiset(output)[x] >= 2
  {
    assert output == first + output[|first|..];
    assert x in multiset(first) && x in multiset(output[|first|..]);
  }

  /** A call that fails to pass an item it returns makes a run that ends return that item twice. */
  lemma UnpassedRepeats(views: Views, limit: nat, k: nat, n: nat) returns (x: Item)
    requires limit >= 1 && Tagged(views) && UniqueIds(views) && k < n && Ended(views, limit, n)
    requires !PassesReturned(views, Iterate(views, limit, k).cursors, limit)
    ensures multiset(Iterate(views, limit, n).output)[x] >= 2
  {
    hide *;
    var before, after := Iterate(views, limit, k), Iterate(views, limit, k + 1);
    var s, i := Unpassed(views, before.cursors, limit);
    x := views.Get(s)[i].value;
    StepOfRun(views, limit, k);
    AllPassed(views, limit, n, s);
    ReturnedAgain(views, limit, k + 1, n, s, i);
    RepeatedTwice(Iterate(views, limit, n).output, after.output, x);
  }

  lemma StepOfRun(views: Views, limit: nat, k: nat)
    requires limit >= 1
    ensures var before, after := Iterate(views, limit, k), Iterate(views, limit, k + 1);
            var page := ReadPage(views, before.cursors, limit);
            after == Run(page.next, before.output + page.items)
  {
    hide ReadPage, AllInRange, ValidCursors;
  }

  lemma AllPassed(views: Views, limit: nat, n: nat, s: Source)
    requires limit >= 1 && Ended(views, limit, n)
    ensures Position(views.Get(s), Iterate(views, limit, n).cursors.Get(s), PerPage(limit)) == |views.Get(s)|
  {
    hide Iterate;
    assert Iterate(views, limit, n).cursors.Get(s).page.Exhausted?;
  }

  /** The place of an item that the call returns and does not pass. */
  lemma Unpassed(views: Views, cs: Cursors, limit: nat) returns (s: Source, i: nat)
    requires limit >= 1 && AllInRange(views, cs, PerPage(limit)) && ValidCursors(cs)
    requires !PassesReturned(views, cs, limit)
    ensures i < |views.Get(s)| && views.Get(s)[i].Some?
    ensures views.Get(s)[i].value in ReadPage(views, cs, limit).items
    ensures Position(views.Get(s), ReadPage(views, cs, limit).next.Get(s), PerPage(limit)) <= i
  {
    hide *;
    var j;
    s, j := UnpassedIn(views, cs, limit);
    i := PlaceOf(views, cs, limit, s, j, IdsOf(ReadPage(views, cs, limit).items));
    NextCursors(views, cs, limit, s);
  }

  lemma UnpassedIn(views: Views, cs: Cursors, limit: nat) returns (s: Source, j: nat)
    requires limit >= 1 && ValidCursors(cs) && !PassesReturned(views, cs, limit)
    ensures var window, items := Window(views.Get(s), cs.Get(s), PerPage(limit)), ReadPage(views, cs, limit).items;
            Consumed(window, IdsOf(items)) <= j < |window| && window[j].Some? && window[j].value in items
  {
    hide ReadPage, Window, IdsOf, Consumed;
    var perPage, items := PerPage(limit), ReadPage(views, cs, limit).items;
    s :| !PassesIn(Window(views.Get(s), cs.Get(s), perPage), items);
    var window := Window(views.Get(s), cs.Get(s), perPage);
    j :| Consumed(window, IdsOf(items)) <= j < |window| && window[j].Some? && window[j].value in items;
  }

  lemma PlaceOf(views: Views, cs: Cursors, limit: nat, s: Source, j: nat, ids: Ids) returns (i: nat)
    requires limit >= 1 && AllInRange(views, cs, PerPage(limit)) && ValidCursors(cs)
    requires var window := Window(views.Get(s), cs.Get(s), PerPage(limit));
             Consumed(window, ids) <= j < |window| && window[j].Some?
    ensures i < |views.Get(s)| && views.Get(s)[i] == Window(views.Get(s), cs.Get(s), PerPage(limit))[j]
    ensures ValidCursor(cs.Get(s))
    ensures Position(views.Get(s), NextCursor(views.Get(s), cs.Get(s), PerPage(limit), ids), PerPage(limit)) <= i
  {
    var perPage, entries, c := PerPage(limit), views.Get(s), cs.Get(s);
    assert InRange(entries, c, perPage);
    hide Window, NextCursor, PageStart, AllInRange, ValidCursors, Consumed;
    var window := Window(entries, c, perPage);
    assert Some(window[j].value) in window;
    OpenIfSeen(entries, c, perPage, window[j].value);
    Advance(entries, c, perPage, ids);
    WindowShape(entries, c, perPage);
    i := Position(entries, c, perPage) + j;
    assert entries[i] == window[j];
  }

  // ---- Exactly once ---------------------------------------------------------

  /** Every call moves some source and passes what it returns. */
  ghost predicate Steady(views: Views, limit: nat)
    requires limit >= 1
  {
    && !EverStuck(views, limit)
    && forall k: nat :: !Ended(views, limit, k) ==> PassesReturned(views, Iterate(views, limit, k).cursors, limit)
  }

  ghost predicate EachOnce(views: Views, output: seq<Item>) {
    forall item :: multiset(output)[item] == if Eligible(views, item) then 1 else 0
  }

  lemma EndedPasses(views: Views, cs: Cursors, limit: nat)
    requires limit >= 1 && ValidCursors(cs) && AllExhausted(cs)
    ensures PassesReturned(views, cs, limit)
  {
    ExhaustedIsDone(views, cs, limit);
  }

  /** A steady run ends, in a bounded number of calls, and its output is a permutation of the eligible items. */
  lemma SteadyIsOnce(views: Views, limit: nat) returns (n: nat)
    requires limit >= 1 && Tagged(views) && UniqueIds(views) && Steady(views, limit)
    ensures Ended(views, limit, n)
    ensures n <= |views.issue| + |views.reviewComment| + |views.review| + 3
    ensures EachOnce(views, Iterate(views, limit, n).output)
  {
    hide ReadPage, Merged, Eligible, Tagged, UniqueIds, SomeSourceMoves, EverStuck, PassesReturned, AllExhausted;
    n := EndsWithin(views, limit, 0);
    NoSkip(views, limit, n);
    forall k: nat | k < n ensures PassesReturned(views, Iterate(views, limit, k).cursors, limit) {
      if Ended(views, limit, k) {
        EndedPasses(views, Iterate(views, limit, k).cursors, limit);
      }
    }
    var output := Iterate(views, limit, n).output;
    forall item ensures multiset(output)[item] == if Eligible(views, item) then 1 else 0 {
      NoRepeat(views, limit, n, item);
      assert item in multiset(output) <==> item in output;
    }
  }

  /** A run ends with every eligible item returned exactly once if and only if it is steady. */
  lemma OnceIffSteady(views: Views, limit: nat)
    requires limit >= 1 && Tagged(views) && UniqueIds(views)
    ensures (exists n: nat :: Ended(views, limit, n) && EachOnce(views, Iterate(views, limit, n).output))
            <==> Steady(views, limit)
  {
    hide ReadPage, Merged, Eligible, Tagged, UniqueIds, EverStuck, PassesReturned, AllExhausted;
    if Steady(views, limit) {
      var n := SteadyIsOnce(views, limit);
    } else if n: nat :| Ended(views, limit, n) && EachOnce(views, Iterate(views, limit, n).output) {
      EndsIffNeverStuck(views, limit);
      var k: nat :| !Ended(views, limit, k) && !PassesReturned(views, Iterate(views, limit, k).cursors, limit);
      if n <= k {
        EndedForever(views, limit, n, k);
      }
      var x := UnpassedRepeats(views, limit, k, n);
      assert false;
    }
  }
}
