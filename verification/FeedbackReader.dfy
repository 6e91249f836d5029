/** `GitHubScm.read_pr_feedback` as it runs: per-source loops over one page each, then a merge and new cursors. */
module FeedbackReader {
  import opened Text
  import opened FeedbackKeys
  import opened FeedbackPaging
  import opened CursorText

  datatype ReadResult = ReadResult(items: seq<Item>, nextPageCursor: Option<string>, latestCursor: Option<string>)

  const SOURCES := [Issue, ReviewComment, Review]

  function Index(s: Source): (k: nat)
    ensures k < |SOURCES| && SOURCES[k] == s
  {
    match s case Issue => 0 case ReviewComment => 1 case Review => 2
  }

  /** The text is missing, malformed, or names pages from 1 on. */
  predicate UsablePageCursor(text: Option<string>) {
    ParseCursors(text).Ok? ==> ValidCursors(ParseCursors(text).value)
  }

  function LatestText(items: seq<Item>, since: Option<string>): Option<string> {
    if items == [] then since else Some(PrintSince(items[|items| - 1].key.Sort()))
  }

  function NextText(next: Cursors): Option<string> {
    if AllExhausted(next) then None else Some(PrintCursors(next))
  }

  function ReadFeedback(server: Server, since: Option<string>, pageCursor: Option<string>, limit: nat)
    : Result<ReadResult>
    requires UsablePageCursor(pageCursor)
  {
    match ParseCursors(pageCursor)
    case ValueError(m) => ValueError(m)
    case Ok(cursors) =>
      var page := ReadPage(ReadViews(server, ReadSince(since)), cursors, limit);
      Ok(ReadResult(page.items, NextText(page.next), LatestText(page.items, since)))
  }

  lemma EntriesOfSlice(source: Source, raws: seq<Raw>, since: Option<SortKey>, lo: nat, hi: nat)
    requires lo <= hi <= |raws|
    ensures ReadEntries(source, raws, since)[lo..hi] == ReadEntries(source, raws[lo..hi], since)
  {
    hide ReadEntry;
  }

  lemma EntriesOfPage(source: Source, raws: seq<Raw>, since: Option<SortKey>, n: int, perPage: nat)
    requires n >= 1
    ensures PageOf(ReadEntries(source, raws, since), n, perPage) == ReadEntries(source, PageOf(raws, n, perPage), since)
  {
    var lo := PageStart(n, perPage);
    hide ReadEntries, ReadEntry, PageStart;
    if lo < |raws| {
      EntriesOfSlice(source, raws, since, lo, Min(lo + perPage, |raws|));
    }
  }

  lemma EntriesOfRest(source: Source, raws: seq<Raw>, since: Option<SortKey>, offset: int)
    ensures After(ReadEntries(source, raws, since), offset) == ReadEntries(source, After(raws, offset), since)
  {
    hide ReadEntries;
    var from := if offset >= 0 then offset else if |raws| + offset >= 0 then |raws| + offset else 0;
    if from < |raws| {
      EntriesOfSlice(source, raws, since, from, |raws|);
      assert raws[from..|raws|] == raws[from..];
    }
  }

  /** Filtering a page gives the same entries as cutting the page out of the filtered list. */
  lemma WindowOfRaws(source: Source, raws: seq<Raw>, since: Option<SortKey>, c: SourceCursor, perPage: nat)
    requires ValidCursor(c) && c.page.Number?
    ensures Window(ReadEntries(source, raws, since), c, perPage)
            == ReadEntries(source, After(PageOf(raws, c.page.n, perPage), c.offset), since)
    ensures HasNext(ReadEntries(source, raws, since), c.page.n, perPage) == HasNext(raws, c.page.n, perPage)
  {
    hide ReadEntries, PageOf, After;
    EntriesOfPage(source, raws, since, c.page.n, perPage);
    EntriesOfRest(source, PageOf(raws, c.page.n, perPage), since, c.offset);
  }

  lemma ViewOf(server: Server, since: Option<SortKey>, source: Source)
    ensures ReadViews(server, since).Get(source) == ReadEntries(source, server.Get(source), since)
  {
  }

  method KeepEntry(source: Source, raw: Raw, since: Option<SortKey>) returns (entry: Entry)
    ensures entry == ReadEntry(source, raw, since)
  {
    hide BuildItem, TupleLess;
    match BuildItem(source, raw) {
      case None => return None;
      case Some(item) =>
        if since.Some? && (item.key.Sort() == since.value || TupleLess(item.key.Sort(), since.value)) {
          return None;
        }
        return Some(item);
    }
  }

  lemma EntriesGrow(source: Source, raws: seq<Raw>, since: Option<SortKey>, i: nat)
    requires i < |raws|
    ensures ReadEntries(source, raws[..i + 1], since)
            == ReadEntries(source, raws[..i], since) + [ReadEntry(source, raws[i], since)]
  {
    hide ReadEntry;
  }

  method LoadWindow(source: Source, raws: seq<Raw>, since: Option<SortKey>)
    returns (order: seq<Entry>, loaded: seq<Item>)
    ensures order == ReadEntries(source, raws, since)
    ensures loaded == Loaded(order)
  {
    hide ReadEntry, ReadEntries;
    order, loaded := [], [];
    for i := 0 to |raws|
      invariant order == ReadEntries(source, raws[..i], since)
      invariant loaded == Loaded(order)
    {
      var entry := KeepEntry(source, raws[i], since);
      EntriesGrow(source, raws, since, i);
      assert (order + [entry])[..|order|] == order;
      order := order + [entry];
      if entry.Some? {
        loaded := loaded + [entry.value];
      }
    }
    assert raws[..|raws|] == raws;
  }

  method CountConsumed(order: seq<Entry>, ids: Ids) returns (consumed: nat)
    ensures consumed == Consumed(order, ids)
  {
    consumed := 0;
    while consumed < |order|
      invariant consumed <= |order|
      invariant Consumed(order, ids) == consumed + Consumed(order[consumed..], ids)
    {
      var entry := order[consumed];
      if entry.Some? && (entry.value.key.source, entry.value.key.id) !in ids {
        break;
      }
      consumed := consumed + 1;
    }
  }

  type PerSource<T> = map<Source, T>

  /** Fetches and filters the current page of every open source. */
  method LoadSources(server: Server, since: Option<SortKey>, cursors: Cursors, perPage: nat)
    returns (order: PerSource<seq<Entry>>, loaded: PerSource<seq<Item>>, hasNext: PerSource<bool>)
    requires ValidCursors(cursors)
    ensures forall s: Source ::
              && s in order && s in loaded && s in hasNext
              && order[s] == Window(ReadViews(server, since).Get(s), cursors.Get(s), perPage)
              && loaded[s] == Loaded(order[s])
              && (cursors.Get(s).page.Number?
                  ==> hasNext[s] == HasNext(ReadViews(server, since).Get(s), cursors.Get(s).page.n, perPage))
  {
    hide Window, ReadEntries, Loaded, HasNext, PageOf;
    ghost var views := ReadViews(server, since);
    order := map[Issue := [], ReviewComment := [], Review := []];
    loaded := map[Issue := [], ReviewComment := [], Review := []];
    hasNext := map[Issue := false, ReviewComment := false, Review := false];
    for k := 0 to |SOURCES|
      invariant forall s: Source :: s in order && s in loaded && s in hasNext
      invariant forall s: Source :: Index(s) >= k ==> order[s] == [] && loaded[s] == []
      invariant forall s: Source :: Index(s) < k ==>
        && order[s] == Window(views.Get(s), cursors.Get(s), perPage)
        && loaded[s] == Loaded(order[s])
        && (cursors.Get(s).page.Number? ==> hasNext[s] == HasNext(views.Get(s), cursors.Get(s).page.n, perPage))
    {
      var source := SOURCES[k];
      var cursor := cursors.Get(source);
      assert ValidCursor(cursor);
      if cursor.page.Exhausted? {
        ExhaustedWindow(views.Get(source), cursor, perPage);
        continue;
      }
      var page := PageOf(server.Get(source), cursor.page.n, perPage);
      WindowOfRaws(source, server.Get(source), since, cursor, perPage);
      ViewOf(server, since, source);
      var entries, items := LoadWindow(source, After(page, cursor.offset), since);
      order, loaded := order[source := entries], loaded[source := items];
      hasNext := hasNext[source := HasNext(server.Get(source), cursor.page.n, perPage)];
    }
  }

  /** Rebuilds the composite cursor from each source's consumed prefix. */
  method MoveCursors(ghost views: Views, cursors: Cursors, perPage: nat, order: PerSource<seq<Entry>>,
                     hasNext: PerSource<bool>, ids: Ids)
    returns (next: PerSource<SourceCursor>)
    requires ValidCursors(cursors)
    requires forall s: Source ::
               && s in order && s in hasNext
               && order[s] == Window(views.Get(s), cursors.Get(s), perPage)
               && (cursors.Get(s).page.Number? ==> hasNext[s] == HasNext(views.Get(s), cursors.Get(s).page.n, perPage))
    ensures forall s: Source :: s in next && next[s] == NextCursor(views.Get(s), cursors.Get(s), perPage, ids)
  {
    hide Window, HasNext;
    next := map[Issue := INITIAL, ReviewComment := INITIAL, Review := INITIAL];
    for k := 0 to |SOURCES|
      invariant forall s: Source :: s in next
      invariant forall s: Source :: Index(s) < k ==>
        next[s] == NextCursor(views.Get(s), cursors.Get(s), perPage, ids)
    {
      var source := SOURCES[k];
      var cursor := cursors.Get(source);
      assert ValidCursor(cursor);
      if cursor.page.Exhausted? {
        next := next[source := cursor];
        continue;
      }
      var consumed := CountConsumed(order[source], ids);
      if consumed >= |order[source]| {
        if hasNext[source] {
          next := next[source := SourceCursor(Number(cursor.page.n + 1), 0)];
        } else {
          next := next[source := SourceCursor(Exhausted, 0)];
        }
      } else {
        next := next[source := SourceCursor(cursor.page, cursor.offset + consumed)];
      }
    }
  }

  method ReadPrFeedback(server: Server, since: Option<string>, pageCursor: Option<string>, limit: nat)
    returns (r: Result<ReadResult>)
    requires UsablePageCursor(pageCursor)
    ensures r == ReadFeedback(server, since, pageCursor, limit)
  {
    hide Window, ReadEntries, Loaded, PrintCursors, PrintSince, ReadSince, NextCursor, ParseCursors, SortByKey;
    var perPage := PerPage(limit);
    var parsed := ParseCursors(pageCursor);
    if parsed.ValueError? {
      return ValueError(parsed.message);
    }
    var cursors, sinceKey := parsed.value, ReadSince(since);
    ghost var views := ReadViews(server, sinceKey);
    var order, loaded, hasNext := LoadSources(server, sinceKey, cursors, perPage);
    var merged := SortByKey(loaded[Issue] + loaded[ReviewComment] + loaded[Review]);
    var returned := Take(merged, limit);
    var next := MoveCursors(views, cursors, perPage, order, hasNext, IdsOf(returned));
    var nextCursors := Triple(next[Issue], next[ReviewComment], next[Review]);
    ghost var page := ReadPage(views, cursors, limit);
    assert page.items == returned;
    assert forall s: Source :: page.next.Get(s) == nextCursors.Get(s);
    assert page.next.Get(Issue) == nextCursors.issue && page.next.Get(Review) == nextCursors.review;
    var latest := if returned != [] then Some(PrintSince(returned[|returned| - 1].key.Sort())) else since;
    var nextText := if AllExhausted(nextCursors) then None else Some(PrintCursors(nextCursors));
    return Ok(ReadResult(returned, nextText, latest));
  }

  lemma ExhaustedWindow(entries: seq<Entry>, c: SourceCursor, perPage: nat)
    requires ValidCursor(c) && c.page.Exhausted?
    ensures Window(entries, c, perPage) == []
    ensures Loaded([]) == []
  {
  }
}
