/**
 What one call of `read_pr_feedback` returns, as a function of the three comment lists, the composite page
 cursor, the since key and the limit.
 */
module FeedbackPaging {
  import opened Text
  import opened FeedbackKeys

  /** The fields of a listed comment that decide whether it becomes a feedback item. */
  datatype Raw = Raw(
    id: Option<int>,
    updatedAt: Option<string>,
    createdAt: Option<string>,
    submittedAt: Option<string>,
    state: Option<string>,
    body: Option<string>)

  datatype Triple<T> = Triple(issue: T, reviewComment: T, review: T) {
    function Get(source: Source): T {
      match source
      case Issue => issue
      case ReviewComment => reviewComment
      case Review => review
    }
  }

  type Server = Triple<seq<Raw>>

  /** A loaded item, or None for an entry that is invalid or not above the since key. */
  type Entry = Option<Item>

  type Views = Triple<seq<Entry>>

  datatype Page = Exhausted | Number(n: int)

  datatype SourceCursor = SourceCursor(page: Page, offset: int)

  type Cursors = Triple<SourceCursor>

  const PER_PAGE_MAX := 100

  const INITIAL := SourceCursor(Number(1), 0)

  const INITIAL_CURSORS := Triple(INITIAL, INITIAL, INITIAL)

  /** Python's `a or b` on optional strings. */
  function Either(a: Option<string>, b: Option<string>): Option<string> {
    if a.Some? && a.value != "" then a else b
  }

  function ReviewBody(state: Option<string>, body: Option<string>): string {
    if body.Some? && NonBlank(body.value) then body.value
    else if state == Some("APPROVED") then "(approved without comment)"
    else if state == Some("CHANGES_REQUESTED") then "(changes requested without comment)"
    else "(review without comment)"
  }

  function BuildItem(source: Source, raw: Raw): Option<Item> {
    var stamp := if source.Review? then Either(raw.submittedAt, raw.updatedAt)
                 else Either(raw.updatedAt, raw.createdAt);
    var body := if source.Review? then Some(ReviewBody(raw.state, raw.body)) else raw.body;
    if raw.id.None? || stamp.None? || body.None? then None
    else Some(Item(Key(stamp.value, source, raw.id.value), body.value))
  }

  function ReadEntry(source: Source, raw: Raw, since: Option<SortKey>): Entry {
    match BuildItem(source, raw)
    case None => None
    case Some(item) =>
      if since.Some? && (item.key.Sort() == since.value || TupleLess(item.key.Sort(), since.value)) then None
      else Some(item)
  }

  function ReadEntries(source: Source, raws: seq<Raw>, since: Option<SortKey>): (entries: seq<Entry>)
    ensures |entries| == |raws|
    ensures forall i :: 0 <= i < |raws| ==> entries[i] == ReadEntry(source, raws[i], since)
  {
    seq(|raws|, i requires 0 <= i < |raws| => ReadEntry(source, raws[i], since))
  }

  function ReadViews(server: Server, since: Option<SortKey>): Views {
    Triple(ReadEntries(Issue, server.issue, since),
           ReadEntries(ReviewComment, server.reviewComment, since),
           ReadEntries(Review, server.review, since))
  }

  // ---- Pages ----------------------------------------------------------------

  /** Entries on the pages before page `n`. */
  function PageStart(n: int, perPage: nat): nat {
    if n <= 1 then 0 else PageStart(n - 1, perPage) + perPage
  }

  lemma {:induction false} PageStartIs(n: int, perPage: nat)
    requires n >= 1
    ensures PageStart(n, perPage) == (n - 1) * perPage
    decreases n
  {
    if n > 1 {
      PageStartIs(n - 1, perPage);
    }
  }

  function Min(a: int, b: int): int {
    if a < b then a else b
  }

  function PerPage(limit: nat): nat {
    Min(limit, PER_PAGE_MAX)
  }

  function PageOf<T>(list: seq<T>, n: int, perPage: nat): seq<T>
    requires n >= 1
  {
    var lo := PageStart(n, perPage);
    if lo >= |list| then [] else list[lo..Min(lo + perPage, |list|)]
  }

  predicate HasNext<T>(list: seq<T>, n: int, perPage: nat) {
    PageStart(n, perPage) + perPage < |list|
  }

  /** A cursor that names a page there can be; its offset may point anywhere. */
  predicate ValidCursor(c: SourceCursor) {
    c.page.Number? ==> c.page.n >= 1
  }

  predicate ValidCursors(cs: Cursors) {
    forall s: Source :: ValidCursor(cs.Get(s))
  }

  predicate AllExhausted(cs: Cursors) {
    forall s: Source :: cs.Get(s).page.Exhausted?
  }

  /** Python's `page[offset:]`: a negative offset counts from the end. */
  function After<T>(page: seq<T>, offset: int): seq<T> {
    if offset >= |page| then []
    else if offset >= 0 then page[offset..]
    else if |page| + offset >= 0 then page[|page| + offset..]
    else page
  }

  /** The entries one call looks at in one source: the rest of the current page. */
  function Window(entries: seq<Entry>, c: SourceCursor, perPage: nat): seq<Entry>
    requires ValidCursor(c)
  {
    if c.page.Exhausted? then [] else After(PageOf(entries, c.page.n, perPage), c.offset)
  }

  function Loaded(window: seq<Entry>): seq<Item> {
    if window == [] then []
    else
      var last := window[|window| - 1];
      Loaded(window[..|window| - 1]) + if last.Some? then [last.value] else []
  }

  function Merged(views: Views, cs: Cursors, perPage: nat): seq<Item>
    requires ValidCursors(cs)
  {
    SortByKey(Loaded(Window(views.Get(Issue), cs.Get(Issue), perPage))
              + Loaded(Window(views.Get(ReviewComment), cs.Get(ReviewComment), perPage))
              + Loaded(Window(views.Get(Review), cs.Get(Review), perPage)))
  }

  function Take<T>(items: seq<T>, limit: nat): seq<T> {
    if |items| <= limit then items else items[..limit]
  }

  type Ids = set<(Source, int)>

  function IdsOf(items: seq<Item>): Ids {
    set item | item in items :: (item.key.source, item.key.id)
  }

  predicate Returned(entry: Entry, ids: Ids) {
    entry.None? || (entry.value.key.source, entry.value.key.id) in ids
  }

  /** Length of the prefix that may be left behind: it ends at the first loaded item that was not returned. */
  function Consumed(window: seq<Entry>, ids: Ids): (k: nat)
    ensures k <= |window|
    ensures forall i :: 0 <= i < k ==> Returned(window[i], ids)
    ensures k < |window| ==> !Returned(window[k], ids)
  {
    if window == [] || !Returned(window[0], ids) then 0 else 1 + Consumed(window[1..], ids)
  }

  function NextCursor(entries: seq<Entry>, c: SourceCursor, perPage: nat, ids: Ids): SourceCursor
    requires ValidCursor(c)
  {
    if c.page.Exhausted? then c
    else
      var window := Window(entries, c, perPage);
      var k := Consumed(window, ids);
      if k < |window| then SourceCursor(c.page, c.offset + k)
      else if HasNext(entries, c.page.n, perPage) then SourceCursor(Number(c.page.n + 1), 0)
      else SourceCursor(Exhausted, 0)
  }

  datatype FeedbackPage = FeedbackPage(items: seq<Item>, next: Cursors)

  function ReadPage(views: Views, cs: Cursors, limit: nat): FeedbackPage
    requires ValidCursors(cs)
  {
    var perPage := PerPage(limit);
    var items := Take(Merged(views, cs, perPage), limit);
    var ids := IdsOf(items);
    FeedbackPage(items, Triple(NextCursor(views.issue, cs.issue, perPage, ids),
                               NextCursor(views.reviewComment, cs.reviewComment, perPage, ids),
                               NextCursor(views.review, cs.review, perPage, ids)))
  }
}
