/** Polling the feedback of one pull request: all its pages, a task per comment, and the cursor saved for next time. */
module PrFeedbackPoll {
  import opened Text
  import opened FeedbackKeys
  import opened FeedbackPaging
  import opened FeedbackRuns
  import opened FeedbackReader
  import opened CursorText
  import TaskModel
  import ClusterSteps
  import ClusterInvariant
  import ClusterRuns
  import Intake

  type Table = TaskModel.Table

  // ---- Comment ids ----------------------------------------------------------

  function CommentId(key: Key): string {
    key.source.Name() + ['-'] + IntText(key.id)
  }

  lemma CommentIdsDistinct(a: Key, b: Key)
    ensures CommentId(a) == CommentId(b) ==> a.source == b.source && a.id == b.id
  {
    hide IntText;
    if CommentId(a) == CommentId(b) {
      var x, y := CommentId(a), CommentId(b);
      assert |Issue.Name()| == 5 && |Review.Name()| == 6 && |ReviewComment.Name()| == 14;
      assert x[0] == a.source.Name()[0] && y[0] == b.source.Name()[0];
      assert !a.source.Issue? ==> x[6] == if a.source.Review? then '-' else '_';
      assert !b.source.Issue? ==> y[6] == if b.source.Review? then '-' else '_';
      assert a.source == b.source;
      assert x[|a.source.Name()| + 1..] == IntText(a.id) && y[|b.source.Name()| + 1..] == IntText(b.id);
      IntRoundTrip(a.id);
      IntRoundTrip(b.id);
    }
  }

  /** How comment ids and cursor texts read. */
  lemma TextsRead(stamp: string)
    ensures IntText(0) == "0" && IntText(-120) == "-120" && IntText(9038) == "9038"
    ensures CommentId(Key(stamp, Issue, 7)) == "issue-7"
    ensures CommentId(Key(stamp, ReviewComment, 12)) == "review_comment-12"
    ensures CommentId(Key(stamp, Review, 3)) == "review-3"
    ensures PrintSince(Key(stamp, Issue, 7).Sort()) == stamp + "|issue|7"
  {
    assert NatText(7) == "7" && NatText(3) == "3" && NatText(12) == "12";
    assert NatText(120) == "120" && NatText(9038) == "9038";
  }

  // ---- Ingesting ------------------------------------------------------------

  function IngestAll(ts: Table, pr: string, items: seq<Item>): Table {
    if items == [] then ts
    else
      var last := |items| - 1;
      ClusterSteps.Apply(IngestAll(ts, pr, items[..last]), ClusterSteps.CommentOnPr(pr, CommentId(items[last].key)))
  }

  predicate IsTaskFor(t: TaskModel.Task, execute: nat, comment: string) {
    t.kind.PrFeedback? && t.parent == Some(execute) && t.external == Some(comment)
  }

  /** A waiting task below the execute, for this comment on this pull request. */
  predicate CommentRow(row: TaskModel.Task, execute: nat, t: TaskModel.Task, pr: string, comment: string) {
    row == TaskModel.Task(TaskModel.PrFeedback, TaskModel.New, Some(execute), t.root, Some(comment), Some(pr), Some(pr),
                          None, None, TaskModel.NO_CONTEXT, None)
  }

  /** The row is the task of a comment of the list that had none. */
  predicate CommentAdded(ts: Table, e: nat, pr: string, items: seq<Item>, row: TaskModel.Task)
    requires e < |ts|
  {
    exists x :: x in items && !HasTask(ts, e, CommentId(x.key)) && CommentRow(row, e, ts[e], pr, CommentId(x.key))
  }

  predicate HasTask(ts: Table, execute: nat, comment: string) {
    exists i :: 0 <= i < |ts| && IsTaskFor(ts[i], execute, comment)
  }

  predicate OneTask(ts: Table, execute: nat, comment: string) {
    && HasTask(ts, execute, comment)
    && forall i, j :: (0 <= i < j < |ts| && IsTaskFor(ts[i], execute, comment)) ==> !IsTaskFor(ts[j], execute, comment)
  }

  function Mapped(ts: Table, pr: string): Option<nat> {
    TaskModel.First(ts, TaskModel.ExecuteWithPr(pr))
  }

  lemma OneIngested(ts: Table, pr: string, comment: string)
    requires Mapped(ts, pr).Some?
    ensures var e := Mapped(ts, pr).value;
            && e < |ts|
            && var ts' := ClusterSteps.Apply(ts, ClusterSteps.CommentOnPr(pr, comment));
            && Mapped(ts', pr) == Some(e)
            && (if HasTask(ts, e, comment) then ts' == ts
                else |ts'| == |ts| + 1 && ts == ts'[..|ts|] && CommentRow(ts'[|ts|], e, ts[e], pr, comment))
            && HasTask(ts', e, comment)
  {
    hide TaskModel.First;
    var e := Mapped(ts, pr).value;
    var row := ClusterSteps.PrFeedbackTask(e, ts[e], pr, comment);
    var found := TaskModel.First(ts, TaskModel.ChildWithExternal(e, TaskModel.PrFeedback, comment));
    if found.Some? {
      assert IsTaskFor(ts[found.value], e, comment);
    } else {
      forall i | 0 <= i < |ts| ensures !IsTaskFor(ts[i], e, comment) {
        assert !TaskModel.Matches(ts[i], TaskModel.ChildWithExternal(e, TaskModel.PrFeedback, comment));
      }
      assert IsTaskFor((ts + [row])[|ts|], e, comment);
      var again := TaskModel.First(ts + [row], TaskModel.ExecuteWithPr(pr));
      assert TaskModel.Matches((ts + [row])[e], TaskModel.ExecuteWithPr(pr));
    }
  }

  lemma TasksGrow(ts: Table, before: Table, ts': Table, e: nat, x: string)
    requires |ts| <= |before| <= |ts'| && ts == before[..|ts|] && before == ts'[..|before|]
    ensures ts == ts'[..|ts|]
    ensures HasTask(ts, e, x) ==> HasTask(before, e, x)
    ensures HasTask(before, e, x) ==> HasTask(ts', e, x)
  {
    if HasTask(ts, e, x) {
      var i :| 0 <= i < |ts| && IsTaskFor(ts[i], e, x);
      assert before[..|ts|][i] == before[i];
    }
    if HasTask(before, e, x) {
      var i :| 0 <= i < |before| && IsTaskFor(before[i], e, x);
      assert ts'[..|before|][i] == ts'[i];
    }
  }

  /** What ingesting a list of comments adds: a task for each comment that had none, and nothing else. */
  lemma {:induction false} AllIngested(ts: Table, pr: string, items: seq<Item>)
    requires Mapped(ts, pr).Some?
    ensures var e, ts' := Mapped(ts, pr).value, IngestAll(ts, pr, items);
            && e < |ts| <= |ts'| && ts == ts'[..|ts|] && Mapped(ts', pr) == Some(e)
            && (forall x :: x in items ==> HasTask(ts', e, CommentId(x.key)))
            && (forall i :: |ts| <= i < |ts'| ==>
                  CommentAdded(ts, e, pr, items, ts'[i]))
  {
    hide *;
    if items == [] {
      NoneIngested(ts, pr);
    } else {
      var last := |items| - 1;
      var e, x, before := Mapped(ts, pr).value, items[last], IngestAll(ts, pr, items[..last]);
      AllIngested(ts, pr, items[..last]);
      OneIngested(before, pr, CommentId(x.key));
      var ts' := IngestAll(ts, pr, items);
      IngestLast(ts, pr, items);
      OneMore(ts, before, ts', e, pr, items);
    }
  }

  lemma NoneIngested(ts: Table, pr: string)
    requires Mapped(ts, pr).Some?
    ensures Mapped(ts, pr).value < |ts| && IngestAll(ts, pr, []) == ts
  {
    hide ClusterSteps.Apply;
  }

  lemma IngestLast(ts: Table, pr: string, items: seq<Item>)
    requires items != []
    ensures var last := |items| - 1;
            IngestAll(ts, pr, items) == ClusterSteps.Apply(IngestAll(ts, pr, items[..last]),
                                                           ClusterSteps.CommentOnPr(pr, CommentId(items[last].key)))
  {
  }

  lemma OneMore(ts: Table, before: Table, ts': Table, e: nat, pr: string, items: seq<Item>)
    requires items != [] && e < |ts| <= |before| && ts == before[..|ts|]
    requires forall x :: x in items[..|items| - 1] ==> HasTask(before, e, CommentId(x.key))
    requires forall i :: |ts| <= i < |before| ==>
               CommentAdded(ts, e, pr, items[..|items| - 1], before[i])
    requires var comment := CommentId(items[|items| - 1].key);
             HasTask(ts', e, comment)
             && if HasTask(before, e, comment) then ts' == before
                else |ts'| == |before| + 1 && before == ts'[..|before|]
                     && CommentRow(ts'[|before|], e, before[e], pr, comment)
    ensures e < |ts| <= |ts'| && ts == ts'[..|ts|]
    ensures forall x :: x in items ==> HasTask(ts', e, CommentId(x.key))
    ensures forall i :: |ts| <= i < |ts'| ==> CommentAdded(ts, e, pr, items, ts'[i])
  {
    hide HasTask, CommentId, CommentRow;
    var last := |items| - 1;
    assert items == items[..last] + [items[last]];
    assert before[..|ts|][e] == before[e] && ts'[..|before|] == before;
    forall x | x in items ensures HasTask(ts', e, CommentId(x.key)) {
      TasksGrow(ts, before, ts', e, CommentId(x.key));
    }
    TasksGrow(ts, before, ts', e, CommentId(items[last].key));
    forall i | |ts| <= i < |ts'|
      ensures CommentAdded(ts, e, pr, items, ts'[i])
    {
      if i < |before| {
        assert CommentAdded(ts, e, pr, items[..last], before[i]) && ts'[..|before|][i] == before[i];
      } else {
        assert items[last] in items;
      }
    }
  }

  lemma MappedInRange(ts: Table, pr: string)
    ensures Mapped(ts, pr).Some? ==> Mapped(ts, pr).value < |ts|
  {
  }

  lemma {:induction false} IngestKeepsInv(ts: Table, pr: string, items: seq<Item>)
    requires ClusterInvariant.Inv(ts)
    ensures ClusterInvariant.Inv(IngestAll(ts, pr, items))
  {
    hide ClusterInvariant.Inv, ClusterSteps.Apply;
    if items != [] {
      var last := |items| - 1;
      IngestKeepsInv(ts, pr, items[..last]);
      ClusterRuns.StepKeepsInv(IngestAll(ts, pr, items[..last]),
                                   ClusterSteps.CommentOnPr(pr, CommentId(items[last].key)));
    }
  }

  lemma OneFeedbackOnly(ts: Table, e: nat, comment: string)
    requires ClusterInvariant.Inv(ts) && HasTask(ts, e, comment)
    ensures OneTask(ts, e, comment)
  {
    forall i, j | 0 <= i < j < |ts| && IsTaskFor(ts[i], e, comment) ensures !IsTaskFor(ts[j], e, comment) {
      assert ClusterInvariant.IsFeedback(ts[i]);
    }
  }

  // ---- The poll -------------------------------------------------------------

  /** The cursor kept after `n` pages; a page without items reports the since cursor again. */
  function LatestAfter(views: Views, since: Option<string>, limit: nat, n: nat): Option<string>
    requires limit >= 1
  {
    if n == 0 then since
    else
      var page := ReadPage(views, Iterate(views, limit, n - 1).cursors, limit);
      var reported := LatestText(page.items, since);
      if reported.Some? then reported else LatestAfter(views, since, limit, n - 1)
  }

  function Saved(ts: Table, execute: nat, cursor: Option<string>): Table
    requires execute < |ts|
  {
    if cursor.None? then ts
    else ts[execute := ts[execute].(context := ts[execute].context.(prCursor := cursor))]
  }

  function ViewsFor(ts: Table, execute: nat, server: Server): Views
    requires execute < |ts|
  {
    ReadViews(server, ReadSince(ts[execute].context.prCursor))
  }

  predicate Pollable(ts: Table, execute: nat) {
    execute < |ts| && ts[execute].kind.Execute? && ts[execute].pr.Some?
  }

  /** One whole poll of an execute's pull request took the table from `ts` to `ts'`. */
  ghost predicate Polled(ts: Table, ts': Table, execute: nat, server: Server, limit: nat)
    requires Pollable(ts, execute) && limit >= 1
  {
    var views := ViewsFor(ts, execute, server);
    exists n: nat :: AfterPages(ts, ts', execute, views, limit, n)
  }

  predicate AfterPages(ts: Table, ts': Table, execute: nat, views: Views, limit: nat, n: nat)
    requires Pollable(ts, execute) && limit >= 1
  {
    var ingested := IngestAll(ts, ts[execute].pr.value, Iterate(views, limit, n).output);
    && FirstEnd(views, limit, n)
    && execute < |ingested|
    && ts' == Saved(ingested, execute, LatestAfter(views, ts[execute].context.prCursor, limit, n))
  }

  lemma TaggedViews(server: Server, since: Option<SortKey>)
    ensures Tagged(ReadViews(server, since))
  {
    hide TupleLess;
    var views := ReadViews(server, since);
    forall s: Source, i | 0 <= i < |views.Get(s)| && views.Get(s)[i].Some?
      ensures views.Get(s)[i].value.key.source == s
    {
      assert views.Get(s)[i] == ReadEntry(s, server.Get(s)[i], since);
    }
  }

  lemma PollableIsMapped(ts: Table, execute: nat)
    requires Pollable(ts, execute)
    ensures Mapped(ts, ts[execute].pr.value).Some?
  {
    hide TaskModel.First;
    assert TaskModel.Matches(ts[execute], TaskModel.ExecuteWithPr(ts[execute].pr.value));
  }

  /** A call made with the text of the run's cursors is the run's next call. */
  lemma NextCall(views: Views, server: Server, since: Option<string>, cursor: Option<string>, limit: nat, n: nat)
    requires limit >= 1 && views == ReadViews(server, ReadSince(since))
    requires ParseCursors(cursor) == Ok(Iterate(views, limit, n).cursors)
    ensures UsablePageCursor(cursor)
    ensures var page := ReadPage(views, Iterate(views, limit, n).cursors, limit);
            && ReadFeedback(server, since, cursor, limit)
               == Ok(ReadResult(page.items, NextText(page.next), LatestText(page.items, since)))
            && Iterate(views, limit, n + 1) == Run(page.next, Iterate(views, limit, n).output + page.items)
            && (NextText(page.next).None? <==> Ended(views, limit, n + 1))
            && (NextText(page.next).Some? ==> ParseCursors(NextText(page.next)) == Ok(page.next))
            && LatestAfter(views, since, limit, n + 1)
               == (var reported := LatestText(page.items, since);
                   if reported.Some? then reported else LatestAfter(views, since, limit, n))
  {
    hide ReadPage, ReadViews, ReadSince, PrintCursors, ParseCursors;
    var page := ReadPage(views, Iterate(views, limit, n).cursors, limit);
    CursorsRoundTrip(page.next);
  }

  lemma NextRanks(views: Views, limit: nat, n: nat)
    requires limit >= 1 && !EverStuck(views, limit) && !Ended(views, limit, n)
    ensures 0 <= TotalRank(views, Iterate(views, limit, n + 1).cursors, PerPage(limit))
              < TotalRank(views, Iterate(views, limit, n).cursors, PerPage(limit))
  {
    hide ReadPage, SomeSourceMoves, TotalRank, AllInRange, AllExhausted;
    ProgressOrStuck(views, Iterate(views, limit, n).cursors, limit);
  }

  lemma StartNotEnded(views: Views, limit: nat)
    requires limit >= 1
    ensures !Ended(views, limit, 0)
  {
    assert Iterate(views, limit, 0).cursors.Get(Issue) == INITIAL;
  }

  lemma IngestExtends(ts: Table, pr: string, items: seq<Item>, x: Item)
    ensures IngestAll(ts, pr, items + [x])
            == ClusterSteps.Apply(IngestAll(ts, pr, items), ClusterSteps.CommentOnPr(pr, CommentId(x.key)))
  {
    assert (items + [x])[..|items|] == items;
  }

  method IngestPage(worker: Intake.IntakeWorker, pr: string, items: seq<Item>, ghost ts: Table, ghost before: seq<Item>)
    requires worker.repository.rows == IngestAll(ts, pr, before)
    modifies worker.repository
    ensures worker.repository.rows == IngestAll(ts, pr, before + items)
  {
    hide ClusterSteps.Apply, IngestAll, CommentId;
    assert before + items[..0] == before;
    for k := 0 to |items|
      invariant worker.repository.rows == IngestAll(ts, pr, before + items[..k])
    {
      IngestExtends(ts, pr, before + items[..k], items[k]);
      assert before + items[..k] + [items[k]] == before + items[..k + 1];
      var created := worker.IngestPrFeedback(pr, CommentId(items[k].key));
    }
    assert items[..|items|] == items;
  }

  /** The poll as it runs. It ends because no call is stuck, and it is the abstract poll. */
  method PollExecutePrFeedback(worker: Intake.IntakeWorker, execute: nat, server: Server, limit: nat)
    requires Pollable(worker.repository.rows, execute) && limit >= 1
    requires !EverStuck(ViewsFor(worker.repository.rows, execute, server), limit)
    modifies worker.repository
    ensures Polled(old(worker.repository.rows), worker.repository.rows, execute, server, limit)
  {
    ghost var ts, views := worker.repository.rows, ViewsFor(worker.repository.rows, execute, server);
    hide *;
    StartOfPoll(ts, execute, server, limit);
    ghost var n := 0;
    var pr := worker.repository.rows[execute].pr.value;
    var since := worker.repository.rows[execute].context.prCursor;
    var latest := since;
    var pageCursor: Option<string> := None;
    while true
      invariant ParseCursors(pageCursor) == Ok(Iterate(views, limit, n).cursors)
      invariant worker.repository.rows == IngestAll(ts, pr, Iterate(views, limit, n).output)
      invariant latest == LatestAfter(views, since, limit, n)
      invariant !Ended(views, limit, n)
      decreases TotalRank(views, Iterate(views, limit, n).cursors, PerPage(limit))
    {
      NextCall(views, server, since, pageCursor, limit, n);
      NextRanks(views, limit, n);
      var read := ReadPrFeedback(server, since, pageCursor, limit);
      var page := read.value;
      IngestPage(worker, pr, page.items, ts, Iterate(views, limit, n).output);
      n := n + 1;
      if page.latestCursor.Some? {
        latest := page.latestCursor;
      }
      if page.nextPageCursor.None? {
        break;
      }
      pageCursor := page.nextPageCursor;
    }
    FirstEndHere(views, limit, n);
    EndOfPoll(ts, execute, server, limit, n);
    if latest.Some? {
      var t := worker.repository.rows[execute];
      worker.repository.rows := worker.repository.rows[execute := t.(context := t.context.(prCursor := latest))];
    }
  }

  lemma FirstEndHere(views: Views, limit: nat, n: nat)
    requires limit >= 1 && n > 0 && Ended(views, limit, n) && !Ended(views, limit, n - 1)
    ensures FirstEnd(views, limit, n)
  {
    hide Ended;
  }

  lemma StartOfPoll(ts: Table, execute: nat, server: Server, limit: nat)
    requires Pollable(ts, execute) && limit >= 1
    ensures execute < |ts| && ts[execute].pr.Some?
    ensures var views, since := ViewsFor(ts, execute, server), ts[execute].context.prCursor;
            && views == ReadViews(server, ReadSince(since))
            && !Ended(views, limit, 0)
            && ParseCursors(None) == Ok(Iterate(views, limit, 0).cursors)
            && ts == IngestAll(ts, ts[execute].pr.value, Iterate(views, limit, 0).output)
            && since == LatestAfter(views, since, limit, 0)
  {
    StartNotEnded(ViewsFor(ts, execute, server), limit);
  }

  lemma EndOfPoll(ts: Table, execute: nat, server: Server, limit: nat, n: nat)
    requires Pollable(ts, execute) && limit >= 1 && FirstEnd(ViewsFor(ts, execute, server), limit, n)
    ensures var views := ViewsFor(ts, execute, server);
            var ingested := IngestAll(ts, ts[execute].pr.value, Iterate(views, limit, n).output);
            var latest := LatestAfter(views, ts[execute].context.prCursor, limit, n);
            && execute < |ingested|
            && Polled(ts, Saved(ingested, execute, latest), execute, server, limit)
            && (latest.None? ==> Saved(ingested, execute, latest) == ingested)
            && (latest.Some? ==>
                  Saved(ingested, execute, latest)
                  == ingested[execute := ingested[execute].(context := ingested[execute].context.(prCursor := latest))])
  {
    hide IngestAll, LatestAfter, FirstEnd, Iterate;
    var views := ViewsFor(ts, execute, server);
    PollableIsMapped(ts, execute);
    AllIngested(ts, ts[execute].pr.value, Iterate(views, limit, n).output);
    var latest := LatestAfter(views, ts[execute].context.prCursor, limit, n);
    var ts' := Saved(IngestAll(ts, ts[execute].pr.value, Iterate(views, limit, n).output), execute, latest);
    assert AfterPages(ts, ts', execute, views, limit, n);
  }
}
