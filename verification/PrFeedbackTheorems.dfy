/** What polling a pull request promises: every comment once, a cursor that never goes back, and quiet repeats. */
module PrFeedbackTheorems {
  import opened Text
  import opened FeedbackKeys
  import opened FeedbackPaging
  import opened FeedbackRuns
  import opened CursorText
  import opened PrFeedbackPoll
  import TaskModel
  import ClusterSteps
  import ClusterInvariant
  import ClusterRuns

  // ---- Which comments a poll is about ---------------------------------------

  /** The server lists this comment, in a form that can be read. */
  ghost predicate Listed(server: Server, x: Item) {
    exists s: Source, i :: 0 <= i < |server.Get(s)| && BuildItem(s, server.Get(s)[i]) == Some(x)
  }

  predicate Above(since: Option<SortKey>, key: Key) {
    since.None? || TupleLess(since.value, key.Sort())
  }

  lemma ReadKeepsAbove(source: Source, raw: Raw, since: Option<SortKey>)
    ensures ReadEntry(source, raw, since)
            == (var built := BuildItem(source, raw);
                if built.Some? && Above(since, built.value.key) then built else None)
  {
    hide TupleLess;
    var built := BuildItem(source, raw);
    if built.Some? && since.Some? {
      TupleTotal(built.value.key.Sort(), since.value);
    }
  }

  lemma EligibleIff(server: Server, since: Option<SortKey>, x: Item)
    ensures Eligible(ReadViews(server, since), x) <==> Listed(server, x) && Above(since, x.key)
  {
    hide BuildItem, Above, ReadEntry;
    var views := ReadViews(server, since);
    if Eligible(views, x) {
      var s: Source :| Some(x) in views.Get(s);
      var i :| 0 <= i < |views.Get(s)| && views.Get(s)[i] == Some(x);
      ReadKeepsAbove(s, server.Get(s)[i], since);
      assert BuildItem(s, server.Get(s)[i]) == Some(x);
    }
    if Listed(server, x) && Above(since, x.key) {
      var s: Source, i :| 0 <= i < |server.Get(s)| && BuildItem(s, server.Get(s)[i]) == Some(x);
      ReadKeepsAbove(s, server.Get(s)[i], since);
      assert views.Get(s)[i] == Some(x);
    }
  }

  /** No source lists an id twice. */
  predicate UniqueServer(server: Server) {
    UniqueIds(ReadViews(server, None))
  }

  lemma UniqueForAny(server: Server, since: Option<SortKey>)
    requires UniqueServer(server)
    ensures UniqueIds(ReadViews(server, since))
  {
    hide BuildItem, Above, ReadEntry;
    var all, views := ReadViews(server, None), ReadViews(server, since);
    forall s: Source, i, j | 0 <= i < j < |views.Get(s)| && views.Get(s)[i].Some? && views.Get(s)[j].Some?
      ensures views.Get(s)[i].value.key.id != views.Get(s)[j].value.key.id
    {
      ReadKeepsAbove(s, server.Get(s)[i], since);
      ReadKeepsAbove(s, server.Get(s)[j], since);
      ReadKeepsAbove(s, server.Get(s)[i], None);
      ReadKeepsAbove(s, server.Get(s)[j], None);
      assert Above(None, views.Get(s)[i].value.key) && Above(None, views.Get(s)[j].value.key) by { NoneAbove(); }
      assert all.Get(s)[i] == views.Get(s)[i] && all.Get(s)[j] == views.Get(s)[j];
    }
  }

  lemma NoneAbove()
    ensures forall key :: Above(None, key)
  {
  }

  // ---- One poll -------------------------------------------------------------

  predicate SameButCursor(t: TaskModel.Task, t': TaskModel.Task) {
    t' == t.(context := t.context.(prCursor := t'.context.prCursor))
  }

  /** The rows before the poll, with nothing changed but the saved cursor, and then the new tasks. */
  predicate Extended(ts: Table, ts': Table, execute: nat) {
    && execute < |ts| <= |ts'|
    && (forall i :: 0 <= i < |ts| && i != execute ==> ts'[i] == ts[i])
    && SameButCursor(ts[execute], ts'[execute])
  }

  lemma SavedKeeps(ts: Table, execute: nat, cursor: Option<string>, pr: string)
    requires execute < |ts|
    ensures var ts' := Saved(ts, execute, cursor);
            && Extended(ts, ts', execute) && |ts'| == |ts| && Mapped(ts', pr) == Mapped(ts, pr)
            && (forall e, comment :: HasTask(ts', e, comment) <==> HasTask(ts, e, comment))
  {
    hide TaskModel.First;
    var ts' := Saved(ts, execute, cursor);
    SameMapping(ts, ts', pr);
    forall e, comment ensures HasTask(ts', e, comment) <==> HasTask(ts, e, comment) {
      forall i | 0 <= i < |ts| ensures IsTaskFor(ts'[i], e, comment) == IsTaskFor(ts[i], e, comment) {
      }
    }
  }

  lemma SameMapping(ts: Table, ts': Table, pr: string)
    requires |ts| == |ts'| && forall i :: 0 <= i < |ts| ==> SameButCursor(ts[i], ts'[i])
    ensures Mapped(ts', pr) == Mapped(ts, pr)
  {
    hide TaskModel.First;
    forall i | 0 <= i < |ts|
      ensures TaskModel.Matches(ts[i], TaskModel.ExecuteWithPr(pr))
              == TaskModel.Matches(ts'[i], TaskModel.ExecuteWithPr(pr))
    {
    }
  }

  lemma SavedKeepsInv(ts: Table, execute: nat, cursor: Option<string>)
    requires ClusterInvariant.Inv(ts) && execute < |ts| && ts[execute].kind.Execute?
    ensures ClusterInvariant.Inv(Saved(ts, execute, cursor))
  {
    hide ClusterInvariant.Inv;
    if cursor.Some? {
      var step := ClusterSteps.SaveCursor(execute, cursor.value);
      assert ClusterSteps.Apply(ts, step) == Saved(ts, execute, cursor);
      ClusterRuns.StepKeepsInv(ts, step);
    }
  }

  /** The row is the task of an eligible comment that had none. */
  ghost predicate NewTaskFor(ts: Table, e: nat, pr: string, views: Views, row: TaskModel.Task)
    requires e < |ts|
  {
    exists x :: Eligible(views, x) && !HasTask(ts, e, CommentId(x.key))
                && CommentRow(row, e, ts[e], pr, CommentId(x.key))
  }

  lemma NewTask(ts: Table, e: nat, pr: string, views: Views, row: TaskModel.Task, output: seq<Item>)
    requires e < |ts| && CommentAdded(ts, e, pr, output, row)
    requires forall x :: x in output ==> Eligible(views, x)
    ensures NewTaskFor(ts, e, pr, views, row)
  {
    hide Eligible, HasTask, CommentRow, CommentId;
  }

  /** Every eligible comment of the pull request ends up with exactly one task under the execute it maps to, and every
      new row is such a task for an eligible comment that had none. */
  lemma PollIngests(ts: Table, ts': Table, execute: nat, server: Server, limit: nat)
    requires ClusterInvariant.Inv(ts) && Pollable(ts, execute) && limit >= 1 && UniqueServer(server)
    requires Polled(ts, ts', execute, server, limit)
    ensures ClusterInvariant.Inv(ts') && Extended(ts, ts', execute) && Pollable(ts', execute)
    ensures var pr, views := ts[execute].pr.value, ViewsFor(ts, execute, server);
            && Mapped(ts, pr).Some? && Mapped(ts', pr) == Mapped(ts, pr)
            && var e := Mapped(ts, pr).value;
            && e < |ts|
            && (forall x :: Eligible(views, x) ==> OneTask(ts', e, CommentId(x.key)))
            && (forall i :: |ts| <= i < |ts'| ==> NewTaskFor(ts, e, pr, views, ts'[i]))
  {
    hide *;
    PollableIn(ts, execute);
    var views := ViewsFor(ts, execute, server);
    var n := PagesOf(ts, ts', execute, server, limit);
    var pr, output := ts[execute].pr.value, Iterate(views, limit, n).output;
    var latest := LatestAfter(views, ts[execute].context.prCursor, limit, n);
    PollableIsMapped(ts, execute);
    AllIngested(ts, pr, output);
    IngestKeepsInv(ts, pr, output);
    var ingested := IngestAll(ts, pr, output);
    IngestedRow(ts, ingested, execute);
    SavedKeeps(ingested, execute, latest, pr);
    SavedKeepsInv(ingested, execute, latest);
    NoSkip(views, limit, n);
    var e := Mapped(ts, pr).value;
    forall x | Eligible(views, x) ensures OneTask(ts', e, CommentId(x.key)) {
      OneFeedbackOnly(ts', e, CommentId(x.key));
    }
    SavedExtends(ts, ingested, ts', execute);
    forall i | |ts| <= i < |ts'|
      ensures NewTaskFor(ts, e, pr, views, ts'[i])
    {
      assert ingested[i] == ts'[i];
      NewTask(ts, e, pr, views, ts'[i], output);
    }
  }

  lemma PagesOf(ts: Table, ts': Table, execute: nat, server: Server, limit: nat) returns (n: nat)
    requires Pollable(ts, execute) && limit >= 1 && UniqueServer(server)
    requires Polled(ts, ts', execute, server, limit)
    ensures execute < |ts| && ts[execute].pr.Some? && ts[execute].kind.Execute?
    ensures var views := ViewsFor(ts, execute, server);
            && views == ReadViews(server, ReadSince(ts[execute].context.prCursor))
            && Tagged(views) && UniqueIds(views) && Ended(views, limit, n) && FirstEnd(views, limit, n)
            && var ingested := IngestAll(ts, ts[execute].pr.value, Iterate(views, limit, n).output);
            && execute < |ingested|
            && ts' == Saved(ingested, execute, LatestAfter(views, ts[execute].context.prCursor, limit, n))
  {
    hide IngestAll, Iterate, Ended, LatestAfter, ReadViews, Tagged, UniqueIds, Saved, ReadSince;
    var views := ViewsFor(ts, execute, server);
    TaggedViews(server, ReadSince(ts[execute].context.prCursor));
    UniqueForAny(server, ReadSince(ts[execute].context.prCursor));
    n :| AfterPages(ts, ts', execute, views, limit, n);
  }

  lemma IngestedRow(ts: Table, ingested: Table, execute: nat)
    requires Pollable(ts, execute) && |ts| <= |ingested| && ts == ingested[..|ts|]
    ensures execute < |ingested| && ingested[execute] == ts[execute] && ts[execute].kind.Execute?
  {
    assert ingested[..|ts|][execute] == ingested[execute];
  }

  lemma SavedExtends(ts: Table, ingested: Table, ts': Table, execute: nat)
    requires Pollable(ts, execute) && |ts| <= |ingested| && ts == ingested[..|ts|]
    requires Extended(ingested, ts', execute) && |ts'| == |ingested|
    ensures Extended(ts, ts', execute) && Pollable(ts', execute)
    ensures forall i :: |ts| <= i < |ts'| ==> ts'[i] == ingested[i]
  {
    forall i | 0 <= i < |ts| ensures ingested[i] == ts[i] {
      assert ingested[..|ts|][i] == ingested[i];
    }
  }

  // ---- The saved cursor -----------------------------------------------------

  lemma {:induction false} LatestIsReturned(views: Views, since: Option<string>, limit: nat, n: nat)
    requires limit >= 1
    ensures var latest := LatestAfter(views, since, limit, n);
            || latest == since
            || exists x :: x in Iterate(views, limit, n).output && latest == Some(PrintSince(x.key.Sort()))
  {
    hide ReadPage, PrintSince;
    if n > 0 {
      LatestIsReturned(views, since, limit, n - 1);
      var page := ReadPage(views, Iterate(views, limit, n - 1).cursors, limit);
      if page.items != [] {
        var last := page.items[|page.items| - 1];
        assert last in Iterate(views, limit, n).output;
      }
    }
  }

  /** The saved cursor is the old one, or names a comment ingested by this poll, whose key is above the old one. */
  lemma SavedCursor(ts: Table, ts': Table, execute: nat, server: Server, limit: nat)
    requires ClusterInvariant.Inv(ts) && Pollable(ts, execute) && limit >= 1 && UniqueServer(server)
    requires Polled(ts, ts', execute, server, limit)
    ensures execute < |ts'|
    ensures var before, after := ts[execute].context.prCursor, ts'[execute].context.prCursor;
            || after == before
            || exists x :: Eligible(ViewsFor(ts, execute, server), x) && Above(ReadSince(before), x.key)
                           && after == Some(PrintSince(x.key.Sort()))
  {
    hide *;
    PollableIn(ts, execute);
    var views, before := ViewsFor(ts, execute, server), ts[execute].context.prCursor;
    var n := PagesOf(ts, ts', execute, server, limit);
    var output := Iterate(views, limit, n).output;
    LatestIsReturned(views, before, limit, n);
    PollableIsMapped(ts, execute);
    AllIngested(ts, ts[execute].pr.value, output);
    var ingested := IngestAll(ts, ts[execute].pr.value, output);
    IngestedRow(ts, ingested, execute);
    NoSkip(views, limit, n);
    var latest := LatestAfter(views, before, limit, n);
    CursorSaved(ts, ingested, execute, latest);
    if latest != before {
      var x :| x in output && latest == Some(PrintSince(x.key.Sort()));
      EligibleIff(server, ReadSince(before), x);
    }
  }

  lemma CursorSaved(ts: Table, ingested: Table, execute: nat, latest: Option<string>)
    requires execute < |ts| && execute < |ingested| && ingested[execute] == ts[execute]
    ensures execute < |Saved(ingested, execute, latest)|
    ensures var after := Saved(ingested, execute, latest)[execute].context.prCursor;
            after == if latest.Some? then latest else ts[execute].context.prCursor
  {
  }

  /** Timestamps of listed comments without the cursor's separator, as in every ISO 8601 date. */
  ghost predicate PlainStamps(server: Server) {
    forall x :: Listed(server, x) ==> '|' !in x.key.updatedAt
  }

  /** What the next poll reads back: the same since key, or that of a comment this poll was about. */
  lemma NextSince(ts: Table, ts': Table, execute: nat, server: Server, limit: nat)
    requires ClusterInvariant.Inv(ts) && Pollable(ts, execute) && limit >= 1 && UniqueServer(server)
    requires Polled(ts, ts', execute, server, limit) && PlainStamps(server)
    ensures execute < |ts'|
    ensures var before, after := ReadSince(ts[execute].context.prCursor), ReadSince(ts'[execute].context.prCursor);
            || after == before
            || exists x :: Eligible(ViewsFor(ts, execute, server), x) && Above(before, x.key)
                           && after == Some(x.key.Sort())
  {
    hide *;
    PollableIn(ts, execute);
    SavedCursor(ts, ts', execute, server, limit);
    var before, after := ts[execute].context.prCursor, ts'[execute].context.prCursor;
    if after != before {
      var x :| Eligible(ViewsFor(ts, execute, server), x) && Above(ReadSince(before), x.key)
               && after == Some(PrintSince(x.key.Sort()));
      PlainStamp(server, ReadSince(before), x) by { ViewsAre(ts, execute, server); }
      SinceRoundTrip(x.key);
    }
  }

  lemma ViewsAre(ts: Table, execute: nat, server: Server)
    requires execute < |ts|
    ensures ViewsFor(ts, execute, server) == ReadViews(server, ReadSince(ts[execute].context.prCursor))
  {
    hide ReadViews, ReadSince;
  }

  lemma PlainStamp(server: Server, since: Option<SortKey>, x: Item)
    requires PlainStamps(server) && Eligible(ReadViews(server, since), x)
    ensures '|' !in x.key.updatedAt
  {
    hide Eligible, Listed;
    EligibleIff(server, since, x);
  }

  lemma AboveRises(before: Option<SortKey>, x: Key, y: Key)
    requires Above(before, x) && Above(Some(x.Sort()), y)
    ensures Above(before, y)
  {
    hide TupleLess;
    if before.Some? {
      TupleTransitive(before.value, x.Sort(), y.Sort());
    }
  }

  // ---- The next poll --------------------------------------------------------

  /** Polling the same comments again creates no task and changes nothing but the saved cursor. */
  lemma PollAgain(ts: Table, ts': Table, ts'': Table, execute: nat, server: Server, limit: nat)
    requires ClusterInvariant.Inv(ts) && Pollable(ts, execute) && limit >= 1 && UniqueServer(server)
    requires PlainStamps(server) && Polled(ts, ts', execute, server, limit)
    requires Pollable(ts', execute) && Polled(ts', ts'', execute, server, limit)
    ensures |ts''| == |ts'| && Extended(ts', ts'', execute)
  {
    hide *;
    PollableIn(ts, execute);
    PollableIn(ts', execute);
    PollIngests(ts, ts', execute, server, limit);
    PollIngests(ts', ts'', execute, server, limit);
    SamePr(ts, ts', execute);
    SamePr(ts', ts'', execute);
    if |ts''| > |ts'| {
      var e := Mapped(ts, ts[execute].pr.value).value;
      var x := NewComment(ts', e, ts[execute].pr.value, ViewsFor(ts', execute, server), ts''[|ts'|]);
      EligibleBefore(ts, ts', execute, server, limit, x);
      OneHas(ts', e, CommentId(x.key));
      assert false;
    }
  }

  lemma NewComment(ts: Table, e: nat, pr: string, views: Views, row: TaskModel.Task) returns (x: Item)
    requires e < |ts| && NewTaskFor(ts, e, pr, views, row)
    ensures Eligible(views, x) && !HasTask(ts, e, CommentId(x.key))
  {
    hide Eligible, HasTask;
    x :| Eligible(views, x) && !HasTask(ts, e, CommentId(x.key))
         && CommentRow(row, e, ts[e], pr, CommentId(x.key));
  }

  lemma OneHas(ts: Table, e: nat, comment: string)
    requires OneTask(ts, e, comment)
    ensures HasTask(ts, e, comment)
  {
  }

  lemma SamePr(ts: Table, ts': Table, execute: nat)
    requires Extended(ts, ts', execute)
    ensures execute < |ts| <= |ts'| && ts'[execute].pr == ts[execute].pr
  {
  }

  lemma EligibleBefore(ts: Table, ts': Table, execute: nat, server: Server, limit: nat, x: Item)
    requires ClusterInvariant.Inv(ts) && Pollable(ts, execute) && limit >= 1 && UniqueServer(server)
    requires PlainStamps(server) && Polled(ts, ts', execute, server, limit)
    requires execute < |ts'| && Eligible(ViewsFor(ts', execute, server), x)
    ensures Eligible(ViewsFor(ts, execute, server), x)
  {
    hide *;
    NextSince(ts, ts', execute, server, limit);
    assert execute < |ts| by { PollableIn(ts, execute); }
    var before, after := ReadSince(ts[execute].context.prCursor), ReadSince(ts'[execute].context.prCursor);
    ViewsAre(ts, execute, server);
    ViewsAre(ts', execute, server);
    EligibleIff(server, before, x);
    EligibleIff(server, after, x);
    if after != before {
      var y :| Eligible(ViewsFor(ts, execute, server), y) && Above(before, y.key) && after == Some(y.key.Sort());
      AboveRises(before, y.key, x.key);
    }
  }

  lemma PollableIn(ts: Table, execute: nat)
    requires Pollable(ts, execute)
    ensures execute < |ts| && ts[execute].pr.Some?
  {
  }

  /** One poll of the pull request: the table it found, the table it left, and what the server listed. */
  datatype Visit = Visit(before: Table, after: Table, server: Server)

  /** Polls of one execute, with anything at all in between that leaves its saved cursor alone. */
  ghost predicate Visits(visits: seq<Visit>, execute: nat, limit: nat) {
    && limit >= 1
    && (forall k :: 0 <= k < |visits| ==> IsVisit(visits[k], execute, limit))
    && (forall k :: 0 <= k < |visits| - 1 ==> PlainStamps(visits[k].server))
    && (forall j, k :: 0 <= j < |visits| && k == j + 1 < |visits| ==>
          execute < |visits[j].after| && execute < |visits[k].before|
          && visits[k].before[execute].context.prCursor == visits[j].after[execute].context.prCursor)
  }

  ghost predicate IsVisit(v: Visit, execute: nat, limit: nat) {
    && limit >= 1 && ClusterInvariant.Inv(v.before) && Pollable(v.before, execute)
    && UniqueServer(v.server) && Polled(v.before, v.after, execute, v.server, limit)
  }

  /** A visit about smaller keys only leaves a cursor below `x`. */
  lemma StaysBelow(v: Visit, execute: nat, limit: nat, x: Item)
    requires limit >= 1 && IsVisit(v, execute, limit) && PlainStamps(v.server) && execute < |v.before|
    requires Above(ReadSince(v.before[execute].context.prCursor), x.key)
    requires forall y :: Eligible(ViewsFor(v.before, execute, v.server), y) ==> KeyLess(y.key, x.key)
    ensures execute < |v.after| && Above(ReadSince(v.after[execute].context.prCursor), x.key)
  {
    assert forall y: Item :: KeyLess(y.key, x.key) ==> Above(Some(y.key.Sort()), x.key);
    assert ClusterInvariant.Inv(v.before) && Pollable(v.before, execute) && UniqueServer(v.server)
           && Polled(v.before, v.after, execute, v.server, limit);
    hide *;
    NextSince(v.before, v.after, execute, v.server, limit);
  }

  lemma VisitAt(visits: seq<Visit>, execute: nat, limit: nat, k: nat)
    requires Visits(visits, execute, limit) && k < |visits|
    ensures limit >= 1 && IsVisit(visits[k], execute, limit) && execute < |visits[k].before|
    ensures k + 1 < |visits| ==>
              PlainStamps(visits[k].server) && execute < |visits[k].after| && execute < |visits[k + 1].before|
              && visits[k + 1].before[execute].context.prCursor == visits[k].after[execute].context.prCursor
  {
    assert IsVisit(visits[k], execute, limit);
    var j := k + 1;
    assert j < |visits| ==> visits[j].before[execute].context.prCursor == visits[k].after[execute].context.prCursor;
  }

  lemma {:induction false} BelowUntil(visits: seq<Visit>, execute: nat, limit: nat, x: Item, k: nat)
    requires Visits(visits, execute, limit) && k < |visits|
    requires execute < |visits[0].before| && Above(ReadSince(visits[0].before[execute].context.prCursor), x.key)
    requires forall j, y :: (0 <= j < k && execute < |visits[j].before|
                             && Eligible(ViewsFor(visits[j].before, execute, visits[j].server), y))
               ==> KeyLess(y.key, x.key)
    ensures execute < |visits[k].before| && Above(ReadSince(visits[k].before[execute].context.prCursor), x.key)
  {
    hide Visits, IsVisit, Above, KeyLess, ViewsFor, Eligible, ReadSince, PlainStamps;
    if k > 0 {
      BelowUntil(visits, execute, limit, x, k - 1);
      VisitAt(visits, execute, limit, k - 1);
      StaysBelow(visits[k - 1], execute, limit, x);
    }
  }

  /** A comment that comes later, with a key above everything polled before, has exactly one task after the first poll
      that lists it, however many polls there were and whatever else happened to the table in between. */
  lemma LaterComments(visits: seq<Visit>, execute: nat, limit: nat, x: Item)
    requires visits != [] && Visits(visits, execute, limit)
    requires execute < |visits[0].before| && Above(ReadSince(visits[0].before[execute].context.prCursor), x.key)
    requires forall j, y :: (0 <= j < |visits| - 1 && execute < |visits[j].before|
                             && Eligible(ViewsFor(visits[j].before, execute, visits[j].server), y))
               ==> KeyLess(y.key, x.key)
    requires Listed(visits[|visits| - 1].server, x)
    ensures var v := visits[|visits| - 1];
            && execute < |v.before| && v.before[execute].pr.Some?
            && var e := Mapped(v.before, v.before[execute].pr.value);
            e.Some? && OneTask(v.after, e.value, CommentId(x.key))
  {
    hide *;
    var last := |visits| - 1;
    BelowUntil(visits, execute, limit, x, last);
    VisitAt(visits, execute, limit, last);
    CaughtNow(visits[last], execute, limit, x);
  }

  lemma CaughtNow(v: Visit, execute: nat, limit: nat, x: Item)
    requires limit >= 1 && IsVisit(v, execute, limit) && execute < |v.before|
    requires Above(ReadSince(v.before[execute].context.prCursor), x.key) && Listed(v.server, x)
    ensures v.before[execute].pr.Some?
    ensures var e := Mapped(v.before, v.before[execute].pr.value);
            e.Some? && OneTask(v.after, e.value, CommentId(x.key))
  {
    assert ClusterInvariant.Inv(v.before) && Pollable(v.before, execute) && UniqueServer(v.server)
           && Polled(v.before, v.after, execute, v.server, limit);
    assert v.before[execute].pr.Some?;
    hide *;
    ViewsAre(v.before, execute, v.server);
    EligibleIff(v.server, ReadSince(v.before[execute].context.prCursor), x);
    PollIngests(v.before, v.after, execute, v.server, limit);
  }

  predicate KeepsCursor(ts: Table, ts': Table, e: nat) {
    e < |ts| <= |ts'| && ts'[e].context.prCursor == ts[e].context.prCursor
  }

  lemma EnsureKeepsCursor(ts: Table, base: Table, id: nat, e: nat)
    requires id < |ts| == |base| && KeepsCursor(ts, base, e)
    ensures KeepsCursor(ts, ClusterSteps.EnsureDeliver(base, id), e)
  {
    hide TaskModel.First;
  }

  lemma ReplyKeepsCursor(ts: Table, id: nat, agent: TaskModel.Outcome, pr: Option<string>, e: nat)
    requires id < |ts| && ClusterSteps.ParentOf(ts, id).Some? && e < |ts|
    ensures KeepsCursor(ts, ClusterSteps.Reply(ts, id, agent, pr), e)
  {
    hide ClusterSteps.EnsureDeliver;
    var execute := ClusterSteps.ParentOf(ts, id).value;
    var done := ts[id := ClusterSteps.Finished(ts[id], agent, pr)];
    EnsureKeepsCursor(ts, done[execute := ClusterSteps.Restamped(done[execute], id, pr)], id, e);
  }

  lemma StartKeepsCursor(ts: Table, id: nat, agent: TaskModel.Outcome, e: nat)
    requires id < |ts| && ClusterSteps.ParentOf(ts, id).Some? && e < |ts|
    ensures KeepsCursor(ts, ClusterSteps.Start(ts, id, agent), e)
  {
    hide ClusterSteps.Reply, ClusterSteps.ReadyTriageFor, TaskModel.First;
    if ClusterSteps.ReadyTriageFor(ts, id).None? {
      ReplyKeepsCursor(ts, id, agent, None, e);
    }
  }

  lemma PollKeepsCursor(ts: Table, snap: TaskModel.Snapshot, e: nat)
    requires e < |ts| && TaskModel.IsImplementation(ts[e])
    ensures KeepsCursor(ts, ClusterSteps.Ingest(ts, snap), e)
  {
    hide TaskModel.First, TaskModel.Last, ClusterSteps.Decide;
  }

  /** An implementation's saved cursor is written by nothing but its own polls. */
  lemma OnlySavesWriteCursors(ts: Table, step: ClusterSteps.Step, e: nat)
    requires ClusterSteps.Enabled(ts, step) && e < |ts| && TaskModel.IsImplementation(ts[e])
    requires !(step.SaveCursor? && step.execute == e)
    ensures e < |ClusterSteps.Apply(ts, step)|
    ensures ClusterSteps.Apply(ts, step)[e].context.prCursor == ts[e].context.prCursor
  {
    hide TaskModel.First, TaskModel.Last, NonBlank, ClusterSteps.CanComment, ClusterSteps.EnsureDeliver,
         ClusterSteps.Ingest, ClusterSteps.Reply, ClusterSteps.Start, TaskModel.TriageOutcome,
         TaskModel.IsImplementation;
    match step
    case Poll(snap) => PollKeepsCursor(ts, snap, e);
    case CompleteTriage(id, sp, markdown) =>
      EnsureKeepsCursor(ts, ts[id := ClusterSteps.Finished(ts[id], TaskModel.TriageOutcome(sp, markdown),
                                None)], id, e);
    case CompleteExecute(id, agent, pr) =>
      EnsureKeepsCursor(ts, ts[id := ClusterSteps.Finished(ts[id], agent, pr)], id, e);
    case CompleteTrackerFeedback(id, agent, pr) => ReplyKeepsCursor(ts, id, agent, pr, e);
    case StartImplementation(id, agent) => StartKeepsCursor(ts, id, agent, e);
    case _ =>
  }

  lemma {:induction false} CursorLasts(ts: Table, steps: seq<ClusterSteps.Step>, e: nat)
    requires ClusterInvariant.Inv(ts) && ClusterRuns.Legal(ts, steps) && e < |ts| && TaskModel.IsImplementation(ts[e])
    requires forall k :: 0 <= k < |steps| ==> !(steps[k].SaveCursor? && steps[k].execute == e)
    ensures e < |ClusterRuns.After(ts, steps)|
    ensures ClusterRuns.After(ts, steps)[e].context.prCursor == ts[e].context.prCursor
    decreases |steps|
  {
    hide ClusterInvariant.Inv, ClusterSteps.Apply, ClusterSteps.Enabled;
    if steps != [] {
      ClusterRuns.StepMoves(ts, steps[0]);
      ClusterRuns.StepKeepsInv(ts, steps[0]);
      OnlySavesWriteCursors(ts, steps[0], e);
      CursorLasts(ClusterSteps.Apply(ts, steps[0]), steps[1..], e);
    }
  }
}
