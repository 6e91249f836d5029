/** The tracker intake worker's transactions, written as it runs them. */
module Intake {
  import opened Text
  import opened TaskModel
  import opened ClusterSteps
  import opened ClusterRest
  import opened Repository

  datatype Created = Created(fetch: bool, execute: bool)

  class IntakeWorker {
    const repository: TaskRepository

    constructor (repository: TaskRepository)
      ensures this.repository == repository
    {
      this.repository := repository;
    }

    method IngestTrackerTask(snap: Snapshot) returns (r: Created)
      modifies repository
      ensures repository.rows == Ingest(old(repository.rows), snap)
      ensures r == Created(Decide(old(repository.rows), snap).FirstSeen?, |repository.rows| > |old(repository.rows)|)
    {
      hide First, Last, Decide;
      var fetch := repository.FindFirst(FetchOf(snap.external));
      if fetch.None? {
        r := CreateInitialFetchAndExecute(snap);
      } else {
        var execute := HandleExistingFetch(fetch.value, snap);
        r := Created(false, execute);
      }
    }

    method CreateInitialFetchAndExecute(snap: Snapshot) returns (r: Created)
      requires First(repository.rows, FetchOf(snap.external)).None?
      modifies repository
      ensures repository.rows == Ingest(old(repository.rows), snap)
      ensures r == Created(true, true) && Decide(old(repository.rows), snap).FirstSeen?
      ensures |repository.rows| > |old(repository.rows)|
    {
      hide First;
      var id := |repository.rows|;
      var fetch := repository.CreateTask(FetchTask(id, snap), None);
      CreateTriageExecute(fetch.value, snap);
      r := Created(true, true);
    }

    method CreateTriageExecute(fetch: nat, snap: Snapshot)
      requires fetch < |repository.rows|
      modifies repository
      ensures repository.rows == old(repository.rows) + [TriageTask(fetch, old(repository.rows)[fetch].root, snap)]
    {
      var created := repository.CreateTask(TriageTask(fetch, 0, snap), None);
    }

    /** Refreshes the stored context; the hash moves along unless a triage is running. */
    method RefreshContext(fetch: nat, snap: Snapshot, running: bool)
      requires fetch < |repository.rows|
      modifies repository
      ensures repository.rows == old(repository.rows)[fetch := Refreshed(old(repository.rows)[fetch], snap, running)]
    {
      var t := repository.rows[fetch];
      var context := t.context.(content := snap.content);
      if !running {
        context := context.(storedHash := Some(snap.content.digest));
      }
      repository.rows := repository.rows[fetch := t.(context := context)];
    }

    method Supersede(implementation: nat)
      requires implementation < |repository.rows|
      modifies repository
      ensures repository.rows == old(repository.rows)[implementation :=
                old(repository.rows)[implementation].(status := Failed, result := Some(SUPERSEDED))]
    {
      var t := repository.rows[implementation].(status := Failed);
      t := t.(result := Some(SUPERSEDED));
      repository.rows := repository.rows[implementation := t];
    }

    /** The reopen flag, from the latest finished implementation and its delivery. */
    method DetectReopen(fetch: nat, snap: Snapshot) returns (isReopen: bool)
      requires fetch < |repository.rows|
      ensures isReopen == IsReopen(repository.rows, fetch, snap)
    {
      hide First, Last;
      var root := repository.rows[fetch].root;
      var pendingTriage := repository.FindFirst(TriageUnder(fetch, New));
      var processingTriage := repository.FindFirst(TriageUnder(fetch, Processing));
      var pendingImpl := repository.FindFirst(ImplementationWith(root, New));
      var processingImpl := repository.FindFirst(ImplementationWith(root, Processing));
      var doneImpl := repository.FindLast(ImplementationWith(root, Done));
      var consumed := doneImpl.Some? && repository.rows[fetch].context.consumed == doneImpl;
      var delivered := false;
      if doneImpl.Some? {
        var deliver := repository.FindFirst(ChildOf(doneImpl.value, Deliver));
        delivered := deliver.Some? && repository.rows[deliver.value].status.Done?;
      }
      isReopen := snap.status.New? && doneImpl.Some? && delivered && pendingImpl.None? && processingImpl.None?
        && pendingTriage.None? && processingTriage.None? && !consumed;
    }

    method HandleExistingFetch(fetch: nat, snap: Snapshot) returns (created: bool)
      requires First(repository.rows, FetchOf(snap.external)) == Some(fetch)
      modifies repository
      ensures repository.rows == Ingest(old(repository.rows), snap)
      ensures !Decide(old(repository.rows), snap).FirstSeen?
      ensures created <==> |repository.rows| > |old(repository.rows)|
    {
      hide First, Last, IsReopen, LastTriageEscalated;
      var child := repository.FindFirst(ChildOf(fetch, Execute));
      if child.None? {
        CreateTriageExecute(fetch, snap);
        return true;
      }
      var contentChanged := repository.rows[fetch].context.storedHash != Some(snap.content.digest);
      var isReopen := DetectReopen(fetch, snap);
      if !contentChanged && !isReopen {
        return false;
      }
      var pendingTriage := repository.FindFirst(TriageUnder(fetch, New));
      var processingTriage := repository.FindFirst(TriageUnder(fetch, Processing));
      var root := repository.rows[fetch].root;
      var pendingImpl := repository.FindFirst(ImplementationWith(root, New));
      var processingImpl := repository.FindFirst(ImplementationWith(root, Processing));
      var doneImpl := repository.FindLast(ImplementationWith(root, Done));
      RefreshContext(fetch, snap, processingTriage.Some?);
      if processingTriage.Some? {
        return false;
      }
      if pendingTriage.Some? {
        var p := pendingTriage.value;
        repository.rows := repository.rows[p :=
          repository.rows[p].(context := Context(snap.content, None, None, None))];
        return false;
      }
      created := Retriage(fetch, snap, old(repository.rows), isReopen, processingImpl, pendingImpl, doneImpl);
    }

    /** With the context refreshed and no triage active: an implementation under way, waiting or finished decides, in
        that order, and then the last triage. */
    method Retriage(fetch: nat, snap: Snapshot, ghost before: Table, isReopen: bool,
                    processingImpl: Option<nat>, pendingImpl: Option<nat>, doneImpl: Option<nat>)
      returns (created: bool)
      requires First(before, FetchOf(snap.external)) == Some(fetch) && fetch < |before|
      requires First(before, ChildOf(fetch, Execute)).Some? && !TriageActive(before, fetch)
      requires isReopen == IsReopen(before, fetch, snap) && (ContentChanged(before, fetch, snap) || isReopen)
      requires processingImpl == First(before, ImplementationWith(before[fetch].root, Processing))
      requires pendingImpl == First(before, ImplementationWith(before[fetch].root, New))
      requires doneImpl == Last(before, ImplementationWith(before[fetch].root, Done))
      requires repository.rows == before[fetch := Refreshed(before[fetch], snap, false)]
      modifies repository
      ensures repository.rows == Ingest(before, snap)
      ensures created <==> |repository.rows| > |before|
    {
      hide First, Last, IsReopen;
      assert First(before, TriageUnder(fetch, Processing)).None? && First(before, TriageUnder(fetch, New)).None?;
      assert Matches(before[fetch], FetchOf(snap.external));
      var lastTriage := repository.FindLast(TriageUnder(fetch, Done));
      var escalated := lastTriage.Some? && IsEscalated(repository.rows[lastTriage.value]);
      RefreshKeepsEscalation(before, fetch, snap);
      hide LastTriageEscalated, TriageActive, Refreshed;
      if processingImpl.Some? {
        return false;
      }
      if pendingImpl.Some? {
        Supersede(pendingImpl.value);
        CreateTriageExecute(fetch, snap);
        return true;
      }
      if doneImpl.Some? {
        if isReopen {
          var t := repository.rows[fetch];
          repository.rows := repository.rows[fetch := t.(context := t.context.(consumed := doneImpl))];
          CreateTriageExecute(fetch, snap);
          return true;
        }
        return false;
      }
      if escalated {
        CreateTriageExecute(fetch, snap);
        return true;
      }
      return false;
    }

    /** One comment on a pull request: mapped by its request, dropped when already a task. */
    method IngestPrFeedback(pullRequest: string, comment: string) returns (created: bool)
      modifies repository
      ensures repository.rows == Apply(old(repository.rows), CommentOnPr(pullRequest, comment))
      ensures created <==> |repository.rows| > |old(repository.rows)|
    {
      hide First;
      var execute := repository.FindFirst(ExecuteWithPr(pullRequest));
      if execute.None? {
        return false;
      }
      var e := execute.value;
      var existing := repository.FindFirst(ChildWithExternal(e, PrFeedback, comment));
      if existing.Some? {
        return false;
      }
      var row := repository.CreateTask(PrFeedbackTask(e, repository.rows[e], pullRequest, comment), None);
      return true;
    }

    /** One tracker comment under an execute; the system's own comments are dropped. */
    method IngestTrackerFeedback(execute: nat, comment: string, system: bool, ghost estimateOnly: bool)
      returns (created: bool)
      requires execute < |repository.rows| && CanComment(repository.rows, execute, estimateOnly)
      modifies repository
      ensures system ==> repository.rows == old(repository.rows)
      ensures !system ==> repository.rows == Apply(old(repository.rows), CommentOnTask(execute, comment, estimateOnly))
      ensures created <==> |repository.rows| > |old(repository.rows)|
    {
      hide First, CanComment;
      if system {
        return false;
      }
      var existing := repository.FindFirst(ChildWithExternal(execute, TrackerFeedback, comment));
      if existing.Some? {
        return false;
      }
      var row := repository.CreateTask(TrackerFeedbackTask(execute, repository.rows[execute], comment), None);
      return true;
    }
  }

  /** Refreshing a fetch does not change what the last finished triage said. */
  lemma RefreshKeepsEscalation(ts: Table, fetch: nat, snap: Snapshot)
    requires fetch < |ts| && ts[fetch].kind.Fetch?
    ensures var ts' := ts[fetch := Refreshed(ts[fetch], snap, false)];
            && Last(ts', TriageUnder(fetch, Done)) == Last(ts, TriageUnder(fetch, Done))
            && LastTriageEscalated(ts', fetch) == LastTriageEscalated(ts, fetch)
  {
    hide Last;
    ContextsDoNotMatter(ts, ts[fetch := Refreshed(ts[fetch], snap, false)], TriageUnder(fetch, Done));
  }
}
