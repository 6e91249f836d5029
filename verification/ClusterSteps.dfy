/** Every database transaction of the pipeline as one step over the task table. */
module ClusterSteps {
  import opened Text
  import opened TaskModel

  // ---- Rows -----------------------------------------------------------------

  function NewTask(kind: Kind, parent: nat, root: nat): Task {
    Task(kind, New, Some(parent), root, None, None, None, None, None, NO_CONTEXT, None)
  }

  function FetchTask(id: nat, snap: Snapshot): Task {
    Task(Fetch, Done, None, id, Some(snap.external), None, None, None, None,
         Context(snap.content, Some(snap.content.digest), None, None), None)
  }

  function TriageTask(fetch: nat, root: nat, snap: Snapshot): Task {
    NewTask(Execute, fetch, root).(externalParent := Some(snap.external), action := Some(Triage),
                                   context := Context(snap.content, None, None, None))
  }

  function DeliverTask(parent: nat, t: Task): Task {
    NewTask(Deliver, parent, t.root).(externalParent := t.externalParent, pr := t.pr)
  }

  function BriefOf(t: Task): Option<string> {
    if t.result.Some? && t.result.value.brief.Some? && NonBlank(t.result.value.brief.value)
    then t.result.value.brief else None
  }

  function ImplementationTask(parent: nat, triageId: nat, triage: Task): Task {
    NewTask(Execute, parent, triage.root).(
      externalParent := triage.externalParent, action := Some(Implementation),
      handoff := Some(Handoff(triageId, BriefOf(triage))), context := triage.context)
  }

  function PrFeedbackTask(execute: nat, t: Task, pr: string, comment: string): Task {
    NewTask(PrFeedback, execute, t.root).(external := Some(comment), externalParent := Some(pr), pr := Some(pr))
  }

  function TrackerFeedbackTask(execute: nat, t: Task, comment: string): Task {
    NewTask(TrackerFeedback, execute, t.root).(external := Some(comment), externalParent := t.externalParent)
  }

  // ---- Intake ---------------------------------------------------------------

  /** What polling a snapshot amounts to. */
  datatype Intake =
    | FirstSeen
    | Recovered(fetch: nat)
    | Skipped
    | ContextOnly(fetch: nat, keepHash: bool)
    | Collapsed(fetch: nat, pending: nat)
    | Superseded(fetch: nat, implementation: nat)
    | Reopened(fetch: nat, implementation: nat)
    | Retriaged(fetch: nat)

  predicate ContentChanged(ts: Table, fetch: nat, snap: Snapshot)
    requires fetch < |ts|
  {
    ts[fetch].context.storedHash != Some(snap.content.digest)
  }

  predicate ImplementationDelivered(ts: Table, implementation: nat) {
    var deliver := First(ts, ChildOf(implementation, Deliver));
    deliver.Some? && ts[deliver.value].status.Done?
  }

  predicate TriageActive(ts: Table, fetch: nat) {
    First(ts, TriageUnder(fetch, New)).Some? || First(ts, TriageUnder(fetch, Processing)).Some?
  }

  /** The tracker task went back to new after its implementation was delivered, and this was not acted on yet. */
  predicate IsReopen(ts: Table, fetch: nat, snap: Snapshot)
    requires fetch < |ts|
  {
    var root := ts[fetch].root;
    var done := Last(ts, ImplementationWith(root, Done));
    && snap.status.New?
    && done.Some? && ImplementationDelivered(ts, done.value)
    && First(ts, ImplementationWith(root, New)).None?
    && First(ts, ImplementationWith(root, Processing)).None?
    && !TriageActive(ts, fetch)
    && ts[fetch].context.consumed != done
  }

  predicate LastTriageEscalated(ts: Table, fetch: nat) {
    var last := Last(ts, TriageUnder(fetch, Done));
    last.Some? && IsEscalated(ts[last.value])
  }

  function Decide(ts: Table, snap: Snapshot): (d: Intake)
    ensures d.Recovered? || d.ContextOnly? || d.Collapsed? || d.Superseded? || d.Reopened? || d.Retriaged? ==>
              First(ts, FetchOf(snap.external)) == Some(d.fetch)
    ensures d.FirstSeen? <==> First(ts, FetchOf(snap.external)).None?
    ensures d.Collapsed? ==> First(ts, TriageUnder(d.fetch, New)) == Some(d.pending)
    ensures d.Superseded? ==> First(ts, ImplementationWith(ts[d.fetch].root, New)) == Some(d.implementation)
    ensures d.Reopened? ==> Last(ts, ImplementationWith(ts[d.fetch].root, Done)) == Some(d.implementation)
    ensures d.Superseded? || d.Reopened? || d.Retriaged? || d.Collapsed? ==>
              First(ts, TriageUnder(d.fetch, Processing)).None?
    ensures d.Superseded? || d.Reopened? || d.Retriaged? ==> !TriageActive(ts, d.fetch)
    ensures d.Recovered? ==> First(ts, ChildOf(d.fetch, Execute)).None?
    ensures d.ContextOnly? && !d.keepHash ==> !TriageActive(ts, d.fetch)
    ensures d.ContextOnly? && d.keepHash ==> First(ts, TriageUnder(d.fetch, Processing)).Some?
  {
    var found := First(ts, FetchOf(snap.external));
    if found.None? then FirstSeen
    else
      var fetch := found.value;
      var root := ts[fetch].root;
      if First(ts, ChildOf(fetch, Execute)).None? then Recovered(fetch)
      else
        var reopen := IsReopen(ts, fetch, snap);
        if !ContentChanged(ts, fetch, snap) && !reopen then Skipped
        else if First(ts, TriageUnder(fetch, Processing)).Some? then ContextOnly(fetch, true)
        else if First(ts, TriageUnder(fetch, New)).Some? then
          Collapsed(fetch, First(ts, TriageUnder(fetch, New)).value)
        else if First(ts, ImplementationWith(root, Processing)).Some? then ContextOnly(fetch, false)
        else if First(ts, ImplementationWith(root, New)).Some? then
          Superseded(fetch, First(ts, ImplementationWith(root, New)).value)
        else
          var done := Last(ts, ImplementationWith(root, Done));
          if done.Some? then
            if reopen then Reopened(fetch, done.value) else ContextOnly(fetch, false)
          else if LastTriageEscalated(ts, fetch) then Retriaged(fetch)
          else ContextOnly(fetch, false)
  }

  /** Refreshes the fetch's content; the metadata survives, and the hash follows unless a triage is running. */
  function Refreshed(t: Task, snap: Snapshot, keepHash: bool): Task {
    t.(context := t.context.(content := snap.content,
                             storedHash := if keepHash then t.context.storedHash else Some(snap.content.digest)))
  }

  const SUPERSEDED := NO_OUTCOME

  function Ingest(ts: Table, snap: Snapshot): Table {
    match Decide(ts, snap)
    case FirstSeen => ts + [FetchTask(|ts|, snap), TriageTask(|ts|, |ts|, snap)]
    case Recovered(f) => ts + [TriageTask(f, ts[f].root, snap)]
    case Skipped => ts
    case ContextOnly(f, keepHash) => ts[f := Refreshed(ts[f], snap, keepHash)]
    case Collapsed(f, p) =>
      var refreshed := ts[f := Refreshed(ts[f], snap, false)];
      refreshed[p := refreshed[p].(context := Context(snap.content, None, None, None))]
    case Superseded(f, i) =>
      var refreshed := ts[f := Refreshed(ts[f], snap, false)];
      refreshed[i := refreshed[i].(status := Failed, result := Some(SUPERSEDED))] + [TriageTask(f, ts[f].root, snap)]
    case Reopened(f, i) =>
      var fetch := Refreshed(ts[f], snap, false);
      ts[f := fetch.(context := fetch.context.(consumed := Some(i)))] + [TriageTask(f, ts[f].root, snap)]
    case Retriaged(f) => ts[f := Refreshed(ts[f], snap, false)] + [TriageTask(f, ts[f].root, snap)]
  }

  // ---- Workers --------------------------------------------------------------

  function EnsureDeliver(ts: Table, id: nat): Table
    requires id < |ts|
  {
    if First(ts, ChildOf(id, Deliver)).Some? then ts else ts + [DeliverTask(id, ts[id])]
  }

  function Finished(t: Task, outcome: Outcome, pr: Option<string>): Task {
    t.(status := Done, result := Some(outcome), pr := pr)
  }

  /** The execute's result after feedback: same brief, routing and delivery, stamped with the feedback task. */
  function Restamped(t: Task, feedback: nat, pr: Option<string>): Task {
    var outcome := if t.result.Some? then t.result.value else NO_OUTCOME;
    t.(result := Some(outcome.(updatedBy := Some(feedback))), pr := if pr.Some? then pr else t.pr)
  }

  function ParentOf(ts: Table, id: nat): Option<nat>
    requires id < |ts|
  {
    if ts[id].parent.Some? && ts[id].parent.value < |ts| then ts[id].parent else None
  }

  function PrOf(ts: Table, id: nat): Option<string>
    requires id < |ts|
  {
    if ts[id].pr.Some? then ts[id].pr
    else if ParentOf(ts, id).Some? then ts[ParentOf(ts, id).value].pr else None
  }

  function Reply(ts: Table, id: nat, agent: Outcome, pr: Option<string>): Table
    requires id < |ts| && ParentOf(ts, id).Some?
  {
    var execute := ParentOf(ts, id).value;
    var done := ts[id := Finished(ts[id], agent, pr)];
    EnsureDeliver(done[execute := Restamped(done[execute], id, pr)], id)
  }

  /** The latest finished triage beside the feedback's execute task, if an implementation may start from it. */
  function ReadyTriageFor(ts: Table, id: nat): (r: Option<nat>)
    requires id < |ts|
    ensures r.Some? ==> r.value < |ts| && IsReady(ts[r.value])
  {
    var execute := ParentOf(ts, id);
    if execute.None? || ParentOf(ts, execute.value).None? then None
    else
      var latest := Last(ts, TriageUnder(ParentOf(ts, execute.value).value, Done));
      if latest.Some? && IsReady(ts[latest.value]) then latest else None
  }

  function StartFrom(ts: Table, triage: nat): Table
    requires triage < |ts|
  {
    if First(ts, ImplementationIn(ts[triage].root)).Some? || ts[triage].parent.None? then ts
    else ts + [ImplementationTask(ts[triage].parent.value, triage, ts[triage])]
  }

  function Start(ts: Table, id: nat, agent: Outcome): Table
    requires id < |ts| && ParentOf(ts, id).Some?
  {
    var triage := ReadyTriageFor(ts, id);
    if triage.None? then Reply(ts, id, agent, None)
    else
      var started := StartFrom(ts, triage.value);
      started[id := Finished(started[id], agent, None)]
  }

  function Apart(t: Task, report: Option<Outcome>): Task {
    if report.Some? then t.(status := Failed, result := report, pr := None) else t.(status := Failed)
  }

  predicate CanComment(ts: Table, execute: nat, estimateOnly: bool)
    requires execute < |ts|
  {
    var t := ts[execute];
    && t.kind.Execute? && t.pr.None? && t.externalParent.Some?
    && if IsThreadTriage(t) then
         t.parent.Some? && Last(ts, TriageUnder(t.parent.value, Done)) == Some(execute)
       else estimateOnly
  }

  datatype Step =
    | Poll(snap: Snapshot)
    | CommentOnPr(pullRequest: string, comment: string)
    | CommentOnTask(execute: nat, comment: string, estimateOnly: bool)
    | SaveCursor(execute: nat, cursor: string)
    | Claim(id: nat)
    | CompleteTriage(id: nat, sp: StoryPoints, markdown: string)
    | CompleteExecute(id: nat, agent: Outcome, pr: Option<string>)
    | CompletePrFeedback(id: nat, agent: Outcome)
    | CompleteTrackerFeedback(id: nat, agent: Outcome, pr: Option<string>)
    | StartImplementation(id: nat, agent: Outcome)
    | FinishDeliver(id: nat, agent: Outcome)
    | Fail(id: nat, report: Option<Outcome>)
    | Restart(id: nat)

  predicate Running(ts: Table, id: nat, kind: Kind) {
    id < |ts| && ts[id].kind == kind && ts[id].status.Processing?
  }

  predicate Enabled(ts: Table, step: Step) {
    match step
    case Poll(_) => true
    case CommentOnPr(_, _) => true
    case CommentOnTask(e, _, estimateOnly) => e < |ts| && CanComment(ts, e, estimateOnly)
    case SaveCursor(e, _) => e < |ts| && ts[e].kind.Execute?
    case Claim(id) => id < |ts| && !ts[id].kind.Fetch? && ts[id].status.New?
    case CompleteTriage(id, _, markdown) => Running(ts, id, Execute) && IsTriage(ts[id]) && NonBlank(markdown)
    case CompleteExecute(id, _, _) => Running(ts, id, Execute) && !IsTriage(ts[id])
    case CompletePrFeedback(id, _) => Running(ts, id, PrFeedback) && PrOf(ts, id).Some? && ParentOf(ts, id).Some?
    case CompleteTrackerFeedback(id, _, _) => Running(ts, id, TrackerFeedback) && ParentOf(ts, id).Some?
    case StartImplementation(id, _) => Running(ts, id, TrackerFeedback) && ParentOf(ts, id).Some?
    case FinishDeliver(id, _) => Running(ts, id, Deliver)
    case Fail(id, _) => id < |ts| && !ts[id].kind.Fetch? && ts[id].status.Processing?
    case Restart(id) => id < |ts| && !ts[id].kind.Fetch? && ts[id].status.Failed?
  }

  function Comment(ts: Table, execute: nat, comment: string, row: Task): Table
    requires execute < |ts|
  {
    if First(ts, ChildWithExternal(execute, row.kind, comment)).Some? then ts else ts + [row]
  }

  function Apply(ts: Table, step: Step): Table
    requires Enabled(ts, step)
  {
    match step
    case Poll(snap) => Ingest(ts, snap)
    case CommentOnPr(pr, comment) =>
      var execute := First(ts, ExecuteWithPr(pr));
      if execute.None? then ts
      else Comment(ts, execute.value, comment, PrFeedbackTask(execute.value, ts[execute.value], pr, comment))
    case CommentOnTask(e, comment, _) => Comment(ts, e, comment, TrackerFeedbackTask(e, ts[e], comment))
    case SaveCursor(e, cursor) => ts[e := ts[e].(context := ts[e].context.(prCursor := Some(cursor)))]
    case Claim(id) => ts[id := ts[id].(status := Processing)]
    case CompleteTriage(id, sp, markdown) =>
      EnsureDeliver(ts[id := Finished(ts[id], TriageOutcome(sp, markdown), None)], id)
    case CompleteExecute(id, agent, pr) => EnsureDeliver(ts[id := Finished(ts[id], agent, pr)], id)
    case CompletePrFeedback(id, agent) =>
      var pr, execute := PrOf(ts, id), ParentOf(ts, id).value;
      var done := ts[id := Finished(ts[id], agent, pr)];
      done[execute := Restamped(done[execute], id, pr)]
    case CompleteTrackerFeedback(id, agent, pr) => Reply(ts, id, agent, pr)
    case StartImplementation(id, agent) => Start(ts, id, agent)
    case FinishDeliver(id, agent) => ts[id := ts[id].(status := Done, result := Some(agent))]
    case Fail(id, report) => ts[id := Apart(ts[id], report)]
    case Restart(id) => ts[id := ts[id].(status := New, result := None)]
  }
}
