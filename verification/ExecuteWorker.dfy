/** The execute worker: claiming a task, and what it makes of the agent's run. */
module ExecuteWork {
  import opened Text
  import opened TaskModel
  import opened ClusterSteps
  import opened ClusterInvariant
  import opened ClusterSafety
  import opened ClusterRuns
  import opened Lineage
  import opened Repository

  /** What the agent left behind; a crash is any exception on the way. */
  datatype AgentRun =
    | Crashed
    | ReportedFailure(report: Outcome)
    | Malformed(report: Outcome)
    | Decision(sp: StoryPoints, markdown: string)
    | Work(agent: Outcome, pr: Option<string>, startImplementation: bool)

  /** Triage tasks go to the triage agent, all others to the coding agent. */
  predicate Fits(t: Task, run: AgentRun) {
    match run
    case Crashed => true
    case ReportedFailure(_) => !IsTriage(t)
    case Malformed(_) => IsTriage(t)
    case Decision(_, markdown) => IsTriage(t) && NonBlank(markdown)
    case Work(_, _, _) => !IsTriage(t)
  }

  predicate IsWork(kind: Kind) {
    kind.Execute? || kind.PrFeedback? || kind.TrackerFeedback?
  }

  function StepFor(ts: Table, id: nat, run: AgentRun): Step
    requires id < |ts|
  {
    match run
    case Crashed => Fail(id, None)
    case ReportedFailure(report) => Fail(id, Some(report))
    case Malformed(report) => Fail(id, Some(report))
    case Decision(sp, markdown) => CompleteTriage(id, sp, markdown)
    case Work(agent, pr, startImplementation) =>
      match ts[id].kind
      case Execute => CompleteExecute(id, agent, pr)
      case PrFeedback => if PrOf(ts, id).None? then Fail(id, None) else CompletePrFeedback(id, agent)
      case _ => if startImplementation then StartImplementation(id, agent) else CompleteTrackerFeedback(id, agent, pr)
  }

  /** Whatever the agent did, the worker has a step to take: no claimed task is left running. */
  lemma StepForIsEnabled(ts: Table, id: nat, run: AgentRun)
    requires Inv(ts) && id < |ts| && ts[id].status.Processing? && IsWork(ts[id].kind) && Fits(ts[id], run)
    ensures Enabled(ts, StepFor(ts, id, run))
    ensures id < |Apply(ts, StepFor(ts, id, run))| && !Active(Apply(ts, StepFor(ts, id, run))[id])
  {
    hide Inv, First, Last, NonBlank;
    if IsFeedback(ts[id]) {
      FeedbackParent(ts, id);
    }
  }

  /** The execute that the context names for a feedback task is the task it hangs under. */
  lemma FeedbackFlow(ts: Table, id: nat)
    requires Inv(ts) && id < |ts| && IsFeedback(ts[id])
    ensures ParentOf(ts, id).Some? && ts[ParentOf(ts, id).value].kind.Execute?
    ensures Upward(ChainOf(ts, ts[id].root))
    ensures BuildFlow(ChainOf(ts, ts[id].root), id).Ok?
    ensures BuildFlow(ChainOf(ts, ts[id].root), id).value.execute == ParentOf(ts, id).value
  {
    hide Inv, Shape, BuildFlow, ChainOf;
    FeedbackParent(ts, id);
    FlowIsBuilt(ts, id);
    assert Forest(ts) by { InvForest(ts); }
    var execute := ParentOf(ts, id).value;
    LongEnough(ts, execute);
    AncestryShape(ts, execute);
    assert Ancestry(ts, id) == Ancestry(ts, execute) + [id];
  }

  class ExecuteWorker {
    const repository: TaskRepository

    constructor (repository: TaskRepository)
      ensures this.repository == repository
    {
      this.repository := repository;
    }

    method MarkTaskDone(id: nat, outcome: Outcome, pr: Option<string>)
      requires id < |repository.rows|
      modifies repository
      ensures repository.rows == old(repository.rows)[id := Finished(old(repository.rows)[id], outcome, pr)]
    {
      var t := repository.rows[id].(status := Done);
      t := t.(result := Some(outcome));
      repository.rows := repository.rows[id := t.(pr := pr)];
    }

    method MarkTaskFailed(id: nat, report: Option<Outcome>)
      requires id < |repository.rows|
      modifies repository
      ensures repository.rows == old(repository.rows)[id :=
                old(repository.rows)[id].(status := Failed, result := report, pr := None)]
    {
      var t := repository.rows[id].(status := Failed);
      t := t.(result := report);
      repository.rows := repository.rows[id := t.(pr := None)];
    }

    /** Any exception on the way: the status alone is written. */
    method FailWithoutReport(id: nat)
      requires id < |repository.rows|
      modifies repository
      ensures repository.rows == old(repository.rows)[id := old(repository.rows)[id].(status := Failed)]
    {
      repository.rows := repository.rows[id := repository.rows[id].(status := Failed)];
    }

    method EnsureDeliverTask(id: nat)
      requires id < |repository.rows|
      modifies repository
      ensures repository.rows == EnsureDeliver(old(repository.rows), id)
    {
      hide First;
      var existing := repository.FindFirst(ChildOf(id, Deliver));
      if existing.Some? {
        return;
      }
      var created := repository.CreateTask(DeliverTask(id, repository.rows[id]), None);
    }

    /** The execute ancestor that the task context names. */
    method ExecuteOf(id: nat) returns (execute: nat)
      requires Inv(repository.rows) && id < |repository.rows| && IsFeedback(repository.rows[id])
      ensures ParentOf(repository.rows, id) == Some(execute) && repository.rows[execute].kind.Execute?
    {
      hide Inv;
      FeedbackFlow(repository.rows, id);
      var chain := repository.LoadTaskChain(repository.rows[id].root);
      var flow := BuildFlow(chain, id);
      execute := flow.value.execute;
    }

    /** Stamps the execute's result with the feedback that changed it, keeping everything else it says. */
    method StampExecute(execute: nat, feedback: nat, pr: Option<string>)
      requires execute < |repository.rows|
      modifies repository
      ensures repository.rows
              == old(repository.rows)[execute := Restamped(old(repository.rows)[execute], feedback, pr)]
    {
      var t := repository.rows[execute];
      var outcome := NO_OUTCOME;
      if t.result.Some? {
        outcome := t.result.value;
      }
      t := t.(result := Some(outcome.(updatedBy := Some(feedback))));
      if pr.Some? {
        t := t.(pr := pr);
      }
      repository.rows := repository.rows[execute := t];
    }

    method CompleteFeedback(id: nat, agent: Outcome, pr: Option<string>, deliver: bool)
      requires Inv(repository.rows) && id < |repository.rows| && IsFeedback(repository.rows[id])
      modifies repository
      ensures ParentOf(old(repository.rows), id).Some?
      ensures deliver ==> repository.rows == Reply(old(repository.rows), id, agent, pr)
      ensures !deliver ==>
                var execute := ParentOf(old(repository.rows), id).value;
                var done := old(repository.rows)[id := Finished(old(repository.rows)[id], agent, pr)];
                repository.rows == done[execute := Restamped(done[execute], id, pr)]
    {
      hide Inv, EnsureDeliver;
      var execute := ExecuteOf(id);
      MarkTaskDone(id, agent, pr);
      StampExecute(execute, id, pr);
      if deliver {
        EnsureDeliverTask(id);
      }
    }

    /** Creates the one implementation of a cluster from a ready triage, unless it exists. */
    method CreateImplementationFollowup(triage: nat) returns (created: bool)
      requires triage < |repository.rows|
      requires repository.rows[triage].parent.Some? ==>
                 repository.rows[triage].parent.value < |repository.rows|
                 && repository.rows[repository.rows[triage].parent.value].root == repository.rows[triage].root
      modifies repository
      ensures repository.rows == StartFrom(old(repository.rows), triage)
      ensures created <==> |repository.rows| > |old(repository.rows)|
    {
      hide First;
      var t := repository.rows[triage];
      var existing := repository.FindFirst(ImplementationIn(t.root));
      if existing.Some? {
        return false;
      }
      if t.parent.None? {
        return false;
      }
      var row := repository.CreateTask(ImplementationTask(t.parent.value, triage, t), None);
      return true;
    }

    method ResolveLatestReadyTriage(id: nat) returns (r: Option<nat>)
      requires Inv(repository.rows) && id < |repository.rows| && IsFeedback(repository.rows[id])
      ensures r == ReadyTriageFor(repository.rows, id)
    {
      hide Inv, Last, IsReady;
      var execute := ExecuteOf(id);
      FetchAbove(repository.rows, execute);
      var latest := repository.FindLast(TriageUnder(repository.rows[execute].parent.value, Done));
      if latest.Some? && IsReady(repository.rows[latest.value]) {
        return latest;
      }
      return None;
    }

    method StartImplementationFromFeedback(id: nat, agent: Outcome)
      requires Inv(repository.rows) && id < |repository.rows| && IsFeedback(repository.rows[id])
      modifies repository
      ensures ParentOf(old(repository.rows), id).Some?
      ensures repository.rows == Start(old(repository.rows), id, agent)
    {
      hide Inv, ReadyTriageFor, IsReady, Reply;
      FeedbackParent(repository.rows, id);
      var triage := ResolveLatestReadyTriage(id);
      if triage.None? {
        CompleteFeedback(id, agent, None, true);
        return;
      }
      ReadyIsExecute(repository.rows[triage.value]);
      FetchAbove(repository.rows, triage.value);
      var created := CreateImplementationFollowup(triage.value);
      MarkTaskDone(id, agent, None);
    }

    /** The worker's second transaction: the claimed task ends exactly as the protocol's step says. */
    method Settle(id: nat, run: AgentRun)
      requires Inv(repository.rows) && id < |repository.rows|
      requires repository.rows[id].status.Processing? && IsWork(repository.rows[id].kind)
      requires Fits(repository.rows[id], run)
      modifies repository
      ensures Enabled(old(repository.rows), StepFor(old(repository.rows), id, run))
      ensures repository.rows == Apply(old(repository.rows), StepFor(old(repository.rows), id, run))
    {
      hide Inv, First, Last, NonBlank, Reply, Start, EnsureDeliver;
      StepForIsEnabled(repository.rows, id, run);
      var kind := repository.rows[id].kind;
      match run {
        case Crashed => FailWithoutReport(id);
        case ReportedFailure(report) => MarkTaskFailed(id, Some(report));
        case Malformed(report) => MarkTaskFailed(id, Some(report));
        case Decision(sp, markdown) =>
          MarkTaskDone(id, TriageOutcome(sp, markdown), None);
          EnsureDeliverTask(id);
        case Work(agent, pr, startImplementation) =>
          if kind == Execute {
            MarkTaskDone(id, agent, pr);
            EnsureDeliverTask(id);
          } else if kind == PrFeedback {
            var reviewed := PrOf(repository.rows, id);
            if reviewed.None? {
              FailWithoutReport(id);
            } else {
              CompleteFeedback(id, agent, reviewed, false);
            }
          } else if startImplementation {
            StartImplementationFromFeedback(id, agent);
          } else {
            CompleteFeedback(id, agent, pr, true);
          }
      }
    }

    /** One pass of the worker over one kind of task with nothing in between: two steps of the protocol. What the run
        amounts to depends on the task that was claimed. */
    method ProcessNextTask(kind: Kind, updatedAt: nat -> int, run: nat -> AgentRun) returns (claimed: Option<nat>)
      requires Inv(repository.rows) && IsWork(kind)
      requires forall i :: 0 <= i < |repository.rows| && Matches(repository.rows[i], Waiting(kind)) ==>
                 Fits(repository.rows[i], run(i))
      modifies repository
      ensures Inv(repository.rows)
      ensures claimed.None? ==> repository.rows == old(repository.rows)
      ensures claimed.Some? ==>
                var id := claimed.value;
                && IsNext(old(repository.rows), kind, updatedAt, |old(repository.rows)|, id)
                && Enabled(old(repository.rows), Claim(id))
                && var running := Apply(old(repository.rows), Claim(id));
                && Enabled(running, StepFor(running, id, run(id)))
                && repository.rows == Apply(running, StepFor(running, id, run(id)))
    {
      hide Inv, Apply, StepFor, Enabled, Matches;
      claimed := repository.PollTask(kind, updatedAt);
      if claimed.Some? {
        StepKeepsInv(old(repository.rows), Claim(claimed.value));
        ClaimedRuns(old(repository.rows), claimed.value, kind);
        var running := repository.rows;
        Settle(claimed.value, run(claimed.value));
        StepKeepsInv(running, StepFor(running, claimed.value, run(claimed.value)));
      }
    }
  }

  /** The steps that end a running task. */
  predicate Settles(step: Step, id: nat) {
    match step
    case CompleteTriage(i, _, _) => i == id
    case CompleteExecute(i, _, _) => i == id
    case CompletePrFeedback(i, _) => i == id
    case CompleteTrackerFeedback(i, _, _) => i == id
    case StartImplementation(i, _) => i == id
    case FinishDeliver(i, _) => i == id
    case Fail(i, _) => i == id
    case _ => false
  }

  lemma StepKeepsClaim(ts: Table, step: Step, id: nat)
    requires Inv(ts) && Enabled(ts, step) && !Settles(step, id) && id < |ts| && ts[id].status.Processing?
    ensures id < |Apply(ts, step)| && Apply(ts, step)[id].status.Processing?
  {
    hide Inv, First, Last, NonBlank, CanComment, ReadyTriageFor;
    if step.Poll? {
      hide Decide;
      PollKeepsRunning(ts, step.snap, id);
    }
  }

  lemma PollKeepsRunning(ts: Table, snap: Snapshot, id: nat)
    requires id < |ts| && ts[id].status.Processing?
    ensures id < |Ingest(ts, snap)| && Ingest(ts, snap)[id].status.Processing?
  {
    hide First, Last, Decide;
  }

  /** A claimed task stays claimed, and the same kind of task, whatever the other workers, the intake and the operators
      do until its own worker settles it; so the settlement finds it as it was left. */
  lemma {:induction false} ClaimLasts(ts: Table, steps: seq<Step>, id: nat, run: AgentRun)
    requires Inv(ts) && Legal(ts, steps) && forall k :: 0 <= k < |steps| ==> !Settles(steps[k], id)
    requires id < |ts| && ts[id].status.Processing? && IsWork(ts[id].kind) && Fits(ts[id], run)
    ensures var ts' := After(ts, steps);
            && Inv(ts') && id < |ts'| && ts'[id].status.Processing? && ts'[id].kind == ts[id].kind
            && Fits(ts'[id], run) && Enabled(ts', StepFor(ts', id, run))
    decreases |steps|
  {
    hide Inv, Enabled, Apply, StepFor, NonBlank;
    if steps == [] {
      StepForIsEnabled(ts, id, run);
    } else {
      StepMoves(ts, steps[0]);
      StepKeepsInv(ts, steps[0]);
      StepKeepsClaim(ts, steps[0], id);
      ClaimLasts(Apply(ts, steps[0]), steps[1..], id, run);
    }
  }

  lemma ClaimedRuns(ts: Table, id: nat, kind: Kind)
    requires id < |ts| && Matches(ts[id], Waiting(kind)) && Enabled(ts, Claim(id))
    ensures id < |Apply(ts, Claim(id))| && ts[id].kind == kind
    ensures Apply(ts, Claim(id))[id] == ts[id].(status := Processing)
  {
  }

  lemma ReadyIsExecute(t: Task)
    requires IsReady(t)
    ensures t.kind.Execute?
  {
  }

  lemma FetchAbove(ts: Table, execute: nat)
    requires Inv(ts) && execute < |ts| && ts[execute].kind.Execute?
    ensures ts[execute].parent.Some? && ts[execute].parent.value < execute
    ensures ParentOf(ts, execute) == ts[execute].parent
    ensures ts[ts[execute].parent.value].root == ts[execute].root
  {
    assert Forest(ts) by { InvForest(ts); }
    assert Placed(ts, execute);
  }
}
