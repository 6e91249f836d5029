/** Whole runs of the pipeline, under any interleaving of intake, workers and restarts. */
module ClusterRuns {
  import opened Text
  import opened TaskModel
  import opened ClusterSteps
  import opened ClusterInvariant
  import opened ClusterSafety

  lemma StepMoves(ts: Table, step: Step)
    requires Inv(ts) && Enabled(ts, step)
    ensures Moves(ts, Apply(ts, step), step)
  {
    hide Inv, Moves, First, Last, Decided, RoutesToImplementation, Ingest, Reply, Start, Comment, NonBlank, CanComment;
    match step
    case Poll(snap) => PollMoves(ts, snap);
    case CommentOnPr(pr, comment) =>
      var execute := First(ts, ExecuteWithPr(pr));
      if execute.Some? {
        CommentMoves(ts, execute.value, comment, PrFeedbackTask(execute.value, ts[execute.value], pr, comment), step);
      } else {
        InvParts(ts);
        SettledAlready(ts, step);
      }
    case CommentOnTask(e, comment, estimateOnly) =>
      ExecuteComments(ts, e, estimateOnly);
      CommentMoves(ts, e, comment, TrackerFeedbackTask(e, ts[e], comment), step);
    case CompleteTriage(id, sp, markdown) =>
      TriageOutcomeDecides(ts[id], sp, markdown);
      CompleteMoves(ts, id, TriageOutcome(sp, markdown), None, step);
    case CompleteExecute(id, agent, pr) =>
      OnlyTriagesMustDecide(Finished(ts[id], agent, pr));
      CompleteMoves(ts, id, agent, pr, step);
    case CompletePrFeedback(id, agent) => PrFeedbackMoves(ts, id, agent, step);
    case CompleteTrackerFeedback(id, agent, pr) => ReplyMoves(ts, id, agent, pr, step);
    case StartImplementation(id, agent) => StartMoves(ts, id, agent, step);
    case _ => InPlaceMoves(ts, step);
  }

  lemma ExecuteComments(ts: Table, execute: nat, estimateOnly: bool)
    requires execute < |ts| && CanComment(ts, execute, estimateOnly)
    ensures ts[execute].kind.Execute?
  {
  }

  lemma OnlyTriagesMustDecide(t: Task)
    requires !IsTriage(t) && t.result.Some?
    ensures Decided(t)
  {
  }

  /** Every step keeps the invariant, restarts included. */
  lemma StepKeepsInv(ts: Table, step: Step)
    requires Inv(ts) && Enabled(ts, step)
    ensures Inv(Apply(ts, step))
  {
    hide *;
    StepMoves(ts, step);
    MovesKeepInv(ts, Apply(ts, step), step);
  }

  // ---- Without restarts -----------------------------------------------------

  /** Only polls write contents and hashes, and only polls create triages. */
  predicate KeepsContents(ts: Table, ts': Table) {
    && |ts| <= |ts'|
    && (forall i :: 0 <= i < |ts| ==>
          ts'[i].context.content == ts[i].context.content && ts'[i].context.storedHash == ts[i].context.storedHash)
    && (forall i :: |ts| <= i < |ts'| ==> !IsTriage(ts'[i]) && !ts'[i].kind.Fetch?)
  }

  lemma EnsureKeepsContents(ts: Table, base: Table, id: nat)
    requires KeepsContents(ts, base) && |base| == |ts| && id < |ts|
    ensures KeepsContents(ts, EnsureDeliver(base, id))
  {
    hide First;
  }

  lemma ReplyKeepsContents(ts: Table, id: nat, agent: Outcome, pr: Option<string>)
    requires id < |ts| && ParentOf(ts, id).Some?
    ensures KeepsContents(ts, Reply(ts, id, agent, pr))
  {
    hide EnsureDeliver;
    var execute := ParentOf(ts, id).value;
    var done := ts[id := Finished(ts[id], agent, pr)];
    EnsureKeepsContents(ts, done[execute := Restamped(done[execute], id, pr)], id);
  }

  lemma StartKeepsContents(ts: Table, id: nat, agent: Outcome)
    requires id < |ts| && ParentOf(ts, id).Some?
    ensures KeepsContents(ts, Start(ts, id, agent))
  {
    hide Reply, ReadyTriageFor, First;
    if ReadyTriageFor(ts, id).None? {
      ReplyKeepsContents(ts, id, agent, None);
    }
  }

  lemma OnlyPollsWriteContents(ts: Table, step: Step)
    requires Enabled(ts, step) && !step.Poll?
    ensures KeepsContents(ts, Apply(ts, step))
  {
    hide First, Last, Ingest, NonBlank, CanComment, EnsureDeliver, Reply, Start;
    match step
    case CompleteTriage(id, sp, markdown) =>
      EnsureKeepsContents(ts, ts[id := Finished(ts[id], TriageOutcome(sp, markdown), None)], id);
    case CompleteExecute(id, agent, pr) => EnsureKeepsContents(ts, ts[id := Finished(ts[id], agent, pr)], id);
    case CompleteTrackerFeedback(id, agent, pr) => ReplyKeepsContents(ts, id, agent, pr);
    case StartImplementation(id, agent) => StartKeepsContents(ts, id, agent);
    case _ =>
  }

  lemma ContentsKeepQuiet(ts: Table, ts': Table, step: Step)
    requires Forest(ts) && Quiet(ts) && !step.Restart?
    requires Evolves(ts, ts', step) && KeepsContents(ts, ts')
    ensures Quiet(ts')
  {
    forall i | 0 <= i < |ts'| && IsTriage(ts'[i]) && ts'[i].status.New?
      ensures ts'[i].parent.Some? && ts'[i].parent.value < |ts'|
              && ts'[ts'[i].parent.value].context.storedHash == Some(ts'[i].context.content.digest)
    {
      assert IsTriage(ts[i]) && ts[i].status.New?;
      assert Placed(ts, i);
    }
  }

  lemma NonPollKeepsQuiet(ts: Table, step: Step)
    requires Inv(ts) && Quiet(ts) && Enabled(ts, step) && !step.Restart? && !step.Poll?
    ensures Quiet(Apply(ts, step))
  {
    hide Apply, Inv, Enabled, OldRows, FreshRows, Evolves, Quiet;
    StepMoves(ts, step);
    OnlyPollsWriteContents(ts, step);
    InvParts(ts);
    ContentsKeepQuiet(ts, Apply(ts, step), step);
  }

  /** Rows other than the fetch keep their contents, and none of them becomes active. */
  predicate Calm(ts: Table, base: Table, f: nat) {
    |base| == |ts| && forall i :: 0 <= i < |ts| ==>
      && SameIdentity(ts[i], base[i])
      && (base[i].status == ts[i].status || !Active(base[i]))
      && (i != f ==> base[i].context.content == ts[i].context.content
                     && base[i].context.storedHash == ts[i].context.storedHash)
  }

  /** With no triage active under a fetch, its hash may change, and one new triage may join with that hash. */
  lemma QuietAfterTriage(ts: Table, base: Table, f: nat, snap: Snapshot)
    requires Inv(ts) && Quiet(ts) && f < |ts| && Calm(ts, base, f)
    requires ts[f].kind.Fetch? && !TriageActive(ts, f)
    requires base[f].context.storedHash == Some(snap.content.digest)
    ensures Quiet(base + [TriageTask(f, ts[f].root, snap)])
    ensures Quiet(base)
  {
    hide Inv, TriageActive, OneActiveTriage, FreshTriage;
    InvParts(ts);
    NothingActive(ts, f);
    CalmOneActive(ts, base, f, snap);
    CalmFresh(ts, base, f, snap);
  }

  lemma CalmOneActive(ts: Table, base: Table, f: nat, snap: Snapshot)
    requires OneActiveTriage(ts) && f < |ts| && Calm(ts, base, f)
    requires forall i :: 0 <= i < |ts| && IsTriage(ts[i]) && ts[i].parent == Some(f) ==> !Active(ts[i])
    ensures OneActiveTriage(base + [TriageTask(f, ts[f].root, snap)]) && OneActiveTriage(base)
  {
  }

  lemma CalmFresh(ts: Table, base: Table, f: nat, snap: Snapshot)
    requires Forest(ts) && FreshTriage(ts) && f < |ts| && Calm(ts, base, f) && ts[f].kind.Fetch?
    requires forall i :: 0 <= i < |ts| && IsTriage(ts[i]) && ts[i].parent == Some(f) ==> !Active(ts[i])
    requires base[f].context.storedHash == Some(snap.content.digest)
    ensures FreshTriage(base + [TriageTask(f, ts[f].root, snap)]) && FreshTriage(base)
  {
    forall i | 0 <= i < |ts| && IsTriage(base[i]) && base[i].status.New?
      ensures base[i].parent.Some? && base[i].parent.value < |ts|
              && base[base[i].parent.value].context.storedHash == Some(base[i].context.content.digest)
    {
      assert Placed(ts, i);
    }
  }

  lemma NothingActive(ts: Table, f: nat)
    requires !TriageActive(ts, f)
    ensures forall i :: 0 <= i < |ts| && IsTriage(ts[i]) && ts[i].parent == Some(f) ==> !Active(ts[i])
  {
    forall i | 0 <= i < |ts| && IsTriage(ts[i]) && ts[i].parent == Some(f) ensures !Active(ts[i]) {
      assert !Matches(ts[i], TriageUnder(f, New)) && !Matches(ts[i], TriageUnder(f, Processing));
    }
  }

  lemma CollapseKeepsQuiet(ts: Table, f: nat, p: nat, snap: Snapshot)
    requires Inv(ts) && Quiet(ts) && f < |ts| && ts[f].kind.Fetch?
    requires First(ts, TriageUnder(f, New)) == Some(p)
    ensures var base := ts[f := Refreshed(ts[f], snap, false)];
            Quiet(base[p := base[p].(context := Context(snap.content, None, None, None))])
  {
    hide First, Inv;
    assert Forest(ts) by { InvParts(ts); }
    var base := ts[f := Refreshed(ts[f], snap, false)];
    var ts' := base[p := base[p].(context := Context(snap.content, None, None, None))];
    forall i | 0 <= i < |ts| && IsTriage(ts[i]) && ts'[i].status.New?
      ensures ts'[i].parent.Some? && ts'[i].parent.value < |ts|
              && ts'[ts'[i].parent.value].context.storedHash == Some(ts'[i].context.content.digest)
    {
      assert Placed(ts, i);
    }
  }

  lemma FirstSeenKeepsQuiet(ts: Table, snap: Snapshot)
    requires Inv(ts) && Quiet(ts)
    ensures Quiet(ts + [FetchTask(|ts|, snap), TriageTask(|ts|, |ts|, snap)])
  {
    hide Inv;
    assert Forest(ts) by { InvParts(ts); }
    var ts' := ts + [FetchTask(|ts|, snap), TriageTask(|ts|, |ts|, snap)];
    forall i | 0 <= i < |ts| && ts[i].kind.Execute? ensures ts[i].parent.Some? && ts[i].parent.value < i {
      assert Placed(ts, i);
    }
    assert ts'[|ts|].kind.Fetch?;
  }

  lemma PollKeepsQuiet(ts: Table, snap: Snapshot)
    requires Inv(ts) && Quiet(ts)
    ensures Quiet(Ingest(ts, snap))
  {
    hide First, Last, Inv, Decide, TriageActive, Quiet;
    var d := Decide(ts, snap);
    match d
    case FirstSeen => FirstSeenKeepsQuiet(ts, snap);
    case Skipped =>
    case Recovered(f) => NeverRecovered(ts, f);
    case ContextOnly(f, keepHash) =>
      if keepHash {
        RefreshKeepsQuiet(ts, f, snap);
      } else {
        QuietAfterTriage(ts, ts[f := Refreshed(ts[f], snap, false)], f, snap);
      }
    case Collapsed(f, p) => CollapseKeepsQuiet(ts, f, p, snap);
    case Superseded(f, i) =>
      var base := ts[f := Refreshed(ts[f], snap, false)];
      QuietAfterTriage(ts, base[i := base[i].(status := Failed, result := Some(SUPERSEDED))], f, snap);
    case Reopened(f, i) =>
      var fetch := Refreshed(ts[f], snap, false);
      QuietAfterTriage(ts, ts[f := fetch.(context := fetch.context.(consumed := Some(i)))], f, snap);
    case Retriaged(f) =>
      QuietAfterTriage(ts, ts[f := Refreshed(ts[f], snap, false)], f, snap);
  }

  /** The recovery path has nothing to recover in any reachable table. */
  lemma NeverRecovered(ts: Table, f: nat)
    requires Inv(ts) && f < |ts| && ts[f].kind.Fetch?
    ensures First(ts, ChildOf(f, Execute)).Some?
  {
    InvParts(ts);
    assert Matches(ts[f + 1], ChildOf(f, Execute));
  }

  lemma RefreshKeepsQuiet(ts: Table, f: nat, snap: Snapshot)
    requires Quiet(ts) && f < |ts| && ts[f].kind.Fetch?
    ensures Quiet(ts[f := Refreshed(ts[f], snap, true)])
  {
  }

  /** Without restarts a fetch has at most one waiting or running triage, and a waiting one holds the content on
      record. */
  lemma StepKeepsQuiet(ts: Table, step: Step)
    requires Inv(ts) && Quiet(ts) && Enabled(ts, step) && !step.Restart?
    ensures Quiet(Apply(ts, step))
  {
    if step.Poll? {
      PollKeepsQuiet(ts, step.snap);
    } else {
      NonPollKeepsQuiet(ts, step);
    }
  }

  /** A restart keeps the single active triage exactly when it does not revive a triage beside an active one. */
  lemma RestartKeepsOneActive(ts: Table, id: nat)
    requires Inv(ts) && OneActiveTriage(ts) && Enabled(ts, Restart(id))
    ensures OneActiveTriage(Apply(ts, Restart(id)))
            <==> !(IsTriage(ts[id]) && ts[id].parent.Some? && TriageActive(ts, ts[id].parent.value))
  {
    hide Inv;
    var ts' := Apply(ts, Restart(id));
    if IsTriage(ts[id]) {
      assert Placed(ts, id) by { InvParts(ts); }
      var f := ts[id].parent.value;
      if TriageActive(ts, f) {
        var waiting, running := First(ts, TriageUnder(f, New)), First(ts, TriageUnder(f, Processing));
        var other := if waiting.Some? then waiting.value else running.value;
        assert Active(ts'[other]) && Active(ts'[id]) && other != id;
        assert ts'[other].parent == ts'[id].parent;
      } else {
        NothingActive(ts, f);
      }
    }
  }

  // ---- Runs -----------------------------------------------------------------

  predicate Legal(ts: Table, steps: seq<Step>)
    decreases |steps|
  {
    steps == [] || (Enabled(ts, steps[0]) && Legal(Apply(ts, steps[0]), steps[1..]))
  }

  function After(ts: Table, steps: seq<Step>): Table
    requires Legal(ts, steps)
    decreases |steps|
  {
    if steps == [] then ts else After(Apply(ts, steps[0]), steps[1..])
  }

  predicate NoRestart(steps: seq<Step>) {
    forall k :: 0 <= k < |steps| ==> !steps[k].Restart?
  }

  lemma {:induction false} RunKeepsInv(ts: Table, steps: seq<Step>)
    requires Inv(ts) && Legal(ts, steps)
    ensures Inv(After(ts, steps))
    decreases |steps|
  {
    hide Inv, Enabled, Apply;
    if steps != [] {
      StepKeepsInv(ts, steps[0]);
      RunKeepsInv(Apply(ts, steps[0]), steps[1..]);
    }
  }

  lemma {:induction false} RunKeepsQuiet(ts: Table, steps: seq<Step>)
    requires Inv(ts) && Quiet(ts) && Legal(ts, steps) && NoRestart(steps)
    ensures Quiet(After(ts, steps))
    decreases |steps|
  {
    hide Inv, Quiet, Enabled, Apply;
    if steps != [] {
      StepKeepsInv(ts, steps[0]);
      StepKeepsQuiet(ts, steps[0]);
      RunKeepsQuiet(Apply(ts, steps[0]), steps[1..]);
    }
  }

  /** Every table reached from the empty one satisfies the invariant; without restarts it is quiet as well. */
  lemma Reachable(steps: seq<Step>)
    requires Legal([], steps)
    ensures Inv(After([], steps))
    ensures NoRestart(steps) ==> Quiet(After([], steps))
  {
    hide Legal, After;
    assert Inv([]) && Quiet([]);
    hide Inv, Quiet;
    RunKeepsInv([], steps);
    if NoRestart(steps) {
      RunKeepsQuiet([], steps);
    }
  }

  /** What no run ever takes back: rows, identities, finished tasks, readiness. */
  predicate Lasting(t: Task, t': Task) {
    && SameIdentity(t, t')
    && (t.status.Done? ==> t'.status.Done?)
    && KeepsReady(t, t')
  }

  lemma {:induction false} RunKeepsRows(ts: Table, steps: seq<Step>)
    requires Inv(ts) && Legal(ts, steps)
    ensures |ts| <= |After(ts, steps)|
    ensures forall i :: 0 <= i < |ts| ==> Lasting(ts[i], After(ts, steps)[i])
    decreases |steps|
  {
    hide Inv, Enabled, Apply, IsReady;
    if steps != [] {
      var next := Apply(ts, steps[0]);
      StepMoves(ts, steps[0]);
      StepKeepsInv(ts, steps[0]);
      RunKeepsRows(next, steps[1..]);
      forall i | 0 <= i < |ts| ensures Lasting(ts[i], After(ts, steps)[i]) {
        assert KeepsReady(ts[i], next[i]) && SameIdentity(ts[i], next[i]);
        assert Lasting(next[i], After(next, steps[1..])[i]);
      }
    }
  }
}
