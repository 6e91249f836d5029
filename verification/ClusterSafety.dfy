/** Each kind of step has the shape that keeps the invariant; so whole runs keep it. */
module ClusterSafety {
  import opened Text
  import opened TaskModel
  import opened ClusterSteps
  import opened ClusterInvariant

  lemma InPlaceMoves(ts: Table, step: Step)
    requires Inv(ts) && Enabled(ts, step)
    requires step.SaveCursor? || step.Claim? || step.FinishDeliver? || step.Fail? || step.Restart?
    ensures Moves(ts, Apply(ts, step), step)
  {
    hide First, Last, Inv, NonBlank, Ingest, Reply, Start, EnsureDeliver;
    assert Forest(ts) && AllDecided(ts) by { InvParts(ts); }
  }

  /** The invariant, unpacked where only its parts are wanted. */
  lemma InvParts(ts: Table)
    requires Inv(ts)
    ensures Forest(ts) && OneFetch(ts) && FirstTriage(ts) && AllDecided(ts)
    ensures OneImplementation(ts) && AllHandedOff(ts)
    ensures DeliversAfterDone(ts) && OneDeliver(ts) && DoneIsDelivered(ts)
    ensures Consumed(ts) && OneFeedback(ts)
  {
  }

  /** A row change that no readiness, result or delivery depends on. */
  predicate Light(ts: Table, t: Task, t': Task, step: Step) {
    t' == t || (
      && SameIdentity(t, t') && StatusMove(t.status, t'.status, step) && KeepsConsumed(ts, t, t')
      && (t.kind.Execute? ==> !t.status.Done? && !t'.status.Done?)
      && (!t.kind.Fetch? && t'.status.Done? ==> t'.result.Some?))
  }

  lemma LightKeeps(ts: Table, t: Task, t': Task, step: Step)
    requires Light(ts, t, t', step) && Decided(t)
    ensures KeepsReady(t, t') && Decided(t') && KeepsConsumed(ts, t, t')
    ensures t.kind.Execute? && t'.status.Done? ==> t.status.Done?
    ensures SameIdentity(t, t') && StatusMove(t.status, t'.status, step)
  {
    hide RoutesToImplementation;
  }

  predicate AllLight(ts: Table, base: Table, step: Step) {
    |base| == |ts| && forall i :: 0 <= i < |ts| ==> Light(ts, ts[i], base[i], step)
  }

  lemma LightMoves(ts: Table, base: Table, rows: Table, step: Step)
    requires AllDecided(ts) && AllLight(ts, base, step) && FreshRows(ts, base + rows)
    ensures Moves(ts, base + rows, step)
  {
    hide FreshRows, Light, Decided, KeepsReady, KeepsConsumed, SameIdentity, StatusMove, HasDeliver;
    var ts' := base + rows;
    forall i | 0 <= i < |ts|
      ensures SameIdentity(ts[i], ts'[i]) && StatusMove(ts[i].status, ts'[i].status, step)
      ensures KeepsReady(ts[i], ts'[i]) && KeepsConsumed(ts, ts[i], ts'[i]) && Decided(ts'[i])
      ensures ts[i].kind.Execute? && ts'[i].status.Done? ==> ts[i].status.Done?
    {
      LightKeeps(ts, ts[i], base[i], step);
    }
  }

  lemma AppendMoves(ts: Table, base: Table, row: Task, step: Step)
    requires AllDecided(ts) && AllLight(ts, base, step) && FreshRow(ts, base + [row], |ts|)
    ensures Moves(ts, base + [row], step)
  {
    hide FreshRow, Light, Moves, Decided;
    LightMoves(ts, base, [row], step);
  }

  lemma SettleMoves(ts: Table, base: Table, step: Step)
    requires AllDecided(ts) && AllLight(ts, base, step)
    ensures Moves(ts, base, step)
  {
    hide FreshRow, Light, Moves, Decided;
    LightMoves(ts, base, [], step);
    assert base + [] == base;
  }

  lemma CommentMoves(ts: Table, execute: nat, comment: string, row: Task, step: Step)
    requires Inv(ts) && execute < |ts| && ts[execute].kind.Execute?
    requires IsFeedback(row) && row.status.New? && row.action.None?
    requires row.parent == Some(execute) && row.root == ts[execute].root && row.external == Some(comment)
    requires row.kind.TrackerFeedback? ==> row.externalParent == ts[execute].externalParent
    ensures Moves(ts, Comment(ts, execute, comment, row), step)
  {
    hide First, Inv, Decided, IsReady, HandedOff;
    InvParts(ts);
    if First(ts, ChildWithExternal(execute, row.kind, comment)).None? {
      assert FreshRow(ts, ts + [row], |ts|);
      AppendMoves(ts, ts, row, step);
    } else {
      SettleMoves(ts, ts, step);
    }
  }

  lemma OnlyExecutesDecide(t: Task)
    requires !t.kind.Execute? && (t.status.Done? ==> t.result.Some?)
    ensures Decided(t)
  {
  }

  /** After a completion there is a delivery, and one was added only where there was none. */
  lemma DeliverEnsured(ts: Table, id: nat)
    requires id < |ts|
    ensures var ts' := EnsureDeliver(ts, id);
            && HasDeliver(ts', id)
            && (ts' == ts || (ts' == ts + [DeliverTask(id, ts[id])]
                              && forall j :: 0 <= j < |ts| && ts[j].kind.Deliver? ==> ts[j].parent != Some(id)))
  {
    var found := First(ts, ChildOf(id, Deliver));
    if found.None? {
      var ts' := ts + [DeliverTask(id, ts[id])];
      assert ts'[|ts|].kind.Deliver? && ts'[|ts|].parent == Some(id);
    } else {
      assert ts[found.value].kind.Deliver? && ts[found.value].parent == Some(id);
    }
  }

  /** A finished task's row change, with the promises every other row keeps. */
  predicate Finishes(ts: Table, done: Table, id: nat)
    requires id < |ts|
  {
    && |done| == |ts| && done[id].status.Done?
    && forall i :: 0 <= i < |ts| ==>
         && SameIdentity(ts[i], done[i]) && KeepsReady(ts[i], done[i]) && Decided(done[i])
         && done[i].context == ts[i].context && (i != id ==> done[i].status == ts[i].status)
  }

  lemma DeliverRow(ts: Table, done: Table, id: nat)
    requires Inv(ts) && id < |ts| && Finishes(ts, done, id)
    requires ts[id].kind.Execute? || ts[id].kind.TrackerFeedback?
    requires forall j :: 0 <= j < |done| && done[j].kind.Deliver? ==> done[j].parent != Some(id)
    ensures FreshRow(ts, done + [DeliverTask(id, done[id])], |ts|)
  {
    hide Inv, IsReady, Decided, KeepsReady;
    InvParts(ts);
    assert Placed(ts, id);
  }

  /** Finishing a running task and ensuring its delivery. */
  lemma FinishMoves(ts: Table, done: Table, id: nat, step: Step)
    requires Inv(ts) && id < |ts| && ts[id].status.Processing? && Finishes(ts, done, id)
    requires ts[id].kind.Execute? || ts[id].kind.TrackerFeedback?
    ensures Moves(ts, EnsureDeliver(done, id), step)
  {
    hide First, Inv, EnsureDeliver, IsReady, Decided, FreshRow, KeepsReady;
    DeliverEnsured(done, id);
    var ts' := EnsureDeliver(done, id);
    assert OldRows(ts, ts', step);
    if ts' != done {
      DeliverRow(ts, done, id);
    }
  }

  lemma TriageOutcomeDecides(t: Task, sp: StoryPoints, markdown: string)
    requires IsTriage(t) && NonBlank(markdown)
    ensures Decided(Finished(t, TriageOutcome(sp, markdown), None))
  {
    assert !IsSpace(BriefSaved(sp)[0]);
  }

  lemma CompleteMoves(ts: Table, id: nat, outcome: Outcome, pr: Option<string>, step: Step)
    requires Inv(ts) && Running(ts, id, Execute) && Decided(Finished(ts[id], outcome, pr))
    ensures Moves(ts, EnsureDeliver(ts[id := Finished(ts[id], outcome, pr)], id), step)
  {
    hide First, Inv, NonBlank, Decided, RoutesToImplementation, EnsureDeliver;
    InvParts(ts);
    FinishMoves(ts, ts[id := Finished(ts[id], outcome, pr)], id, step);
  }

  /** Feedback stamps the execute's result and touches nothing a decision was based on. */
  lemma RestampKeeps(t: Task, feedback: nat, pr: Option<string>)
    requires t.kind.Execute? && Decided(t)
    ensures var t' := Restamped(t, feedback, pr);
            SameIdentity(t, t') && KeepsReady(t, t') && Decided(t') && t'.status == t.status && t'.context == t.context
  {
    hide NonBlank;
  }

  lemma FeedbackParent(ts: Table, id: nat)
    requires Inv(ts) && id < |ts| && IsFeedback(ts[id])
    ensures ParentOf(ts, id).Some? && ParentOf(ts, id).value < id && ts[ParentOf(ts, id).value].kind.Execute?
    ensures Decided(ts[ParentOf(ts, id).value])
  {
    hide Decided, Inv;
    InvParts(ts);
    assert Placed(ts, id);
  }

  lemma ReplyMoves(ts: Table, id: nat, agent: Outcome, pr: Option<string>, step: Step)
    requires Inv(ts) && Running(ts, id, TrackerFeedback) && ParentOf(ts, id).Some?
    ensures Moves(ts, Reply(ts, id, agent, pr), step)
  {
    hide First, Inv, NonBlank, Decided, RoutesToImplementation, EnsureDeliver, Restamped;
    InvParts(ts);
    FeedbackParent(ts, id);
    var execute := ParentOf(ts, id).value;
    RestampKeeps(ts[execute], id, pr);
    var done := ts[id := Finished(ts[id], agent, pr)];
    OnlyExecutesDecide(done[id]);
    FinishMoves(ts, done[execute := Restamped(done[execute], id, pr)], id, step);
  }

  lemma PrFeedbackMoves(ts: Table, id: nat, agent: Outcome, step: Step)
    requires Inv(ts) && step == CompletePrFeedback(id, agent) && Enabled(ts, step)
    ensures Moves(ts, Apply(ts, step), step)
  {
    hide First, Inv, NonBlank, Decided, RoutesToImplementation, Restamped;
    InvParts(ts);
    FeedbackParent(ts, id);
    RestampKeeps(ts[ParentOf(ts, id).value], id, PrOf(ts, id));
    OnlyExecutesDecide(Finished(ts[id], agent, PrOf(ts, id)));
  }

  lemma SettledLight(ts: Table, id: nat, agent: Outcome, step: Step)
    requires Running(ts, id, TrackerFeedback)
    ensures AllLight(ts, ts[id := Finished(ts[id], agent, None)], step)
  {
  }

  lemma SpawnMoves(ts: Table, id: nat, agent: Outcome, triage: nat, step: Step)
    requires Inv(ts) && Running(ts, id, TrackerFeedback)
    requires triage < |ts| && IsReady(ts[triage]) && StartFrom(ts, triage) != ts
    ensures Moves(ts, StartFrom(ts, triage)[id := Finished(ts[id], agent, None)], step)
  {
    hide First, Inv, AllDecided, StartFrom, IsReady, FreshRow, Moves, AllLight, Forest;
    StartRow(ts, triage);
    var settled := Finished(ts[id], agent, None);
    var row := ImplementationTask(ts[triage].parent.value, triage, ts[triage]);
    assert (ts + [row])[id := settled] == ts[id := settled] + [row];
    SettledLight(ts, id, agent, step);
    assert AllDecided(ts) && Forest(ts) by { InvParts(ts); }
    FreshStays(ts, row, id, settled);
    AppendMoves(ts, ts[id := settled], row, step);
  }

  lemma StartMoves(ts: Table, id: nat, agent: Outcome, step: Step)
    requires Inv(ts) && Running(ts, id, TrackerFeedback) && ParentOf(ts, id).Some?
    ensures Moves(ts, Start(ts, id, agent), step)
  {
    hide First, Last, Inv, AllDecided, Reply, ReadyTriageFor, StartFrom, IsReady, FreshRow, Moves, AllLight;
    var triage := ReadyTriageFor(ts, id);
    if triage.None? {
      ReplyMoves(ts, id, agent, None, step);
    } else if StartFrom(ts, triage.value) == ts {
      assert AllDecided(ts) by { InvParts(ts); }
      SettledLight(ts, id, agent, step);
      SettleMoves(ts, ts[id := Finished(ts[id], agent, None)], step);
    } else {
      assert StartFrom(ts, triage.value)[id] == ts[id] by { StartRow(ts, triage.value); }
      SpawnMoves(ts, id, agent, triage.value, step);
    }
  }

  /** An implementation row created from a ready triage is well placed, handed off, and the first of its root. */
  lemma StartRow(ts: Table, triage: nat)
    requires Inv(ts) && triage < |ts| && IsReady(ts[triage])
    ensures ts[triage].parent.Some?
    ensures var row := ImplementationTask(ts[triage].parent.value, triage, ts[triage]);
            StartFrom(ts, triage) != ts ==> StartFrom(ts, triage) == ts + [row] && FreshRow(ts, ts + [row], |ts|)
  {
    hide First, Inv, RoutesToImplementation;
    InvParts(ts);
    assert Placed(ts, triage);
    BriefHandedOver(ts[triage]);
  }

  lemma FreshStays(ts: Table, row: Task, id: nat, settled: Task)
    requires Forest(ts) && id < |ts| && ts[id].kind.TrackerFeedback? && SameIdentity(ts[id], settled)
    requires IsImplementation(row) && FreshRow(ts, ts + [row], |ts|)
    ensures FreshRow(ts, ts[id := settled] + [row], |ts|)
  {
    hide RoutesToImplementation;
  }

  lemma BriefHandedOver(t: Task)
    requires IsReady(t)
    ensures BriefOf(t) == t.result.value.brief
  {
  }

  // ---- Polling --------------------------------------------------------------

  lemma RefreshLight(ts: Table, fetch: nat, snap: Snapshot, keepHash: bool, step: Step)
    requires fetch < |ts| && ts[fetch].kind.Fetch?
    ensures AllLight(ts, ts[fetch := Refreshed(ts[fetch], snap, keepHash)], step)
    ensures SameIdentity(ts[fetch], Refreshed(ts[fetch], snap, keepHash))
  {
  }

  /** Rewriting a waiting execute's context or failing it is light too, on top of a refreshed fetch. */
  lemma WaitingLight(ts: Table, base: Table, id: nat, t': Task, step: Step)
    requires AllLight(ts, base, step) && id < |ts| && ts[id].kind.Execute? && ts[id].status.New?
    requires SameIdentity(ts[id], t') && StatusMove(New, t'.status, step) && !t'.status.Done?
    ensures AllLight(ts, base[id := t'], step)
  {
  }

  /** A new triage under a fetch that is on the table, whatever happened to the other rows' contents and statuses. */
  lemma TriageRow(ts: Table, base: Table, fetch: nat, snap: Snapshot)
    requires Forest(ts) && fetch < |ts| && ts[fetch].kind.Fetch? && ts[fetch].external == Some(snap.external)
    requires |base| == |ts| && SameIdentity(ts[fetch], base[fetch])
    ensures FreshRow(ts, base + [TriageTask(fetch, ts[fetch].root, snap)], |ts|)
  {
  }

  lemma FirstSeenMoves(ts: Table, snap: Snapshot)
    requires Inv(ts) && Decide(ts, snap).FirstSeen?
    ensures Moves(ts, Ingest(ts, snap), Poll(snap))
  {
    hide First, Inv, Decided, Moves;
    InvParts(ts);
    assert First(ts, FetchOf(snap.external)).None?;
    var rows := [FetchTask(|ts|, snap), TriageTask(|ts|, |ts|, snap)];
    hide Decide;
    var ts' := ts + rows;
    assert FreshRow(ts, ts', |ts|) && FreshRow(ts, ts', |ts| + 1);
    LightMoves(ts, ts, rows, Poll(snap));
  }

  lemma PollMoves(ts: Table, snap: Snapshot)
    requires Inv(ts)
    ensures Moves(ts, Ingest(ts, snap), Poll(snap))
  {
    hide First, Last, Inv, Decided, Moves, Decide, FreshRow, Light, Refreshed, TriageActive;
    InvParts(ts);
    var step := Poll(snap);
    match Decide(ts, snap)
    case FirstSeen => FirstSeenMoves(ts, snap);
    case Skipped =>
      SettledAlready(ts, step);
    case Recovered(f) =>
      TriageRow(ts, ts, f, snap);
      SettledAlready(ts, step);
      AppendMoves(ts, ts, TriageTask(f, ts[f].root, snap), step);
    case ContextOnly(f, keepHash) =>
      RefreshLight(ts, f, snap, keepHash, step);
      SettleMoves(ts, Ingest(ts, snap), step);
    case Collapsed(f, p) =>
      RefreshLight(ts, f, snap, false, step);
      var base := ts[f := Refreshed(ts[f], snap, false)];
      WaitingLight(ts, base, p, ts[p].(context := Context(snap.content, None, None, None)), step);
      SettleMoves(ts, Ingest(ts, snap), step);
    case Superseded(f, i) =>
      SupersedeMoves(ts, f, i, snap, step);
    case Reopened(f, i) =>
      ReopenMoves(ts, f, i, snap, step);
    case Retriaged(f) =>
      RefreshLight(ts, f, snap, false, step);
      var base := ts[f := Refreshed(ts[f], snap, false)];
      TriageRow(ts, base, f, snap);
      AppendMoves(ts, base, TriageTask(f, ts[f].root, snap), step);
  }

  lemma SupersedeMoves(ts: Table, f: nat, i: nat, snap: Snapshot, step: Step)
    requires Inv(ts) && step.Poll? && f < |ts| && ts[f].kind.Fetch? && ts[f].external == Some(snap.external)
    requires First(ts, ImplementationWith(ts[f].root, New)) == Some(i)
    ensures var base := ts[f := Refreshed(ts[f], snap, false)];
            var failed := base[i].(status := Failed, result := Some(SUPERSEDED));
            i != f && Moves(ts, base[i := failed] + [TriageTask(f, ts[f].root, snap)], step)
  {
    hide First, Inv, Decided, Moves, FreshRow, Light, Refreshed;
    InvParts(ts);
    RefreshLight(ts, f, snap, false, step);
    var base := ts[f := Refreshed(ts[f], snap, false)];
    var failed := ts[i].(status := Failed, result := Some(SUPERSEDED));
    WaitingLight(ts, base, i, failed, step);
    TriageRow(ts, base[i := failed], f, snap);
    AppendMoves(ts, base[i := failed], TriageTask(f, ts[f].root, snap), step);
  }

  lemma SettledAlready(ts: Table, step: Step)
    requires AllDecided(ts)
    ensures AllLight(ts, ts, step) && Moves(ts, ts, step)
  {
    hide Moves, Decided;
    SettleMoves(ts, ts, step);
  }

  lemma ReopenMoves(ts: Table, f: nat, i: nat, snap: Snapshot, step: Step)
    requires Inv(ts) && f < |ts| && ts[f].kind.Fetch? && ts[f].external == Some(snap.external)
    requires Last(ts, ImplementationWith(ts[f].root, Done)) == Some(i)
    ensures var fetch := Refreshed(ts[f], snap, false);
            var base := ts[f := fetch.(context := fetch.context.(consumed := Some(i)))];
            Moves(ts, base + [TriageTask(f, ts[f].root, snap)], step)
  {
    hide First, Last, Inv, Decided, Moves, FreshRow;
    InvParts(ts);
    var fetch := Refreshed(ts[f], snap, false);
    var base := ts[f := fetch.(context := fetch.context.(consumed := Some(i)))];
    TriageRow(ts, base, f, snap);
    AppendMoves(ts, base, TriageTask(f, ts[f].root, snap), step);
  }
}
