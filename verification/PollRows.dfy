/** What polling a tracker task does, told from the rows of the table alone. */
module PollRows {
  import opened Text
  import opened TaskModel
  import opened ClusterSteps
  import opened ClusterInvariant
  import opened ClusterSafety
  import opened ClusterRuns
  import opened ClusterExamples

  // ---- Rows -----------------------------------------------------------------

  /** Row `f` is the fetch of this tracker task. */
  predicate FetchAt(ts: Table, f: nat, external: string) {
    f < |ts| && ts[f].kind == Fetch && ts[f].external == Some(external)
  }

  /** Row `i` is a triage under fetch `f` with this status. */
  predicate TriageAt(ts: Table, i: nat, f: nat, status: Status) {
    && i < |ts| && ts[i].kind == Execute && ts[i].action == Some(Triage) && ts[i].parent == Some(f)
    && ts[i].status == status
  }

  /** Row `i` is an implementation of the cluster of fetch `f` with this status. */
  predicate ImplementationAt(ts: Table, i: nat, f: nat, status: Status) {
    && i < |ts| && f < |ts| && ts[i].kind == Execute && ts[i].action == Some(Implementation)
    && ts[i].root == ts[f].root && ts[i].status == status
  }

  predicate SomeTriage(ts: Table, f: nat, status: Status) {
    exists i :: 0 <= i < |ts| && TriageAt(ts, i, f, status)
  }

  predicate SomeImplementation(ts: Table, f: nat, status: Status) {
    exists i :: 0 <= i < |ts| && ImplementationAt(ts, i, f, status)
  }

  /** Some delivery of row `i` is finished. */
  predicate DeliveredAt(ts: Table, i: nat) {
    exists d :: 0 <= d < |ts| && ts[d].kind == Deliver && ts[d].parent == Some(i) && ts[d].status == Done
  }

  /** The last finished triage under `f` escalated. */
  predicate LastEscalated(ts: Table, f: nat) {
    exists i :: 0 <= i < |ts| && EscalatedLast(ts, i, f)
  }

  predicate EscalatedLast(ts: Table, i: nat, f: nat) {
    && TriageAt(ts, i, f, Done)
    && (forall j :: i < j < |ts| ==> !TriageAt(ts, j, f, Done))
    && ts[i].result.Some? && ts[i].result.value.delivery.Some? && ts[i].result.value.delivery.value.escalation.Some?
  }

  predicate Changed(ts: Table, f: nat, snap: Snapshot) {
    f < |ts| && ts[f].context.storedHash != Some(snap.content.digest)
  }

  /** The tracker reports a delivered cluster as new, nothing of it is under way, and this was not acted on before. */
  predicate ReopensAt(ts: Table, f: nat, snap: Snapshot, i: nat) {
    && f < |ts| && snap.status == New
    && ImplementationAt(ts, i, f, Done) && DeliveredAt(ts, i)
    && !SomeTriage(ts, f, New) && !SomeTriage(ts, f, Processing)
    && ts[f].context.consumed != Some(i)
  }

  // ---- Queries and rows -----------------------------------------------------

  lemma TriageQuery(ts: Table, f: nat, status: Status)
    ensures First(ts, TriageUnder(f, status)).Some? <==> SomeTriage(ts, f, status)
    ensures forall p: nat :: First(ts, TriageUnder(f, status)) == Some(p)
              <==> TriageAt(ts, p, f, status) && forall j :: 0 <= j < p ==> !TriageAt(ts, j, f, status)
    ensures forall p: nat :: Last(ts, TriageUnder(f, status)) == Some(p)
              <==> TriageAt(ts, p, f, status) && forall j :: p < j < |ts| ==> !TriageAt(ts, j, f, status)
  {
    hide First, Last;
    forall i: nat | i < |ts| ensures Matches(ts[i], TriageUnder(f, status)) <==> TriageAt(ts, i, f, status) {
    }
  }

  lemma ImplementationQuery(ts: Table, f: nat, status: Status)
    requires f < |ts|
    ensures First(ts, ImplementationWith(ts[f].root, status)).Some? <==> SomeImplementation(ts, f, status)
    ensures Last(ts, ImplementationWith(ts[f].root, status)).Some? <==> SomeImplementation(ts, f, status)
    ensures First(ts, ImplementationWith(ts[f].root, status)).Some? ==>
              ImplementationAt(ts, First(ts, ImplementationWith(ts[f].root, status)).value, f, status)
    ensures Last(ts, ImplementationWith(ts[f].root, status)).Some? ==>
              ImplementationAt(ts, Last(ts, ImplementationWith(ts[f].root, status)).value, f, status)
  {
    hide First, Last;
    forall i: nat | i < |ts|
      ensures Matches(ts[i], ImplementationWith(ts[f].root, status)) <==> ImplementationAt(ts, i, f, status)
    {
    }
  }

  /** A cluster has one implementation row at most. */
  lemma OnlyImplementation(ts: Table, f: nat, i: nat, j: nat, a: Status, b: Status)
    requires Inv(ts) && ImplementationAt(ts, i, f, a) && ImplementationAt(ts, j, f, b)
    ensures i == j && a == b
  {
    hide Inv;
    InvParts(ts);
    assert IsImplementation(ts[i]) && IsImplementation(ts[j]);
  }

  lemma DeliveredQuery(ts: Table, i: nat)
    requires Inv(ts)
    ensures ImplementationDelivered(ts, i) <==> DeliveredAt(ts, i)
  {
    hide First, Inv;
    InvParts(ts);
    var found := First(ts, ChildOf(i, Deliver));
    if d :| 0 <= d < |ts| && ts[d].kind == Deliver && ts[d].parent == Some(i) && ts[d].status == Done {
      assert Matches(ts[d], ChildOf(i, Deliver));
    }
  }

  lemma EscalatedQuery(ts: Table, f: nat)
    ensures LastTriageEscalated(ts, f) <==> LastEscalated(ts, f)
  {
    hide Last;
    TriageQuery(ts, f, Done);
    var last := Last(ts, TriageUnder(f, Done));
    if last.Some? {
      assert TriageAt(ts, last.value, f, Done);
      assert IsEscalated(ts[last.value]) ==> EscalatedLast(ts, last.value, f);
      forall i: nat | i < |ts| && EscalatedLast(ts, i, f) ensures i == last.value {
        assert last == Some(i);
      }
    }
    if i :| 0 <= i < |ts| && EscalatedLast(ts, i, f) {
      assert last == Some(i);
    }
  }

  lemma FetchQuery(ts: Table, f: nat, external: string)
    requires Inv(ts)
    ensures First(ts, FetchOf(external)) == Some(f) <==> FetchAt(ts, f, external)
    ensures First(ts, FetchOf(external)).None? <==> forall j :: 0 <= j < |ts| ==> !FetchAt(ts, j, external)
  {
    hide First, Inv;
    InvParts(ts);
    forall i: nat | i < |ts| ensures Matches(ts[i], FetchOf(external)) <==> FetchAt(ts, i, external) {
    }
  }

  lemma ReopenQuery(ts: Table, f: nat, snap: Snapshot)
    requires Inv(ts) && f < |ts|
    ensures IsReopen(ts, f, snap) <==> exists i :: 0 <= i < |ts| && ReopensAt(ts, f, snap, i)
    ensures forall i: nat :: ReopensAt(ts, f, snap, i) ==>
              Last(ts, ImplementationWith(ts[f].root, Done)) == Some(i)
    ensures IsReopen(ts, f, snap) ==>
              var done := Last(ts, ImplementationWith(ts[f].root, Done));
              done.Some? && ReopensAt(ts, f, snap, done.value)
  {
    hide First, Last, Inv, ImplementationDelivered;
    TriageQuery(ts, f, New);
    TriageQuery(ts, f, Processing);
    ImplementationQuery(ts, f, Done);
    ImplementationQuery(ts, f, New);
    ImplementationQuery(ts, f, Processing);
    var done := Last(ts, ImplementationWith(ts[f].root, Done));
    forall i: nat | ReopensAt(ts, f, snap, i) ensures done == Some(i) && IsReopen(ts, f, snap) {
      assert SomeImplementation(ts, f, Done);
      OnlyImplementation(ts, f, i, done.value, Done, Done);
      DeliveredQuery(ts, i);
      NothingElse(ts, f, i);
    }
    if done.Some? {
      DeliveredQuery(ts, done.value);
      assert IsReopen(ts, f, snap) ==> ReopensAt(ts, f, snap, done.value);
    }
  }

  lemma NothingElse(ts: Table, f: nat, i: nat)
    requires Inv(ts) && ImplementationAt(ts, i, f, Done)
    ensures !SomeImplementation(ts, f, New) && !SomeImplementation(ts, f, Processing)
  {
    hide Inv;
    forall j: nat | j < |ts| ensures !ImplementationAt(ts, j, f, New) && !ImplementationAt(ts, j, f, Processing) {
      if ImplementationAt(ts, j, f, New) {
        OnlyImplementation(ts, f, i, j, Done, New);
      }
      if ImplementationAt(ts, j, f, Processing) {
        OnlyImplementation(ts, f, i, j, Done, Processing);
      }
    }
  }

  // ---- The decision ---------------------------------------------------------

  /** What a polled snapshot of a known task amounts to, told from the rows. */
  predicate DecidedByRows(ts: Table, f: nat, snap: Snapshot, d: Intake) {
    var changed := Changed(ts, f, snap);
    match d
    case FirstSeen => false
    case Recovered(_) => false
    case Skipped => !changed && !SomeReopen(ts, f, snap)
    case ContextOnly(g, keepHash) =>
      && g == f && changed
      && (if keepHash then SomeTriage(ts, f, Processing)
          else
            && !SomeTriage(ts, f, Processing) && !SomeTriage(ts, f, New) && !SomeImplementation(ts, f, New)
            && !SomeReopen(ts, f, snap)
            && (SomeImplementation(ts, f, Processing) || SomeImplementation(ts, f, Done) || !LastEscalated(ts, f)))
    case Collapsed(g, p) =>
      && g == f && changed && !SomeTriage(ts, f, Processing)
      && TriageAt(ts, p, f, New) && forall j :: 0 <= j < p ==> !TriageAt(ts, j, f, New)
    case Superseded(g, i) =>
      && g == f && changed && !SomeTriage(ts, f, Processing) && !SomeTriage(ts, f, New)
      && ImplementationAt(ts, i, f, New)
    case Reopened(g, i) => g == f && ReopensAt(ts, f, snap, i)
    case Retriaged(g) =>
      && g == f && changed && !SomeTriage(ts, f, Processing) && !SomeTriage(ts, f, New)
      && !SomeImplementation(ts, f, New) && !SomeImplementation(ts, f, Processing) && !SomeImplementation(ts, f, Done)
      && LastEscalated(ts, f)
  }

  predicate SomeReopen(ts: Table, f: nat, snap: Snapshot) {
    exists i :: 0 <= i < |ts| && ReopensAt(ts, f, snap, i)
  }

  /** Every query that the decision asks, answered by the rows. */
  lemma QueriesAreRows(ts: Table, f: nat, snap: Snapshot)
    requires Inv(ts) && FetchAt(ts, f, snap.external)
    ensures f < |ts| && First(ts, FetchOf(snap.external)) == Some(f) && First(ts, ChildOf(f, Execute)).Some?
    ensures ContentChanged(ts, f, snap) == Changed(ts, f, snap)
    ensures First(ts, TriageUnder(f, Processing)).Some? == SomeTriage(ts, f, Processing)
    ensures First(ts, TriageUnder(f, New)).Some? == SomeTriage(ts, f, New)
    ensures var p := First(ts, TriageUnder(f, New));
            p.Some? ==> TriageAt(ts, p.value, f, New) && forall j :: 0 <= j < p.value ==> !TriageAt(ts, j, f, New)
    ensures First(ts, ImplementationWith(ts[f].root, Processing)).Some? == SomeImplementation(ts, f, Processing)
    ensures var i := First(ts, ImplementationWith(ts[f].root, New));
            i.Some? == SomeImplementation(ts, f, New) && (i.Some? ==> ImplementationAt(ts, i.value, f, New))
    ensures Last(ts, ImplementationWith(ts[f].root, Done)).Some? == SomeImplementation(ts, f, Done)
    ensures IsReopen(ts, f, snap) == SomeReopen(ts, f, snap)
    ensures var done := Last(ts, ImplementationWith(ts[f].root, Done));
            IsReopen(ts, f, snap) ==> done.Some? && ReopensAt(ts, f, snap, done.value)
    ensures LastTriageEscalated(ts, f) == LastEscalated(ts, f)
  {
    hide First, Last, Inv, IsReopen, LastTriageEscalated, ReopensAt, LastEscalated, SomeTriage, SomeImplementation,
         ImplementationAt, TriageAt, ImplementationWith, TriageUnder;
    FetchQuery(ts, f, snap.external);
    NeverRecovered(ts, f);
    TriageQuery(ts, f, New);
    TriageQuery(ts, f, Processing);
    ImplementationQuery(ts, f, New);
    ImplementationQuery(ts, f, Processing);
    ImplementationQuery(ts, f, Done);
    ReopenQuery(ts, f, snap);
    EscalatedQuery(ts, f);
  }

  /** The decision taken is one that the rows call for. */
  lemma RowsHold(ts: Table, f: nat, snap: Snapshot)
    requires Inv(ts) && FetchAt(ts, f, snap.external)
    ensures DecidedByRows(ts, f, snap, Decide(ts, snap))
  {
    hide First, Last, Inv, IsReopen, LastTriageEscalated, ReopensAt, LastEscalated, SomeTriage, SomeImplementation,
         ImplementationAt, TriageAt, ImplementationWith, TriageUnder, FetchAt, ContentChanged, Changed, SomeReopen;
    QueriesAreRows(ts, f, snap);
    ReopenNeedsNoWork(ts, f, snap);
    ReopenSeen(ts, f, snap);
    OneStatus(ts, f, New, Processing);
    OneStatus(ts, f, New, Done);
  }

  lemma OneStatus(ts: Table, f: nat, a: Status, b: Status)
    requires Inv(ts) && a != b
    ensures !(SomeImplementation(ts, f, a) && SomeImplementation(ts, f, b))
  {
    hide Inv;
    if SomeImplementation(ts, f, a) && SomeImplementation(ts, f, b) {
      var i :| 0 <= i < |ts| && ImplementationAt(ts, i, f, a);
      var j :| 0 <= j < |ts| && ImplementationAt(ts, j, f, b);
      OnlyImplementation(ts, f, i, j, a, b);
      assert false;
    }
  }

  lemma ReopenSeen(ts: Table, f: nat, snap: Snapshot)
    ensures SomeReopen(ts, f, snap) ==> exists i: nat :: ReopensAt(ts, f, snap, i)
  {
    hide ReopensAt;
  }

  lemma ReopenNeedsNoWork(ts: Table, f: nat, snap: Snapshot)
    requires Inv(ts) && f < |ts|
    ensures forall i: nat :: ReopensAt(ts, f, snap, i) ==>
              !SomeTriage(ts, f, Processing) && !SomeTriage(ts, f, New) && SomeImplementation(ts, f, Done)
              && !SomeImplementation(ts, f, New) && !SomeImplementation(ts, f, Processing)
  {
    hide Inv;
    forall i: nat | ReopensAt(ts, f, snap, i)
      ensures SomeImplementation(ts, f, Done)
      ensures !SomeImplementation(ts, f, New) && !SomeImplementation(ts, f, Processing)
    {
      NothingElse(ts, f, i);
    }
  }

  /** The rows call for one decision only. */
  lemma OneDecision(ts: Table, f: nat, snap: Snapshot, d: Intake, e: Intake)
    requires Inv(ts) && f < |ts| && DecidedByRows(ts, f, snap, d) && DecidedByRows(ts, f, snap, e)
    ensures d == e
  {
    ReopenNeedsNoWork(ts, f, snap);
    if d.Superseded? && e.Superseded? {
      OnlyImplementation(ts, f, d.implementation, e.implementation, New, New);
    } else if d.Reopened? && e.Reopened? {
      OnlyImplementation(ts, f, d.implementation, e.implementation, Done, Done);
    }
    assert d.Collapsed? && e.Collapsed? ==> !(d.pending < e.pending) && !(e.pending < d.pending);
    assert forall i: nat :: TriageAt(ts, i, f, New) ==> SomeTriage(ts, f, New);
    assert forall i: nat :: ImplementationAt(ts, i, f, New) ==> SomeImplementation(ts, f, New);
  }

  /** The decision on a known task, in every branch, is the one its rows call for, and no other. */
  lemma DecideIff(ts: Table, f: nat, snap: Snapshot, d: Intake)
    requires Inv(ts) && FetchAt(ts, f, snap.external)
    ensures Decide(ts, snap) == d <==> DecidedByRows(ts, f, snap, d)
  {
    hide *;
    FetchInTable(ts, f, snap.external);
    RowsHold(ts, f, snap);
    if DecidedByRows(ts, f, snap, d) {
      OneDecision(ts, f, snap, d, Decide(ts, snap));
    }
  }

  lemma FetchInTable(ts: Table, f: nat, external: string)
    requires FetchAt(ts, f, external)
    ensures f < |ts|
  {
  }

  /** A task is taken for new exactly when no fetch carries its tracker id. */
  lemma FirstSeenIff(ts: Table, snap: Snapshot)
    requires Inv(ts)
    ensures Decide(ts, snap) == FirstSeen <==> forall j :: 0 <= j < |ts| ==> !FetchAt(ts, j, snap.external)
  {
    hide First, Inv, FetchAt;
    FetchQuery(ts, 0, snap.external);
  }

  /** A reopening: the snapshot is new, row `i` is the cluster's finished implementation with a finished delivery, no
      triage waits or runs, and the marker does not name `i`. */
  lemma ReopenedIff(ts: Table, f: nat, snap: Snapshot, i: nat)
    requires Inv(ts)
    ensures Decide(ts, snap) == Reopened(f, i)
            <==> && FetchAt(ts, f, snap.external) && snap.status == New
                 && ImplementationAt(ts, i, f, Done)
                 && (exists d :: 0 <= d < |ts| && ts[d].kind == Deliver && ts[d].parent == Some(i)
                                 && ts[d].status == Done)
                 && (forall j :: 0 <= j < |ts| ==> !TriageAt(ts, j, f, New) && !TriageAt(ts, j, f, Processing))
                 && ts[f].context.consumed != Some(i)
  {
    hide First, Last, Inv;
    FetchQuery(ts, f, snap.external);
    if FetchAt(ts, f, snap.external) {
      hide Decide;
      DecideIff(ts, f, snap, Reopened(f, i));
    }
  }

  // ---- What the poll writes -------------------------------------------------

  /** A waiting triage of this fetch with this content. */
  predicate NewTriageRow(t: Task, f: nat, fetch: Task, snap: Snapshot) {
    && t.kind == Execute && t.action == Some(Triage) && t.status == New && t.parent == Some(f) && t.root == fetch.root
    && t.externalParent == Some(snap.external) && t.external == None && t.pr == None && t.handoff == None
    && t.result == None && t.context == Context(snap.content, None, None, None)
  }

  /** Only the context of the fetch changed: the new content is in it, the hash on record is the new one unless a triage
      is running, and the marker names the reopened implementation or is what it was. */
  predicate FetchRefreshed(t: Task, t': Task, snap: Snapshot, running: bool, reopened: Option<nat>) {
    && t' == t.(context := t'.context) && t'.context.content == snap.content
    && t'.context.storedHash == (if running then t.context.storedHash else Some(snap.content.digest))
    && t'.context.consumed == (if reopened.Some? then reopened else t.context.consumed)
    && t'.context.prCursor == t.context.prCursor
  }

  predicate SameRows(ts: Table, ts': Table, but: set<nat>) {
    |ts| <= |ts'| && forall i :: 0 <= i < |ts| && i !in but ==> ts'[i] == ts[i]
  }

  /** A task polled for the first time gets a finished fetch that is its own root, with content and hash, and a first
      triage. */
  lemma FirstRows(ts: Table, snap: Snapshot)
    requires Decide(ts, snap) == FirstSeen
    ensures var ts', f := Ingest(ts, snap), |ts|;
            && |ts'| == |ts| + 2 && SameRows(ts, ts', {})
            && FetchAt(ts', f, snap.external) && ts'[f].status == Done && ts'[f].parent == None && ts'[f].root == f
            && ts'[f].context == Context(snap.content, Some(snap.content.digest), None, None)
            && NewTriageRow(ts'[f + 1], f, ts'[f], snap)
  {
    hide Decide;
  }

  /** What every later poll does to the rows, decision by decision. */
  lemma PolledRows(ts: Table, f: nat, snap: Snapshot)
    requires Inv(ts) && FetchAt(ts, f, snap.external)
    ensures var ts', d := Ingest(ts, snap), Decide(ts, snap);
            match d
            case FirstSeen => false
            case Recovered(_) => false
            case Skipped => ts' == ts
            case ContextOnly(_, running) =>
              |ts'| == |ts| && SameRows(ts, ts', {f}) && f < |ts| && FetchRefreshed(ts[f], ts'[f], snap, running, None)
            case Collapsed(_, p) =>
              && |ts'| == |ts| && SameRows(ts, ts', {f, p}) && f < |ts| && p < |ts| && p != f
              && FetchRefreshed(ts[f], ts'[f], snap, false, None)
              && ts'[p] == ts[p].(context := Context(snap.content, None, None, None))
            case Superseded(_, i) =>
              && |ts'| == |ts| + 1 && SameRows(ts, ts', {f, i}) && f < |ts| && i < |ts| && i != f
              && FetchRefreshed(ts[f], ts'[f], snap, false, None)
              && ts'[i] == ts[i].(status := Failed, result := ts'[i].result) && ts'[i].result.Some?
              && NewTriageRow(ts'[|ts|], f, ts[f], snap)
            case Reopened(_, i) =>
              && |ts'| == |ts| + 1 && SameRows(ts, ts', {f}) && f < |ts|
              && FetchRefreshed(ts[f], ts'[f], snap, false, Some(i)) && NewTriageRow(ts'[|ts|], f, ts[f], snap)
            case Retriaged(_) =>
              && |ts'| == |ts| + 1 && SameRows(ts, ts', {f}) && f < |ts|
              && FetchRefreshed(ts[f], ts'[f], snap, false, None) && NewTriageRow(ts'[|ts|], f, ts[f], snap)
  {
    hide First, Last, Inv, ReopensAt, LastEscalated, SomeReopen, SomeTriage, SomeImplementation, Changed;
    RowsHold(ts, f, snap);
    hide Decide;
  }

  // ---- A delivery that is still under way -----------------------------------

  /** The implementation is finished and its delivery waits. */
  function Undelivered(first: Snapshot, markdown: string, comment: string, agent: Outcome): Table {
    var base := Started(first, markdown, comment, agent);
    var done := Finished(base[4], agent, None);
    base[4 := done] + [DeliverTask(4, done)]
  }

  /** Until the delivery is finished, a tracker that still reports the task as new does not reopen it. */
  lemma NotReopenedBeforeDelivery(first: Snapshot, markdown: string, comment: string, agent: Outcome)
    returns (steps: seq<Step>)
    requires NonBlank(markdown) && first.status.New?
    ensures Legal([], steps) && NoRestart(steps)
    ensures After([], steps) == Undelivered(first, markdown, comment, agent)
    ensures Decide(After([], steps), first) == Skipped
    ensures Ingest(After([], steps), first) == After([], steps)
  {
    hide First, Last, NonBlank, Legal, After;
    steps := UndeliveredIsReached(first, markdown, comment, agent);
    var ts := Undelivered(first, markdown, comment, agent);
    Reachable(steps);
    assert FetchAt(ts, 0, first.external) && !Changed(ts, 0, first);
    forall i: nat | i < |ts| ensures !ReopensAt(ts, 0, first, i) {
    }
    hide Inv, Decide;
    DecideIff(ts, 0, first, Skipped);
  }

  lemma UndeliveredIsReached(first: Snapshot, markdown: string, comment: string, agent: Outcome)
    returns (steps: seq<Step>)
    requires NonBlank(markdown)
    ensures Legal([], steps) && NoRestart(steps)
    ensures After([], steps) == Undelivered(first, markdown, comment, agent)
  {
    hide First, Last, NonBlank, IsReady, IsThreadTriage, Legal, After, IsTriage;
    steps := StartedIsReached(first, markdown, comment, agent);
    var t6 := Started(first, markdown, comment, agent);
    NotTriage(t6[4]);
    OneMore([], steps, Claim(4));
    steps := steps + [Claim(4)];
    var t7 := t6[4 := t6[4].(status := Processing)];
    NotTriage(t7[4]);
    OneMore([], steps, CompleteExecute(4, agent, None));
    steps := steps + [CompleteExecute(4, agent, None)];
    var base := t7[4 := Finished(t7[4], agent, None)];
    FirstIsNone(base, ChildOf(4, Deliver));
    assert After([], steps) == base + [DeliverTask(4, base[4])];
  }
}
