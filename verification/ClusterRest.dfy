/** Polling the same snapshot again changes nothing, and the workers alone always come to rest. */
module ClusterRest {
  import opened Text
  import opened TaskModel
  import opened ClusterSteps
  import opened ClusterInvariant
  import opened ClusterRuns

  // ---- Polling twice --------------------------------------------------------

  predicate SameMatches(ts: Table, ts': Table, w: Where) {
    |ts| == |ts'| && forall i :: 0 <= i < |ts| ==> (Matches(ts[i], w) <==> Matches(ts'[i], w))
  }

  lemma SameQueries(ts: Table, ts': Table, w: Where)
    requires SameMatches(ts, ts', w)
    ensures First(ts, w) == First(ts', w) && Last(ts, w) == Last(ts', w)
  {
    hide First, Last, Matches;
  }

  /** Only contexts differ. */
  predicate SameButContexts(ts: Table, ts': Table) {
    |ts| == |ts'| && forall i :: 0 <= i < |ts| ==> ts'[i] == ts[i].(context := ts'[i].context)
  }

  lemma ContextsDoNotMatter(ts: Table, ts': Table, w: Where)
    requires SameButContexts(ts, ts')
    ensures First(ts, w) == First(ts', w) && Last(ts, w) == Last(ts', w)
  {
    SameQueries(ts, ts', w);
  }

  /** The query that finds a fetch finds it again after rows were added and other fields changed. */
  lemma FetchFoundAgain(ts: Table, ts': Table, f: nat, external: string)
    requires First(ts, FetchOf(external)) == Some(f) && |ts| <= |ts'|
    requires forall i :: 0 <= i < |ts| ==> SameIdentity(ts[i], ts'[i])
    ensures First(ts', FetchOf(external)) == Some(f)
  {
    hide First;
    assert Matches(ts[f], FetchOf(external)) && Matches(ts'[f], FetchOf(external));
  }

  lemma IdleSkips(ts: Table, f: nat, snap: Snapshot)
    requires Inv(ts) && First(ts, FetchOf(snap.external)) == Some(f)
    requires !ContentChanged(ts, f, snap) && !IsReopen(ts, f, snap)
    ensures Ingest(ts, snap) == ts
  {
    hide First, Last, Inv, IsReopen;
    NeverRecovered(ts, f);
  }

  lemma ActiveIsNoReopen(ts: Table, f: nat, snap: Snapshot, i: nat)
    requires f < |ts| && i < |ts| && IsTriage(ts[i]) && ts[i].parent == Some(f) && ts[i].status.New?
    ensures !IsReopen(ts, f, snap)
  {
    hide First, Last;
    assert Matches(ts[i], TriageUnder(f, New));
  }

  /** After a poll that left a waiting triage and the hash on record, the same poll does nothing. */
  lemma WaitingSkips(ts: Table, ts': Table, f: nat, i: nat, snap: Snapshot)
    requires Inv(ts) && Inv(ts') && First(ts, FetchOf(snap.external)) == Some(f) && |ts| <= |ts'|
    requires forall k :: 0 <= k < |ts| ==> SameIdentity(ts[k], ts'[k])
    requires ts'[f].context.storedHash == Some(snap.content.digest)
    requires i < |ts'| && IsTriage(ts'[i]) && ts'[i].parent == Some(f) && ts'[i].status.New?
    ensures Ingest(ts', snap) == ts'
  {
    hide First, Last, Inv, IsReopen, Ingest;
    FetchFoundAgain(ts, ts', f, snap.external);
    ActiveIsNoReopen(ts', f, snap, i);
    IdleSkips(ts', f, snap);
  }

  lemma ContextsKeepReopen(ts: Table, ts': Table, f: nat, snap: Snapshot)
    requires SameButContexts(ts, ts') && f < |ts| && ts'[f].context.consumed == ts[f].context.consumed
    ensures IsReopen(ts, f, snap) == IsReopen(ts', f, snap)
  {
    hide First, Last;
    var root := ts[f].root;
    ContextsDoNotMatter(ts, ts', ImplementationWith(root, Done));
    ContextsDoNotMatter(ts, ts', ImplementationWith(root, New));
    ContextsDoNotMatter(ts, ts', ImplementationWith(root, Processing));
    ContextsDoNotMatter(ts, ts', TriageUnder(f, New));
    ContextsDoNotMatter(ts, ts', TriageUnder(f, Processing));
    var done := Last(ts, ImplementationWith(root, Done));
    if done.Some? {
      ContextsDoNotMatter(ts, ts', ChildOf(done.value, Deliver));
    }
  }

  /** A poll that only refreshed the context either is seen as a change again and rewrites the same context, or is
      skipped. */
  lemma RefreshTwice(ts: Table, f: nat, keepHash: bool, snap: Snapshot)
    requires Inv(ts) && Decide(ts, snap) == ContextOnly(f, keepHash)
    ensures Ingest(Ingest(ts, snap), snap) == Ingest(ts, snap)
  {
    hide First, Last, Inv, IsReopen, LastTriageEscalated, TriageActive;
    var ts' := Ingest(ts, snap);
    assert Inv(ts') by { assert Apply(ts, Poll(snap)) == ts'; StepKeepsInv(ts, Poll(snap)); }
    assert SameButContexts(ts, ts');
    FetchFoundAgain(ts, ts', f, snap.external);
    ContextsKeepReopen(ts, ts', f, snap);
    ContextsDoNotMatter(ts, ts', TriageUnder(f, Processing));
    NeverRecovered(ts, f);
    NeverRecovered(ts', f);
    NoReopenHere(ts, f, keepHash, snap);
    if keepHash {
      assert Decide(ts', snap) == ContextOnly(f, true);
    } else {
      IdleSkips(ts', f, snap);
    }
  }

  lemma NoReopenHere(ts: Table, f: nat, keepHash: bool, snap: Snapshot)
    requires Decide(ts, snap) == ContextOnly(f, keepHash)
    ensures !IsReopen(ts, f, snap) && ContentChanged(ts, f, snap)
  {
    hide First, Last, LastTriageEscalated, ImplementationDelivered;
  }

  /** Ingesting the same snapshot twice leaves exactly the table that ingesting it once leaves. */
  lemma PollTwice(ts: Table, snap: Snapshot)
    requires Inv(ts)
    ensures Ingest(Ingest(ts, snap), snap) == Ingest(ts, snap)
  {
    hide First, Last, Inv, Decide;
    var ts' := Ingest(ts, snap);
    assert Inv(ts') by { assert Apply(ts, Poll(snap)) == ts'; StepKeepsInv(ts, Poll(snap)); }
    match Decide(ts, snap)
    case FirstSeen => FirstSeenTwice(ts, snap);
    case Skipped =>
    case Recovered(f) => NeverRecovered(ts, f);
    case ContextOnly(f, keepHash) => RefreshTwice(ts, f, keepHash, snap);
    case Collapsed(f, p) => WaitingSkips(ts, ts', f, p, snap);
    case Superseded(f, _) => WaitingSkips(ts, ts', f, |ts|, snap);
    case Reopened(f, _) => WaitingSkips(ts, ts', f, |ts|, snap);
    case Retriaged(f) => WaitingSkips(ts, ts', f, |ts|, snap);
  }

  lemma FirstSeenTwice(ts: Table, snap: Snapshot)
    requires Inv(ts) && Decide(ts, snap).FirstSeen?
    ensures Ingest(Ingest(ts, snap), snap) == Ingest(ts, snap)
  {
    hide First, Last, Inv, IsReopen;
    assert First(ts, FetchOf(snap.external)).None?;
    var ts' := Ingest(ts, snap);
    assert ts' == ts + [FetchTask(|ts|, snap), TriageTask(|ts|, |ts|, snap)];
    assert Inv(ts') by { assert Apply(ts, Poll(snap)) == ts'; StepKeepsInv(ts, Poll(snap)); }
    hide Decide, Ingest;
    var f := First(ts', FetchOf(snap.external));
    assert Matches(ts'[|ts|], FetchOf(snap.external));
    assert f == Some(|ts|);
    ActiveIsNoReopen(ts', |ts|, snap, |ts| + 1);
    IdleSkips(ts', |ts|, snap);
  }

  // ---- Coming to rest -------------------------------------------------------

  /** Work left in a row: a feedback may still spawn an execute, an execute a delivery. */
  function Weight(t: Task): nat {
    var waiting := if t.status.New? then 1 else 0;
    if !t.status.New? && !t.status.Processing? then 0
    else match t.kind
      case Fetch => 0
      case TrackerFeedback => 5 + waiting
      case Execute => 3 + waiting
      case PrFeedback => 1 + waiting
      case Deliver => 1 + waiting
  }

  function Load(ts: Table): nat {
    if ts == [] then 0 else Load(ts[..|ts| - 1]) + Weight(ts[|ts| - 1])
  }

  lemma {:induction false} LoadUpdate(ts: Table, i: nat, t: Task)
    requires i < |ts|
    ensures Load(ts[i := t]) == Load(ts) - Weight(ts[i]) + Weight(t)
  {
    var last := |ts| - 1;
    if i == last {
      assert ts[i := t][..last] == ts[..last];
    } else {
      assert ts[i := t][..last] == ts[..last][i := t];
      LoadUpdate(ts[..last], i, t);
    }
  }

  lemma LoadAppend(ts: Table, t: Task)
    ensures Load(ts + [t]) == Load(ts) + Weight(t)
  {
    assert (ts + [t])[..|ts|] == ts;
  }

  predicate WorkerStep(step: Step) {
    !step.Poll? && !step.CommentOnPr? && !step.CommentOnTask? && !step.SaveCursor? && !step.Restart?
  }

  lemma EnsureLoad(ts: Table, id: nat)
    requires id < |ts|
    ensures Load(EnsureDeliver(ts, id)) <= Load(ts) + 2
  {
    hide First, Load;
    LoadAppend(ts, DeliverTask(id, ts[id]));
  }

  lemma ReplyFalls(ts: Table, id: nat, agent: Outcome, pr: Option<string>)
    requires Running(ts, id, TrackerFeedback) && ParentOf(ts, id).Some?
    ensures Load(Reply(ts, id, agent, pr)) < Load(ts)
  {
    hide EnsureDeliver, Load;
    var execute := ParentOf(ts, id).value;
    var done := ts[id := Finished(ts[id], agent, pr)];
    LoadUpdate(ts, id, Finished(ts[id], agent, pr));
    LoadUpdate(done, execute, Restamped(done[execute], id, pr));
    EnsureLoad(done[execute := Restamped(done[execute], id, pr)], id);
  }

  lemma StartFalls(ts: Table, id: nat, agent: Outcome)
    requires Running(ts, id, TrackerFeedback) && ParentOf(ts, id).Some?
    ensures Load(Start(ts, id, agent)) < Load(ts)
  {
    hide Reply, ReadyTriageFor, First, Load;
    var triage := ReadyTriageFor(ts, id);
    if triage.None? {
      ReplyFalls(ts, id, agent, None);
    } else {
      var started := StartFrom(ts, triage.value);
      if started != ts {
        LoadAppend(ts, ImplementationTask(ts[triage.value].parent.value, triage.value, ts[triage.value]));
      }
      LoadUpdate(started, id, Finished(started[id], agent, None));
    }
  }

  /** Every step a worker takes lowers the load, although completions create new tasks. */
  lemma WorkerStepFalls(ts: Table, step: Step)
    requires Enabled(ts, step) && WorkerStep(step)
    ensures Load(Apply(ts, step)) < Load(ts)
  {
    hide First, Last, Load, EnsureDeliver, Reply, Start, Ingest, NonBlank;
    match step
    case Claim(id) => LoadUpdate(ts, id, ts[id].(status := Processing));
    case CompleteTriage(id, sp, markdown) =>
      var t := Finished(ts[id], TriageOutcome(sp, markdown), None);
      LoadUpdate(ts, id, t);
      EnsureLoad(ts[id := t], id);
    case CompleteExecute(id, agent, pr) =>
      var t := Finished(ts[id], agent, pr);
      LoadUpdate(ts, id, t);
      EnsureLoad(ts[id := t], id);
    case CompletePrFeedback(id, agent) =>
      var pr, execute := PrOf(ts, id), ParentOf(ts, id).value;
      var done := ts[id := Finished(ts[id], agent, pr)];
      LoadUpdate(ts, id, Finished(ts[id], agent, pr));
      LoadUpdate(done, execute, Restamped(done[execute], id, pr));
    case CompleteTrackerFeedback(id, agent, pr) => ReplyFalls(ts, id, agent, pr);
    case StartImplementation(id, agent) => StartFalls(ts, id, agent);
    case FinishDeliver(id, agent) => LoadUpdate(ts, id, ts[id].(status := Done, result := Some(agent)));
    case Fail(id, report) => LoadUpdate(ts, id, Apart(ts[id], report));
  }

  /** With no new input the workers take at most `Load(ts)` steps, in any order. */
  lemma {:induction false} WorkersComeToRest(ts: Table, steps: seq<Step>)
    requires Legal(ts, steps) && forall k :: 0 <= k < |steps| ==> WorkerStep(steps[k])
    ensures |steps| <= Load(ts) - Load(After(ts, steps))
    decreases |steps|
  {
    hide Enabled, Apply, Load;
    if steps != [] {
      WorkerStepFalls(ts, steps[0]);
      WorkersComeToRest(Apply(ts, steps[0]), steps[1..]);
    }
  }
}
