/** What the protocol promises over runs: edits, reopenings, superseded work, repeated polls, and rest. */
module ClusterTheorems {
  import opened Text
  import opened TaskModel
  import opened ClusterSteps
  import opened ClusterInvariant
  import opened ClusterSafety
  import opened ClusterRuns

  // ---- Edits ----------------------------------------------------------------

  /** A triage that has not started yet will look at exactly this content. */
  predicate Waits(ts: Table, fetch: nat, content: Content) {
    exists i :: 0 <= i < |ts| && IsTriage(ts[i]) && ts[i].parent == Some(fetch) && ts[i].status.New?
                && ts[i].context.content == content
  }

  /** When a changed description is acted upon, told from the table before the poll. */
  predicate EditIsTriaged(ts: Table, fetch: nat, snap: Snapshot)
    requires fetch < |ts|
  {
    var root := ts[fetch].root;
    var impl := First(ts, ImplementationIn(root));
    && First(ts, TriageUnder(fetch, Processing)).None?
    && (|| First(ts, TriageUnder(fetch, New)).Some?
        || (impl.Some? && ts[impl.value].status.New?)
        || IsReopen(ts, fetch, snap)
        || ((impl.None? || ts[impl.value].status.Failed?) && LastTriageEscalated(ts, fetch)))
  }

  /** The cluster has one implementation, so the queries by status all look at that one. */
  lemma TheImplementation(ts: Table, fetch: nat)
    requires Inv(ts) && fetch < |ts|
    ensures var root := ts[fetch].root;
            var impl := First(ts, ImplementationIn(root));
            && First(ts, ImplementationWith(root, New))
               == (if impl.Some? && ts[impl.value].status.New? then impl else None)
            && First(ts, ImplementationWith(root, Processing))
               == (if impl.Some? && ts[impl.value].status.Processing? then impl else None)
            && Last(ts, ImplementationWith(root, Done))
               == (if impl.Some? && ts[impl.value].status.Done? then impl else None)
  {
    hide First, Last, Inv;
    InvParts(ts);
  }

  lemma NewTriageWaits(ts: Table, base: Table, f: nat, snap: Snapshot)
    requires f < |ts| == |base|
    ensures Waits(base + [TriageTask(f, ts[f].root, snap)], f, snap.content)
  {
    var ts' := base + [TriageTask(f, ts[f].root, snap)];
    assert IsTriage(ts'[|ts|]) && ts'[|ts|].parent == Some(f);
  }

  lemma NobodyWaits(ts: Table, f: nat, content: Content)
    requires f < |ts| && First(ts, TriageUnder(f, New)).None?
    ensures !Waits(ts, f, content)
  {
    hide First;
  }

  /** Refreshing a fetch's context changes no query by status. */
  lemma RefreshKeepsWaiting(ts: Table, f: nat, snap: Snapshot, keepHash: bool)
    requires f < |ts| && ts[f].kind.Fetch? && First(ts, TriageUnder(f, New)).None?
    ensures First(ts[f := Refreshed(ts[f], snap, keepHash)], TriageUnder(f, New)).None?
    ensures First(ts, TriageUnder(f, Processing)).None?
            ==> !TriageActive(ts[f := Refreshed(ts[f], snap, keepHash)], f)
  {
    hide First;
  }

  lemma RunningExcludesWaiting(ts: Table, f: nat)
    requires Quiet(ts) && First(ts, TriageUnder(f, Processing)).Some?
    ensures First(ts, TriageUnder(f, New)).None?
  {
    hide First;
    if First(ts, TriageUnder(f, New)).Some? {
      assert false;
    }
  }

  /**
   What becomes of an edit. It reaches a waiting triage exactly under the condition above. While a triage runs, the
   hash on record stays, so the edit is still seen as one later. Otherwise, and this is the case of an edit made
   after a triage found the task ready but before an implementation was started, the hash is overwritten and no
   triage is left that would look at the edit.
   */
  lemma EditReachesTriage(ts: Table, f: nat, snap: Snapshot)
    requires Inv(ts) && Quiet(ts)
    requires First(ts, FetchOf(snap.external)) == Some(f) && ContentChanged(ts, f, snap)
    ensures Waits(Ingest(ts, snap), f, snap.content) <==> EditIsTriaged(ts, f, snap)
    ensures First(ts, TriageUnder(f, Processing)).Some? ==> ContentChanged(Ingest(ts, snap), f, snap)
    ensures First(ts, TriageUnder(f, Processing)).None? && !EditIsTriaged(ts, f, snap)
            ==> !ContentChanged(Ingest(ts, snap), f, snap) && !TriageActive(Ingest(ts, snap), f)
  {
    hide First, Last, Inv, Quiet, IsReopen, LastTriageEscalated, TriageActive, Waits;
    NeverRecovered(ts, f);
    TheImplementation(ts, f);
    ReopenNeedsIdle(ts, f, snap);
    var impl := First(ts, ImplementationIn(ts[f].root));
    match Decide(ts, snap)
    case ContextOnly(_, keepHash) =>
      if keepHash {
        RunningExcludesWaiting(ts, f);
      }
      RefreshKeepsWaiting(ts, f, snap, keepHash);
      NobodyWaits(ts[f := Refreshed(ts[f], snap, keepHash)], f, snap.content);
    case Collapsed(_, p) =>
      var ts' := Ingest(ts, snap);
      assert Waits(ts', f, snap.content) by { CollapsedWaits(ts, f, p, snap); }
    case Superseded(_, i) =>
      var base := ts[f := Refreshed(ts[f], snap, false)];
      NewTriageWaits(ts, base[i := base[i].(status := Failed, result := Some(SUPERSEDED))], f, snap);
    case Reopened(_, i) =>
      var fetch := Refreshed(ts[f], snap, false);
      NewTriageWaits(ts, ts[f := fetch.(context := fetch.context.(consumed := Some(i)))], f, snap);
    case Retriaged(_) =>
      NewTriageWaits(ts, ts[f := Refreshed(ts[f], snap, false)], f, snap);
  }

  lemma CollapsedWaits(ts: Table, f: nat, p: nat, snap: Snapshot)
    requires f < |ts| && ts[f].kind.Fetch? && First(ts, TriageUnder(f, New)) == Some(p)
    ensures var base := ts[f := Refreshed(ts[f], snap, false)];
            Waits(base[p := base[p].(context := Context(snap.content, None, None, None))], f, snap.content)
  {
    hide First;
    var base := ts[f := Refreshed(ts[f], snap, false)];
    var ts' := base[p := base[p].(context := Context(snap.content, None, None, None))];
    assert IsTriage(ts'[p]) && ts'[p].parent == Some(f) && ts'[p].status.New?;
  }

  lemma ReopenNeedsIdle(ts: Table, f: nat, snap: Snapshot)
    requires f < |ts|
    ensures IsReopen(ts, f, snap) ==>
              && First(ts, TriageUnder(f, New)).None? && First(ts, TriageUnder(f, Processing)).None?
              && Last(ts, ImplementationWith(ts[f].root, Done)).Some?
              && First(ts, ImplementationWith(ts[f].root, Processing)).None?
              && First(ts, ImplementationWith(ts[f].root, New)).None?
  {
    hide First, Last;
  }

  /** Polled, triaged as small, delivery still waiting. */
  function TriagedSmall(first: Snapshot, markdown: string): Table {
    var done := Finished(TriageTask(0, 0, first), TriageOutcome(One, markdown), None);
    [FetchTask(0, first), done, DeliverTask(1, done)]
  }

  lemma TriagedSmallIsReached(first: Snapshot, markdown: string)
    requires NonBlank(markdown)
    ensures var steps := [Poll(first), Claim(1), CompleteTriage(1, One, markdown)];
            Legal([], steps) && After([], steps) == TriagedSmall(first, markdown) && NoRestart(steps)
  {
    hide NonBlank, First, Last;
    var steps := [Poll(first), Claim(1), CompleteTriage(1, One, markdown)];
    var t1 := [FetchTask(0, first), TriageTask(0, 0, first)];
    var t2 := t1[1 := t1[1].(status := Processing)];
    var t3 := TriagedSmall(first, markdown);
    assert Enabled([], steps[0]) && Apply([], steps[0]) == t1;
    assert Enabled(t1, steps[1]) && Apply(t1, steps[1]) == t2;
    assert Enabled(t2, steps[2]) && Apply(t2, steps[2]) == t3;
    assert Legal(t3, []) && After(t3, []) == t3;
    assert steps[2..][1..] == [] && Legal(t2, steps[2..]) && After(t2, steps[2..]) == t3;
    assert steps[1..][1..] == steps[2..] && Legal(t1, steps[1..]) && After(t1, steps[1..]) == t3;
  }

  /** Such an edit is easily made: a task is polled, triaged as small, and then edited. */
  lemma SwallowedEdit(first: Snapshot, edited: Snapshot, markdown: string)
    requires first.external == edited.external && first.content.digest != edited.content.digest && NonBlank(markdown)
    ensures var ts := TriagedSmall(first, markdown);
            && First(ts, FetchOf(edited.external)) == Some(0) && ContentChanged(ts, 0, edited)
            && var ts' := Ingest(ts, edited);
            !ContentChanged(ts', 0, edited) && !TriageActive(ts', 0) && !Waits(ts', 0, edited.content)
  {
    hide NonBlank, First, Last, Inv, Quiet, Waits, TriageActive, Ingest;
    var ts := TriagedSmall(first, markdown);
    TriagedSmallIsReached(first, markdown);
    Reachable([Poll(first), Claim(1), CompleteTriage(1, One, markdown)]);
    assert Matches(ts[0], FetchOf(edited.external));
    assert Matches(ts[1], TriageUnder(0, Done));
    EditReachesTriage(ts, 0, edited);
  }

  /** A poll of another tracker task leaves this fetch's hash alone, and so does every other step. */
  lemma StepKeepsHash(ts: Table, step: Step, f: nat)
    requires Inv(ts) && Enabled(ts, step) && f < |ts| && ts[f].kind.Fetch?
    requires step.Poll? ==> Some(step.snap.external) != ts[f].external
    ensures f < |Apply(ts, step)| && Apply(ts, step)[f].context.storedHash == ts[f].context.storedHash
  {
    hide First, Last, Inv, Decide, TriageActive;
    if !step.Poll? {
      hide Apply;
      OnlyPollsWriteContents(ts, step);
    }
  }

  predicate NoPollOf(steps: seq<Step>, external: Option<string>) {
    forall k :: 0 <= k < |steps| && steps[k].Poll? ==> Some(steps[k].snap.external) != external
  }

  lemma {:induction false} RunKeepsHash(ts: Table, steps: seq<Step>, f: nat)
    requires Inv(ts) && Legal(ts, steps) && f < |ts| && ts[f].kind.Fetch?
    requires NoPollOf(steps, ts[f].external)
    ensures f < |After(ts, steps)| && After(ts, steps)[f].context.storedHash == ts[f].context.storedHash
    decreases |steps|
  {
    hide Inv, Enabled, Apply;
    if steps != [] {
      StepMoves(ts, steps[0]);
      StepKeepsInv(ts, steps[0]);
      StepKeepsHash(ts, steps[0], f);
      RunKeepsHash(Apply(ts, steps[0]), steps[1..], f);
    }
  }

  /** No lost edit: one that is polled while a triage runs is still an edit at the next poll of that task, whatever
      the workers, the other tasks and the operators did in between. */
  lemma EditDuringTriageIsSeenAgain(ts: Table, f: nat, snap: Snapshot, steps: seq<Step>)
    requires Inv(ts) && Quiet(ts)
    requires First(ts, FetchOf(snap.external)) == Some(f) && ContentChanged(ts, f, snap)
    requires First(ts, TriageUnder(f, Processing)).Some?
    requires Legal(Ingest(ts, snap), steps) && NoPollOf(steps, Some(snap.external))
    ensures f < |After(Ingest(ts, snap), steps)| && ContentChanged(After(Ingest(ts, snap), steps), f, snap)
  {
    hide Inv, Quiet, First, Ingest, Legal, After;
    assert Enabled(ts, Poll(snap)) && Apply(ts, Poll(snap)) == Ingest(ts, snap);
    StepKeepsInv(ts, Poll(snap));
    StepMoves(ts, Poll(snap));
    EditReachesTriage(ts, f, snap);
    RunKeepsHash(Ingest(ts, snap), steps, f);
  }

  // ---- Reopenings and superseded work ---------------------------------------

  /** Once a cluster's reopening was consumed, the marker stays for good. */
  lemma StepKeepsMarker(ts: Table, step: Step, f: nat)
    requires Inv(ts) && Enabled(ts, step) && f < |ts| && ts[f].kind.Fetch? && ts[f].context.consumed.Some?
    ensures f < |Apply(ts, step)| && Apply(ts, step)[f].context.consumed == ts[f].context.consumed
  {
    hide Inv, Enabled, Apply;
    StepMoves(ts, step);
    InvParts(ts);
    assert KeepsConsumed(ts, ts[f], Apply(ts, step)[f]);
  }

  lemma {:induction false} RunKeepsMarker(ts: Table, steps: seq<Step>, f: nat)
    requires Inv(ts) && Legal(ts, steps) && f < |ts| && ts[f].kind.Fetch? && ts[f].context.consumed.Some?
    ensures f < |After(ts, steps)| && After(ts, steps)[f].context.consumed == ts[f].context.consumed
    decreases |steps|
  {
    hide Inv, Enabled, Apply;
    if steps != [] {
      StepMoves(ts, steps[0]);
      StepKeepsInv(ts, steps[0]);
      StepKeepsMarker(ts, steps[0], f);
      RunKeepsMarker(Apply(ts, steps[0]), steps[1..], f);
    }
  }

  /** Reopening is acted upon once: after it, no poll in any continuation reopens the same fetch again. */
  lemma ReopenedOnce(ts: Table, f: nat, i: nat, snap: Snapshot, steps: seq<Step>, again: Snapshot)
    requires Inv(ts) && Decide(ts, snap) == Reopened(f, i)
    requires Legal(Ingest(ts, snap), steps)
    ensures forall j :: Decide(After(Ingest(ts, snap), steps), again) != Reopened(f, j)
  {
    hide Inv, First, Last, Legal, After, Decide;
    var next := Ingest(ts, snap);
    assert Enabled(ts, Poll(snap)) && Apply(ts, Poll(snap)) == next;
    StepKeepsInv(ts, Poll(snap));
    RunKeepsMarker(next, steps, f);
    RunKeepsInv(next, steps);
    var last := After(next, steps);
    InvParts(last);
    RunKeepsRows(next, steps);
    forall j ensures Decide(last, again) != Reopened(f, j) {
      if Decide(last, again) == Reopened(f, j) {
        ReopensUnconsumed(last, f, j, again);
        assert false;
      }
    }
  }

  lemma ReopensUnconsumed(ts: Table, f: nat, j: nat, snap: Snapshot)
    requires Decide(ts, snap) == Reopened(f, j)
    ensures ts[f].context.consumed != Some(j) && j < |ts| && IsImplementation(ts[j]) && ts[j].root == ts[f].root
  {
    hide First, Last;
  }

  /** A failed implementation stays failed unless it is itself restarted. */
  lemma StepKeepsFailed(ts: Table, step: Step, i: nat)
    requires Inv(ts) && Enabled(ts, step) && step != Restart(i) && i < |ts| && ts[i].status.Failed?
    ensures i < |Apply(ts, step)| && Apply(ts, step)[i].status.Failed?
  {
    hide Inv;
    if !step.Restart? {
      hide Apply, Enabled;
      StepMoves(ts, step);
    }
  }

  /** A superseded implementation is never replaced: unless an operator restarts it, its cluster has no other
      implementation in any continuation, however often the task is triaged again. */
  lemma {:induction false} SupersededForGood(ts: Table, i: nat, steps: seq<Step>)
    requires Inv(ts) && Legal(ts, steps) && i < |ts| && IsImplementation(ts[i]) && ts[i].status.Failed?
    requires Restart(i) !in steps
    ensures var ts' := After(ts, steps);
            && i < |ts'| && ts'[i].status.Failed?
            && forall j :: 0 <= j < |ts'| && IsImplementation(ts'[j]) && ts'[j].root == ts[i].root ==> j == i
    decreases |steps|
  {
    hide Inv, Enabled, Apply;
    if steps == [] {
      InvParts(ts);
    } else {
      StepMoves(ts, steps[0]);
      StepKeepsInv(ts, steps[0]);
      StepKeepsFailed(ts, steps[0], i);
      SupersededForGood(Apply(ts, steps[0]), i, steps[1..]);
    }
  }

  /** A cluster gets one implementation ever: once there is one, finished or not, no continuation adds another,
      whatever is polled, commented, reopened or restarted. */
  lemma OneImplementationEver(ts: Table, i: nat, steps: seq<Step>)
    requires Inv(ts) && Legal(ts, steps) && i < |ts| && IsImplementation(ts[i])
    ensures var ts' := After(ts, steps);
            && i < |ts'| && IsImplementation(ts'[i]) && ts'[i].root == ts[i].root
            && forall j :: 0 <= j < |ts'| && IsImplementation(ts'[j]) && ts'[j].root == ts[i].root ==> j == i
  {
    hide Inv, Legal, After;
    RunKeepsInv(ts, steps);
    RunKeepsRows(ts, steps);
    InvParts(After(ts, steps));
    assert Lasting(ts[i], After(ts, steps)[i]);
  }

  /** So a reopening is triaged and answered, but never implemented again: after it the cluster's only implementation
      is the one that was already finished, and it stays finished. */
  lemma ReopenedIsNotImplemented(ts: Table, f: nat, i: nat, snap: Snapshot, steps: seq<Step>)
    requires Inv(ts) && Decide(ts, snap) == Reopened(f, i)
    requires Legal(Ingest(ts, snap), steps)
    ensures var ts' := After(Ingest(ts, snap), steps);
            && f < |ts| && i < |ts'| && ts'[i].status.Done?
            && forall j :: 0 <= j < |ts'| && IsImplementation(ts'[j]) && ts'[j].root == ts[f].root ==> j == i
  {
    hide Inv, First, Last, Legal, After, Ingest;
    ReopensUnconsumed(ts, f, i, snap);
    ReopensDone(ts, f, i, snap);
    assert Enabled(ts, Poll(snap)) && Apply(ts, Poll(snap)) == Ingest(ts, snap);
    StepKeepsInv(ts, Poll(snap));
    StepMoves(ts, Poll(snap));
    var next := Ingest(ts, snap);
    assert IsImplementation(next[i]) && next[i].root == ts[i].root && next[i].status.Done?;
    OneImplementationEver(next, i, steps);
    RunKeepsRows(next, steps);
    assert Lasting(next[i], After(next, steps)[i]);
  }

  lemma ReopensDone(ts: Table, f: nat, i: nat, snap: Snapshot)
    requires Decide(ts, snap) == Reopened(f, i)
    ensures f < |ts| && i < |ts| && ts[i].status.Done?
  {
    hide First, Last;
  }
}
