/** Runs in which the rarer branches are taken: an implementation started, superseded, delivered and reopened. */
module ClusterExamples {
  import opened Text
  import opened TaskModel
  import opened ClusterSteps
  import opened ClusterInvariant
  import opened ClusterRuns
  import opened ClusterTheorems

  lemma {:induction false} OneMore(ts: Table, steps: seq<Step>, step: Step)
    requires Legal(ts, steps) && Enabled(After(ts, steps), step)
    ensures Legal(ts, steps + [step]) && After(ts, steps + [step]) == Apply(After(ts, steps), step)
    decreases |steps|
  {
    hide Enabled, Apply;
    if steps == [] {
      assert [step][1..] == [];
      assert Legal(Apply(ts, step), []) && After(Apply(ts, step), []) == Apply(ts, step);
      assert steps + [step] == [step];
    } else {
      assert (steps + [step])[1..] == steps[1..] + [step];
      OneMore(Apply(ts, steps[0]), steps[1..], step);
    }
  }

  /** A task that was triaged as small, with the implementation requested by a comment. */
  function Started(first: Snapshot, markdown: string, comment: string, agent: Outcome): Table {
    var base := TriagedSmall(first, markdown);
    base + [Finished(TrackerFeedbackTask(1, base[1], comment), agent, None), ImplementationTask(0, 1, base[1])]
  }

  /** The same with the implementation finished and delivered. */
  function Delivered(first: Snapshot, markdown: string, comment: string, agent: Outcome): Table {
    var base := Started(first, markdown, comment, agent);
    var done := Finished(base[4], agent, None);
    base[4 := done] + [DeliverTask(4, done).(status := Done, result := Some(agent))]
  }

  lemma FirstIs(ts: Table, w: Where, i: nat)
    requires i < |ts| && Matches(ts[i], w) && forall j :: 0 <= j < i ==> !Matches(ts[j], w)
    ensures First(ts, w) == Some(i)
  {
    hide First, Matches;
  }

  lemma LastIs(ts: Table, w: Where, i: nat)
    requires i < |ts| && Matches(ts[i], w) && forall j :: i < j < |ts| ==> !Matches(ts[j], w)
    ensures Last(ts, w) == Some(i)
  {
    hide Last, Matches;
  }

  lemma FirstIsNone(ts: Table, w: Where)
    requires forall j :: 0 <= j < |ts| ==> !Matches(ts[j], w)
    ensures First(ts, w) == None
  {
    hide First, Matches;
  }

  lemma SmallIsReady(first: Snapshot, markdown: string)
    requires NonBlank(markdown)
    ensures IsReady(TriagedSmall(first, markdown)[1]) && IsThreadTriage(TriagedSmall(first, markdown)[1])
  {
    assert !IsSpace(BriefSaved(One)[0]);
  }

  lemma StartedIsReached(first: Snapshot, markdown: string, comment: string, agent: Outcome) returns (steps: seq<Step>)
    requires NonBlank(markdown)
    ensures Legal([], steps) && NoRestart(steps) && After([], steps) == Started(first, markdown, comment, agent)
  {
    hide First, Last, NonBlank, IsReady, IsThreadTriage, Legal, After;
    TriagedSmallIsReached(first, markdown);
    SmallIsReady(first, markdown);
    var t3 := TriagedSmall(first, markdown);
    steps := [Poll(first), Claim(1), CompleteTriage(1, One, markdown)];

    LastIs(t3, TriageUnder(0, Done), 1);
    FirstIsNone(t3, ChildWithExternal(1, TrackerFeedback, comment));
    OneMore([], steps, CommentOnTask(1, comment, false));
    steps := steps + [CommentOnTask(1, comment, false)];
    var t4 := t3 + [TrackerFeedbackTask(1, t3[1], comment)];
    assert After([], steps) == t4;

    OneMore([], steps, Claim(3));
    steps := steps + [Claim(3)];
    var t5 := t4[3 := t4[3].(status := Processing)];
    assert After([], steps) == t5;

    StartsHere(t5, agent);
    OneMore([], steps, StartImplementation(3, agent));
    steps := steps + [StartImplementation(3, agent)];
    assert After([], steps) == Started(first, markdown, comment, agent);
  }

  lemma StartsHere(ts: Table, agent: Outcome)
    requires |ts| == 4 && ts[0].kind.Fetch? && ts[2].kind.Deliver? && ts[3].kind.TrackerFeedback?
    requires IsReady(ts[1]) && ts[1].root == 0 && ts[1].parent == Some(0) && ts[3].parent == Some(1)
    ensures Start(ts, 3, agent) == ts[3 := Finished(ts[3], agent, None)] + [ImplementationTask(0, 1, ts[1])]
  {
    hide First, Last;
    LastIs(ts, TriageUnder(0, Done), 1);
    FirstIsNone(ts, ImplementationIn(0));
    assert ReadyTriageFor(ts, 3) == Some(1);
  }

  lemma DeliveredIsReached(first: Snapshot, markdown: string, comment: string, agent: Outcome)
    returns (steps: seq<Step>)
    requires NonBlank(markdown)
    ensures Legal([], steps) && NoRestart(steps) && After([], steps) == Delivered(first, markdown, comment, agent)
  {
    hide First, Last, NonBlank, IsReady, IsThreadTriage, Legal, After, IsTriage;
    steps := StartedIsReached(first, markdown, comment, agent);
    var t6 := Started(first, markdown, comment, agent);
    assert !IsTriage(t6[4]) by { NotTriage(t6[4]); }

    OneMore([], steps, Claim(4));
    steps := steps + [Claim(4)];
    var t7 := t6[4 := t6[4].(status := Processing)];

    assert !IsTriage(t7[4]) by { NotTriage(t7[4]); }
    OneMore([], steps, CompleteExecute(4, agent, None));
    steps := steps + [CompleteExecute(4, agent, None)];
    var base := t7[4 := Finished(t7[4], agent, None)];
    FirstIsNone(base, ChildOf(4, Deliver));
    var t8 := base + [DeliverTask(4, base[4])];
    assert After([], steps) == t8;

    OneMore([], steps, Claim(5));
    steps := steps + [Claim(5)];
    var t9 := t8[5 := t8[5].(status := Processing)];

    OneMore([], steps, FinishDeliver(5, agent));
    steps := steps + [FinishDeliver(5, agent)];
    assert After([], steps) == Delivered(first, markdown, comment, agent);
  }

  lemma NotTriage(t: Task)
    requires t.action == Some(Implementation)
    ensures !IsTriage(t)
  {
  }

  /** An edit between hand-off and claim supersedes the implementation. */
  lemma SupersedeIsReached(first: Snapshot, edited: Snapshot, markdown: string, comment: string, agent: Outcome)
    returns (steps: seq<Step>)
    requires NonBlank(markdown) && edited.external == first.external && edited.content.digest != first.content.digest
    ensures Legal([], steps) && NoRestart(steps) && Decide(After([], steps), edited) == Superseded(0, 4)
  {
    hide First, Last, NonBlank, Legal, After;
    steps := StartedIsReached(first, markdown, comment, agent);
    var ts := Started(first, markdown, comment, agent);
    FirstIs(ts, FetchOf(edited.external), 0);
    FirstIs(ts, ChildOf(0, Execute), 1);
    FirstIsNone(ts, TriageUnder(0, Processing));
    FirstIsNone(ts, TriageUnder(0, New));
    FirstIsNone(ts, ImplementationWith(0, Processing));
    FirstIs(ts, ImplementationWith(0, New), 4);
  }

  /** A delivered task that the tracker reports as new again is reopened. */
  lemma ReopenIsReached(first: Snapshot, markdown: string, comment: string, agent: Outcome) returns (steps: seq<Step>)
    requires NonBlank(markdown) && first.status.New?
    ensures Legal([], steps) && NoRestart(steps) && Decide(After([], steps), first) == Reopened(0, 4)
  {
    hide First, Last, NonBlank, Legal, After;
    steps := DeliveredIsReached(first, markdown, comment, agent);
    var ts := Delivered(first, markdown, comment, agent);
    FirstIs(ts, FetchOf(first.external), 0);
    FirstIs(ts, ChildOf(0, Execute), 1);
    FirstIsNone(ts, TriageUnder(0, Processing));
    FirstIsNone(ts, TriageUnder(0, New));
    FirstIsNone(ts, ImplementationWith(0, Processing));
    FirstIsNone(ts, ImplementationWith(0, New));
    LastIs(ts, ImplementationWith(0, Done), 4);
    FirstIs(ts, ChildOf(4, Deliver), 5);
  }

  // ---- A failed triage ------------------------------------------------------

  /** A first triage that escalated, and a second one, after an edit, that failed. */
  function FailedAgain(a: Snapshot, b: Snapshot, markdown: string): Table {
    var done := Finished(TriageTask(0, 0, a), TriageOutcome(Five, markdown), None);
    [Refreshed(FetchTask(0, a), b, false), done, DeliverTask(1, done), TriageTask(0, 0, b).(status := Failed)]
  }

  lemma FailedAgainIsReached(a: Snapshot, b: Snapshot, markdown: string) returns (steps: seq<Step>)
    requires NonBlank(markdown) && a.external == b.external && a.content.digest != b.content.digest
    ensures steps == [Poll(a), Claim(1), CompleteTriage(1, Five, markdown), Poll(b), Claim(3), Fail(3, None)]
    ensures Legal([], steps) && NoRestart(steps) && After([], steps) == FailedAgain(a, b, markdown)
  {
    hide First, Last, NonBlank, Legal, After;
    steps := EscalatedIsReached(a, markdown);
    var t3 := Escalated(a, markdown);

    FirstIs(t3, FetchOf(b.external), 0);
    FirstIs(t3, ChildOf(0, Execute), 1);
    NoImplementation(t3);
    FirstIsNone(t3, TriageUnder(0, Processing));
    FirstIsNone(t3, TriageUnder(0, New));
    LastIs(t3, TriageUnder(0, Done), 1);
    assert Decide(t3, b) == Retriaged(0);
    OneMore([], steps, Poll(b));
    steps := steps + [Poll(b)];
    var t4 := t3[0 := Refreshed(t3[0], b, false)] + [TriageTask(0, 0, b)];
    assert After([], steps) == t4;

    OneMore([], steps, Claim(3));
    steps := steps + [Claim(3)];
    var t5 := t4[3 := t4[3].(status := Processing)];
    assert After([], steps) == t5;

    OneMore([], steps, Fail(3, None));
    steps := steps + [Fail(3, None)];
    assert After([], steps) == FailedAgain(a, b, markdown);
  }

  /** Polled and triaged as too large. */
  function Escalated(a: Snapshot, markdown: string): Table {
    var done := Finished(TriageTask(0, 0, a), TriageOutcome(Five, markdown), None);
    [FetchTask(0, a), done, DeliverTask(1, done)]
  }

  lemma EscalatedIsReached(a: Snapshot, markdown: string) returns (steps: seq<Step>)
    requires NonBlank(markdown)
    ensures steps == [Poll(a), Claim(1), CompleteTriage(1, Five, markdown)]
    ensures Legal([], steps) && NoRestart(steps) && After([], steps) == Escalated(a, markdown)
  {
    hide First, Last, NonBlank;
    assert Legal([], []) && After([], []) == [];
    hide Legal, After;
    FirstIsNone([], FetchOf(a.external));
    OneMore([], [], Poll(a));
    var t1 := [FetchTask(0, a), TriageTask(0, 0, a)];
    assert [] + [Poll(a)] == [Poll(a)];
    assert After([], [Poll(a)]) == t1;
    OneMore([], [Poll(a)], Claim(1));
    var t2 := t1[1 := t1[1].(status := Processing)];
    steps := [Poll(a)] + [Claim(1)];
    assert After([], steps) == t2;
    var done := t2[1 := Finished(t2[1], TriageOutcome(Five, markdown), None)];
    FirstIsNone(done, ChildOf(1, Deliver));
    OneMore([], steps, CompleteTriage(1, Five, markdown));
    steps := steps + [CompleteTriage(1, Five, markdown)];
  }

  lemma NoImplementation(ts: Table)
    requires forall i :: 0 <= i < |ts| ==> !IsImplementation(ts[i])
    ensures forall root, status :: First(ts, ImplementationWith(root, status)) == None
    ensures forall root, status :: Last(ts, ImplementationWith(root, status)) == None
    ensures forall root :: First(ts, ImplementationIn(root)) == None
  {
    hide First, Last;
    forall root, status
      ensures First(ts, ImplementationWith(root, status)) == None && Last(ts, ImplementationWith(root, status)) == None
      ensures First(ts, ImplementationIn(root)) == None
    {
      forall i | 0 <= i < |ts|
        ensures !Matches(ts[i], ImplementationWith(root, status)) && !Matches(ts[i], ImplementationIn(root))
      {
      }
    }
  }

  /** A restart puts a second triage beside a waiting one: escalated, edited, failed, edited again, restarted. */
  lemma RestartBesideActiveIsReached(a: Snapshot, b: Snapshot, c: Snapshot, markdown: string) returns (steps: seq<Step>)
    requires NonBlank(markdown) && a.external == b.external == c.external
    requires a.content.digest != b.content.digest && b.content.digest != c.content.digest
    ensures steps == [Poll(a), Claim(1), CompleteTriage(1, Five, markdown), Poll(b), Claim(3), Fail(3, None), Poll(c),
                      Restart(3)]
    ensures Legal([], steps)
    ensures var ts := After([], steps);
            && |ts| == 5 && IsTriage(ts[3]) && IsTriage(ts[4]) && ts[3].status.New? && ts[4].status.New?
            && ts[3].parent == ts[4].parent == Some(0) && !OneActiveTriage(ts)
  {
    hide First, Last, NonBlank, Legal, After;
    steps := FailedAgainIsReached(a, b, markdown);
    var t6 := FailedAgain(a, b, markdown);
    FirstIs(t6, FetchOf(c.external), 0);
    FirstIs(t6, ChildOf(0, Execute), 1);
    NoImplementation(t6);
    FirstIsNone(t6, TriageUnder(0, Processing));
    FirstIsNone(t6, TriageUnder(0, New));
    LastIs(t6, TriageUnder(0, Done), 1);
    assert Decide(t6, c) == Retriaged(0);
    OneMore([], steps, Poll(c));
    steps := steps + [Poll(c)];
    var t7 := t6[0 := Refreshed(t6[0], c, false)] + [TriageTask(0, 0, c)];
    assert After([], steps) == t7;

    OneMore([], steps, Restart(3));
    steps := steps + [Restart(3)];
    assert After([], steps) == t7[3 := t7[3].(status := New, result := None)];
  }

  /** A first triage that failed. */
  function FailedFirst(a: Snapshot): Table {
    [FetchTask(0, a), TriageTask(0, 0, a).(status := Failed)]
  }

  /** An edit after the first triage failed is recorded as seen, and nothing is left that would look at it. */
  lemma FailedTriageSwallowsEdit(a: Snapshot, b: Snapshot) returns (steps: seq<Step>)
    requires a.external == b.external && a.content.digest != b.content.digest
    ensures steps == [Poll(a), Claim(1), Fail(1, None)]
    ensures Legal([], steps) && NoRestart(steps)
    ensures var ts := After([], steps);
            && First(ts, FetchOf(b.external)) == Some(0) && 0 < |ts| && ContentChanged(ts, 0, b)
            && var ts' := Ingest(ts, b);
            0 < |ts'| && !ContentChanged(ts', 0, b) && !TriageActive(ts', 0) && !Waits(ts', 0, b.content)
  {
    hide First, Last;
    assert Legal([], []) && After([], []) == [];
    hide Legal, After;
    FirstIsNone([], FetchOf(a.external));
    OneMore([], [], Poll(a));
    var t1 := [FetchTask(0, a), TriageTask(0, 0, a)];
    assert [] + [Poll(a)] == [Poll(a)];
    assert After([], [Poll(a)]) == t1;
    OneMore([], [Poll(a)], Claim(1));
    steps := [Poll(a)] + [Claim(1)];
    assert After([], steps) == t1[1 := t1[1].(status := Processing)];
    OneMore([], steps, Fail(1, None));
    steps := steps + [Fail(1, None)];
    var ts := FailedFirst(a);
    assert After([], steps) == ts;
    FirstIs(ts, FetchOf(b.external), 0);
    FirstIs(ts, ChildOf(0, Execute), 1);
    NoImplementation(ts);
    FirstIsNone(ts, TriageUnder(0, Processing));
    FirstIsNone(ts, TriageUnder(0, New));
    FirstIsNone(ts, TriageUnder(0, Done));
    assert Last(ts, TriageUnder(0, Done)) == None by { LastIsNone(ts, TriageUnder(0, Done)); }
    assert Decide(ts, b) == ContextOnly(0, false);
    var ts' := Ingest(ts, b);
    FirstIsNone(ts', TriageUnder(0, Processing));
    FirstIsNone(ts', TriageUnder(0, New));
  }

  lemma LastIsNone(ts: Table, w: Where)
    requires forall j :: 0 <= j < |ts| ==> !Matches(ts[j], w)
    ensures Last(ts, w) == None
  {
    hide Last, Matches;
  }
}
