/** How a claimed task ends, outcome by outcome, told from the rows of the table alone. */
module SettledRows {
  import opened Text
  import opened TaskModel
  import opened ClusterSteps
  import opened ClusterInvariant
  import opened ClusterSafety
  import opened ExecuteWork
  import opened PollRows

  // ---- Triage decisions -----------------------------------------------------

  /** One to three points: a brief, and an implementation to follow. Five, eight and thirteen: an escalation of its own
      kind, with the text as the comment and nothing to follow. No size asks for a tracker status. */
  lemma DecisionResults(sp: StoryPoints, markdown: string)
    ensures var r := TriageOutcome(sp, markdown);
            && r.updatedBy == None && r.routing.Some? && r.delivery.Some? && r.delivery.value.trackerStatus == None
            && match sp
               case One => SmallResult(r, markdown)
               case Two => SmallResult(r, markdown)
               case Three => SmallResult(r, markdown)
               case Five => LargeResult(r, markdown, Rfi)
               case Eight => LargeResult(r, markdown, Decomposition)
               case Thirteen => LargeResult(r, markdown, SystemDesign)
  {
  }

  predicate SmallResult(r: Outcome, markdown: string) {
    && r.brief == Some(markdown) && r.routing == Some(Routing(true, Execute, ImplementationRole))
    && r.delivery.Some? && r.delivery.value.escalation == None
  }

  predicate LargeResult(r: Outcome, markdown: string, kind: Escalation) {
    && r.brief == None && r.routing == Some(Routing(false, Deliver, DeliverRole))
    && r.delivery == Some(Delivery(None, Some(kind), Some(markdown)))
  }

  // ---- Rows -----------------------------------------------------------------

  predicate DoneWith(t: Task, t': Task, result: Outcome, pr: Option<string>) {
    t' == t.(status := Done, result := Some(result), pr := pr)
  }

  /** A waiting delivery of row `id`. */
  predicate DeliveryRow(t: Task, id: nat, parent: Task) {
    && t.kind == Deliver && t.status == New && t.parent == Some(id) && t.root == parent.root
    && t.externalParent == parent.externalParent && t.pr == parent.pr
    && t.external == None && t.action == None && t.handoff == None && t.result == None && t.context == NO_CONTEXT
  }

  /** The execute's result names the feedback that changed it and says the same otherwise. */
  predicate StampedBy(t: Task, t': Task, id: nat, pr: Option<string>) {
    && t' == t.(result := t'.result, pr := if pr.Some? then pr else t.pr)
    && t'.result.Some? && t'.result.value.updatedBy == Some(id)
    && (t.result.Some? ==> t'.result.value == t.result.value.(updatedBy := Some(id)))
    && (t.result.None? ==> t'.result.value == Outcome(None, None, None, Some(id)))
  }

  /** No execute row is new. */
  predicate NoNewExecute(ts: Table, ts': Table) {
    forall i :: |ts| <= i < |ts'| ==> ts'[i].kind != Execute
  }

  predicate HasDelivery(ts: Table, id: nat) {
    exists d :: 0 <= d < |ts| && ts[d].kind == Deliver && ts[d].parent == Some(id)
  }

  /** The cluster of row `id` has an implementation. */
  predicate HasImplementation(ts: Table, root: nat) {
    exists i :: 0 <= i < |ts| && ts[i].kind == Execute && ts[i].action == Some(Implementation) && ts[i].root == root
  }

  /** A task that still runs has no delivery, so the one ensured at its end is new. */
  lemma DeliveryIsNew(ts: Table, base: Table, id: nat)
    requires Inv(ts) && id < |ts| == |base| && ts[id].status == Processing
    requires forall i :: 0 <= i < |ts| ==> base[i].kind == ts[i].kind && base[i].parent == ts[i].parent
    ensures var ts' := EnsureDeliver(base, id);
            |ts'| == |ts| + 1 && ts'[..|ts|] == base && DeliveryRow(ts'[|ts|], id, base[id])
  {
    hide First, Inv;
    InvParts(ts);
    assert First(base, ChildOf(id, Deliver)).None?;
  }

  // ---- Failures -------------------------------------------------------------

  /** A crash writes the status and nothing else; a reported or malformed run also leaves its report and clears the pull
      request. No row is added. */
  lemma FailedRows(ts: Table, id: nat, run: AgentRun)
    requires Inv(ts) && id < |ts| && ts[id].status.Processing? && IsWork(ts[id].kind) && Fits(ts[id], run)
    requires run.Crashed? || run.ReportedFailure? || run.Malformed?
    ensures Enabled(ts, StepFor(ts, id, run))
    ensures var ts' := Apply(ts, StepFor(ts, id, run));
            match run
            case Crashed => ts' == ts[id := ts[id].(status := Failed)]
            case ReportedFailure(report) =>
              ts' == ts[id := ts[id].(status := Failed, result := Some(report), pr := None)]
            case Malformed(report) => ts' == ts[id := ts[id].(status := Failed, result := Some(report), pr := None)]
            case _ => true
  {
    hide Inv, NonBlank;
  }

  // ---- Executes -------------------------------------------------------------

  /** A finished triage or implementation holds its result, and gets one delivery. */
  lemma ExecuteRows(ts: Table, id: nat, run: AgentRun)
    requires Inv(ts) && id < |ts| && ts[id].status.Processing? && ts[id].kind == Execute && Fits(ts[id], run)
    requires run.Decision? || run.Work?
    ensures Enabled(ts, StepFor(ts, id, run))
    ensures var ts' := Apply(ts, StepFor(ts, id, run));
            && |ts'| == |ts| + 1 && SameRows(ts, ts', {id}) && DeliveryRow(ts'[|ts|], id, ts'[id])
            && match run
               case Decision(sp, markdown) => DoneWith(ts[id], ts'[id], TriageOutcome(sp, markdown), None)
               case Work(agent, pr, _) => DoneWith(ts[id], ts'[id], agent, pr)
               case _ => true
  {
    hide Inv, NonBlank, First, EnsureDeliver, TriageOutcome;
    var result := match run case Decision(sp, markdown) => TriageOutcome(sp, markdown)
                            case Work(agent, _, _) => agent case _ => NO_OUTCOME;
    var pr := if run.Work? then run.pr else None;
    var base := ts[id := Finished(ts[id], result, pr)];
    DeliveryIsNew(ts, base, id);
    PrefixRows(base, EnsureDeliver(base, id));
  }

  lemma PrefixRows(base: Table, ts': Table)
    requires |base| <= |ts'| && ts'[..|base|] == base
    ensures forall i :: 0 <= i < |base| ==> ts'[i] == base[i]
  {
    forall i | 0 <= i < |base| ensures ts'[i] == base[i] {
      assert ts'[..|base|][i] == ts'[i];
    }
  }

  // ---- Pull-request feedback ------------------------------------------------

  /** Its own pull request, or else its execute's. */
  predicate ReviewedPr(ts: Table, id: nat, execute: nat, pr: Option<string>)
    requires id < |ts| && execute < |ts|
  {
    pr == if ts[id].pr.Some? then ts[id].pr else ts[execute].pr
  }

  /** Pull-request feedback fails when there is no pull request; otherwise it is done, its execute is stamped, and
      nothing is delivered. */
  lemma ReviewRows(ts: Table, id: nat, agent: Outcome, any: Option<string>, start: bool, execute: nat,
                   pr: Option<string>)
    requires Inv(ts) && id < |ts| && ts[id].status.Processing? && ts[id].kind == PrFeedback
    requires execute < |ts| && ts[id].parent == Some(execute) && ReviewedPr(ts, id, execute, pr)
    ensures Enabled(ts, StepFor(ts, id, Work(agent, any, start)))
    ensures var ts' := Apply(ts, StepFor(ts, id, Work(agent, any, start)));
            && |ts'| == |ts|
            && if pr.None? then ts' == ts[id := ts[id].(status := Failed)]
               else && SameRows(ts, ts', {id, execute}) && id != execute
                    && DoneWith(ts[id], ts'[id], agent, pr) && StampedBy(ts[execute], ts'[execute], id, pr)
  {
    hide Inv;
    FeedbackParent(ts, id);
  }

  // ---- Tracker feedback -----------------------------------------------------

  /** Row `i` is the last finished triage under `f`, with a brief and the routing of a small task. */
  predicate ReadyAt(ts: Table, i: nat, f: nat) {
    && TriageAt(ts, i, f, Done) && (forall j :: i < j < |ts| ==> !TriageAt(ts, j, f, Done))
    && ts[i].result.Some?
    && var r := ts[i].result.value;
    && r.brief.Some? && (exists k :: 0 <= k < |r.brief.value| && !IsSpace(r.brief.value[k]))
    && r.routing == Some(Routing(true, Execute, ImplementationRole))
  }

  /** The triage an implementation may start from is the last finished one beside the feedback's execute, if it is
      ready; an older one never is. */
  lemma ReadyTriageIff(ts: Table, id: nat, execute: nat, f: nat, i: nat)
    requires id < |ts| && execute < |ts| && f < |ts| && ts[id].parent == Some(execute) && ts[execute].parent == Some(f)
    ensures ReadyTriageFor(ts, id) == Some(i) <==> ReadyAt(ts, i, f)
  {
    hide First, Last;
    TriageQuery(ts, f, Done);
    if ReadyAt(ts, i, f) {
      assert Last(ts, TriageUnder(f, Done)) == Some(i);
    }
  }

  /** The execute and the fetch above a feedback task. */
  predicate Above(ts: Table, id: nat, execute: nat, f: nat) {
    && id < |ts| && execute < id && f < execute && ts[id].parent == Some(execute) && ts[execute].parent == Some(f)
    && ts[execute].kind == Execute && ts[id].root == ts[execute].root == ts[f].root
  }

  lemma FeedbackAbove(ts: Table, id: nat) returns (execute: nat, f: nat)
    requires Inv(ts) && id < |ts| && IsFeedback(ts[id])
    ensures Above(ts, id, execute, f)
  {
    hide Inv;
    InvParts(ts);
    assert Placed(ts, id);
    execute := ts[id].parent.value;
    assert Placed(ts, execute);
    f := ts[execute].parent.value;
  }

  /** A plain comment, or one that asks for an implementation with no ready triage at hand, is answered: the feedback is
      done, its execute is stamped, and the answer gets a delivery. */
  lemma AnsweredRows(ts: Table, id: nat, agent: Outcome, pr: Option<string>, start: bool, execute: nat, f: nat)
    requires Inv(ts) && id < |ts| && ts[id].status.Processing? && ts[id].kind == TrackerFeedback
    requires Above(ts, id, execute, f)
    requires start ==> forall i: nat :: !ReadyAt(ts, i, f)
    ensures Enabled(ts, StepFor(ts, id, Work(agent, pr, start)))
    ensures var ts', shown := Apply(ts, StepFor(ts, id, Work(agent, pr, start))), if start then None else pr;
            && |ts'| == |ts| + 1 && SameRows(ts, ts', {id, execute})
            && DoneWith(ts[id], ts'[id], agent, shown) && StampedBy(ts[execute], ts'[execute], id, shown)
            && DeliveryRow(ts'[|ts|], id, ts'[id])
  {
    hide Inv, First, Last, EnsureDeliver, ReadyTriageFor, ReadyAt;
    FeedbackParent(ts, id);
    if start && ReadyTriageFor(ts, id).Some? {
      ReadyTriageIff(ts, id, execute, f, ReadyTriageFor(ts, id).value);
      assert false;
    }
    var shown := if start then None else pr;
    var done := ts[id := Finished(ts[id], agent, shown)];
    var base := done[execute := Restamped(done[execute], id, shown)];
    DeliveryIsNew(ts, base, id);
    PrefixRows(base, EnsureDeliver(base, id));
  }

  /** A request with a ready triage at hand: the feedback is done, nothing is delivered, and the cluster gets its
      implementation with the triage's brief and context, unless it has one. */
  lemma StartedRows(ts: Table, id: nat, agent: Outcome, pr: Option<string>, execute: nat, f: nat, i: nat)
    requires Inv(ts) && id < |ts| && ts[id].status.Processing? && ts[id].kind == TrackerFeedback
    requires Above(ts, id, execute, f) && ReadyAt(ts, i, f)
    ensures Enabled(ts, StepFor(ts, id, Work(agent, pr, true)))
    ensures var ts' := Apply(ts, StepFor(ts, id, Work(agent, pr, true)));
            && SameRows(ts, ts', {id}) && DoneWith(ts[id], ts'[id], agent, None)
            && if HasImplementation(ts, ts[f].root) then |ts'| == |ts|
               else
                 && |ts'| == |ts| + 1
                 && var t := ts'[|ts|];
                 && t.kind == Execute && t.action == Some(Implementation) && t.status == New
                 && t.parent == Some(f) && t.root == ts[f].root && t.externalParent == ts[i].externalParent
                 && t.handoff == Some(Handoff(i, ts[i].result.value.brief)) && t.context == ts[i].context
                 && t.external == None && t.pr == None && t.result == None
  {
    hide Inv, First, Last, ReadyTriageFor, NonBlank;
    FeedbackParent(ts, id);
    ReadyTriageIff(ts, id, execute, f, i);
    InvParts(ts);
    assert Placed(ts, i);
    ImplementationInRoot(ts, ts[f].root);
    BriefIsThere(ts[i]);
  }

  lemma BriefIsThere(t: Task)
    requires t.result.Some? && t.result.value.brief.Some?
    requires exists k :: 0 <= k < |t.result.value.brief.value| && !IsSpace(t.result.value.brief.value[k])
    ensures BriefOf(t) == t.result.value.brief
  {
  }

  lemma ImplementationInRoot(ts: Table, root: nat)
    ensures First(ts, ImplementationIn(root)).Some? <==> HasImplementation(ts, root)
  {
    hide First;
    forall i: nat | i < |ts|
      ensures Matches(ts[i], ImplementationIn(root))
              <==> ts[i].kind == Execute && ts[i].action == Some(Implementation) && ts[i].root == root
    {
    }
  }

  /** In a cluster that is ready and has no implementation, settling a comment gives it one exactly when the comment
      asks for it; otherwise no execute row is new and the comment gets its delivery. */
  lemma ImplementedIffAsked(ts: Table, id: nat, agent: Outcome, pr: Option<string>, start: bool, execute: nat, f: nat,
                            i: nat)
    requires Inv(ts) && id < |ts| && ts[id].status.Processing? && ts[id].kind == TrackerFeedback
    requires Above(ts, id, execute, f) && ReadyAt(ts, i, f) && !HasImplementation(ts, ts[f].root)
    ensures Enabled(ts, StepFor(ts, id, Work(agent, pr, start)))
    ensures var ts' := Apply(ts, StepFor(ts, id, Work(agent, pr, start)));
            && (HasImplementation(ts', ts[f].root) <==> start)
            && (!start ==> NoNewExecute(ts, ts'))
            && (HasDelivery(ts', id) <==> !start)
  {
    hide Inv, Enabled, StepFor, Apply, ReadyAt;
    NoDeliveryYet(ts, id);
    if start {
      StartedRows(ts, id, agent, pr, execute, f, i);
      var ts' := Apply(ts, StepFor(ts, id, Work(agent, pr, true)));
      assert ts'[|ts|].action == Some(Implementation);
    } else {
      AnsweredRows(ts, id, agent, pr, false, execute, f);
      var ts' := Apply(ts, StepFor(ts, id, Work(agent, pr, false)));
      assert ts'[|ts|].kind == Deliver && ts'[|ts|].parent == Some(id);
    }
  }

  lemma NoDeliveryYet(ts: Table, id: nat)
    requires Inv(ts) && id < |ts| && ts[id].status.Processing?
    ensures !HasDelivery(ts, id)
  {
    hide Inv;
    InvParts(ts);
  }

  // ---- Comments -------------------------------------------------------------

  /** Which executes take tracker comments: those without a pull request and with a tracker task, where a finished
      triage that spoke in the thread must be the last finished one of its fetch, and any other execute estimate-only.
  */
  lemma CommentableIff(ts: Table, execute: nat, f: nat, estimateOnly: bool)
    requires execute < |ts| && ts[execute].kind == Execute && ts[execute].parent == Some(f)
    ensures CanComment(ts, execute, estimateOnly)
            <==> && ts[execute].pr == None && ts[execute].externalParent != None
                 && if SpokeInThread(ts[execute])
                    then forall j :: execute < j < |ts| ==> !TriageAt(ts, j, f, Done)
                    else estimateOnly
  {
    hide Last;
    TriageQuery(ts, f, Done);
    SpokeIff(ts[execute]);
    if SpokeInThread(ts[execute]) {
      assert TriageAt(ts, execute, f, Done);
    }
  }

  /** A finished triage that escalated or left a comment. */
  predicate SpokeInThread(t: Task) {
    && t.kind == Execute && t.action == Some(Triage) && t.status == Done
    && t.result.Some? && t.result.value.delivery.Some?
    && var d := t.result.value.delivery.value;
    d.escalation.Some? || (d.comment.Some? && exists k :: 0 <= k < |d.comment.value| && !IsSpace(d.comment.value[k]))
  }

  lemma SpokeIff(t: Task)
    ensures IsThreadTriage(t) <==> SpokeInThread(t)
  {
  }

  /** A tracker comment adds one waiting feedback task below its execute, unless that comment already is one. */
  lemma CommentRows(ts: Table, execute: nat, comment: string, estimateOnly: bool)
    requires execute < |ts| && CanComment(ts, execute, estimateOnly)
    ensures var ts' := Apply(ts, CommentOnTask(execute, comment, estimateOnly));
            if exists i :: 0 <= i < |ts| && CommentTask(ts[i], execute, comment) then ts' == ts
            else
              && |ts'| == |ts| + 1 && SameRows(ts, ts', {})
              && var t := ts'[|ts|];
              && CommentTask(t, execute, comment) && t.status == New && t.root == ts[execute].root
              && t.externalParent == ts[execute].externalParent && t.result == None && t.pr == None
  {
    hide First, CanComment;
    forall i: nat | i < |ts|
      ensures Matches(ts[i], ChildWithExternal(execute, TrackerFeedback, comment))
              <==> CommentTask(ts[i], execute, comment)
    {
    }
  }

  predicate CommentTask(t: Task, execute: nat, comment: string) {
    t.kind == TrackerFeedback && t.parent == Some(execute) && t.external == Some(comment)
  }
}
