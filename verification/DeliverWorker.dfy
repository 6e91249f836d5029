/** The deliver worker: what it writes to the tracker, and how its task ends. */
module DeliverWork {
  import opened Text
  import opened TaskModel
  import opened ClusterSteps
  import opened ClusterInvariant
  import opened ClusterSafety
  import opened Lineage
  import opened Repository

  datatype Note = Note(external: string, task: nat)

  /** The tracker as the pipeline writes to it. */
  class Tracker {
    var status: map<string, Status>
    var comments: seq<Note>

    constructor ()
      ensures status == map[] && comments == []
    {
      status, comments := map[], [];
    }

    method AddComment(external: string, task: nat)
      modifies this`comments
      ensures comments == old(comments) + [Note(external, task)]
    {
      comments := comments + [Note(external, task)];
    }

    method UpdateStatus(external: string, to: Status)
      modifies this`status
      ensures status == old(status)[external := to]
    {
      status := status[external := to];
    }
  }

  /** The result that a delivery carries out: a feedback's own, otherwise its execute's. */
  function ResultFor(ts: Table, id: nat): Option<Outcome>
    requires id < |ts|
  {
    var parent := ParentOf(ts, id);
    if parent.None? then None
    else if ts[parent.value].kind.TrackerFeedback? && ts[parent.value].result.None? then
      var above := ParentOf(ts, parent.value);
      if above.None? then None else ts[above.value].result
    else ts[parent.value].result
  }

  function TrackerOf(ts: Table, id: nat): Option<string>
    requires id < |ts|
  {
    if ts[id].root < |ts| then NonEmpty(ts[ts[id].root].external) else None
  }

  predicate Deliverable(ts: Table, id: nat, fault: Fault)
    requires id < |ts|
  {
    fault.Never? && ResultFor(ts, id).Some? && TrackerOf(ts, id).Some?
  }

  /** The task below which a delivery hangs has a result, and the root of its cluster a tracker id. */
  predicate Connected(ts: Table, id: nat)
    requires id < |ts|
  {
    && ts[id].parent.Some? && ts[id].parent.value < |ts| && ts[ts[id].parent.value].result.Some?
    && ts[id].root < |ts| && ts[ts[id].root].external.Some?
  }

  /** Where a delivery can be interrupted. */
  datatype Fault = Never | BeforeComment | BeforeStatus | BeforeCommit

  class DeliverWorker {
    const repository: TaskRepository
    const tracker: Tracker

    constructor (repository: TaskRepository, tracker: Tracker)
      ensures this.repository == repository && this.tracker == tracker
    {
      this.repository, this.tracker := repository, tracker;
    }

    /** The tracker task and the result of a claimed delivery, from its context. */
    method Resolve(id: nat) returns (external: Option<string>, outcome: Option<Outcome>)
      requires Inv(repository.rows) && id < |repository.rows| && repository.rows[id].kind.Deliver?
      ensures external == TrackerOf(repository.rows, id) && outcome == ResultFor(repository.rows, id)
    {
      hide Inv, Shape, Walk, FirstOfKind;
      var ts := repository.rows;
      DeliveryFlow(ts, id);
      var chain := repository.LoadTaskChain(ts[id].root);
      var flow := BuildFlow(chain, id);
      var feedback := FirstOfKind(chain, flow.value.lineage, TrackerFeedback);
      if feedback.Some? && chain[feedback.value].result.Some? {
        outcome := chain[feedback.value].result;
      } else {
        outcome := chain[flow.value.execute].result;
      }
      TrackerIsTheFetchs(ts, id);
      var resolved := ResolveTracker(chain, id);
      external := resolved.value;
    }

    /** A claimed delivery carries out the result of the task it hangs under, at the tracker task its cluster was
        fetched for. It posts its comment, then writes DONE when the result brings no instructions of its own, and
        otherwise the status the result asks for, if any; then it is done. An error on the way, or a nameless tracker
        task, fails it and leaves whatever was already written. */
    method Settle(id: nat, fault: Fault, agent: Outcome)
      requires Inv(repository.rows) && Running(repository.rows, id, Deliver)
      modifies repository, tracker
      ensures Connected(old(repository.rows), id)
      ensures var ts := old(repository.rows);
              var name, result := ts[ts[id].root].external.value, ts[ts[id].parent.value].result.value;
              var commented := name != "" && fault != BeforeComment;
              && repository.rows == (if name != "" && fault == Never
                                     then ts[id := ts[id].(status := Done, result := Some(agent))]
                                     else ts[id := ts[id].(status := Failed)])
              && tracker.comments == old(tracker.comments) + (if commented then [Note(name, id)] else [])
              && (commented && fault != BeforeStatus && result.delivery.None? ==>
                    tracker.status == old(tracker.status)[name := Done])
              && (commented && fault != BeforeStatus && result.delivery.Some? ==>
                    tracker.status == match result.delivery.value.trackerStatus
                                      case Some(status) => old(tracker.status)[name := status]
                                      case None => old(tracker.status))
              && (!commented || fault == BeforeStatus ==> tracker.status == old(tracker.status))
      ensures repository.rows == old(if Deliverable(repository.rows, id, fault)
                                     then Apply(repository.rows, FinishDeliver(id, agent))
                                     else Apply(repository.rows, Fail(id, None)))
    {
      hide Inv, ResultFor, TrackerOf;
      DeliveryRows(repository.rows, id);
      var external, outcome := Resolve(id);
      var t := repository.rows[id];
      if outcome.None? || external.None? || fault == BeforeComment {
        repository.rows := repository.rows[id := t.(status := Failed)];
        return;
      }
      tracker.AddComment(external.value, id);
      if fault == BeforeStatus {
        repository.rows := repository.rows[id := t.(status := Failed)];
        return;
      }
      var delivery := outcome.value.delivery;
      if delivery.None? {
        tracker.UpdateStatus(external.value, Done);
      } else if delivery.value.trackerStatus.Some? {
        tracker.UpdateStatus(external.value, delivery.value.trackerStatus.value);
      }
      if fault == BeforeCommit {
        repository.rows := repository.rows[id := t.(status := Failed)];
        return;
      }
      repository.rows := repository.rows[id := t.(status := Done, result := Some(agent))];
    }
  }

  // ---- What a delivery says -------------------------------------------------

  /** The lineage of a delivery, and the feedback in it if there is one. */
  lemma DeliveryFlow(ts: Table, id: nat)
    requires Inv(ts) && id < |ts| && ts[id].kind.Deliver?
    ensures Upward(ChainOf(ts, ts[id].root))
    ensures var chain := ChainOf(ts, ts[id].root);
            && BuildFlow(chain, id).Ok?
            && var flow := BuildFlow(chain, id).value;
            && (forall i :: i in flow.lineage ==> i in chain)
            && flow.execute in chain
            && var feedback := FirstOfKind(chain, flow.lineage, TrackerFeedback);
            && ResultFor(ts, id) == if feedback.Some? && chain[feedback.value].result.Some?
                                    then chain[feedback.value].result
                                    else chain[flow.execute].result
  {
    hide Inv, Shape, BuildFlow, Walk, FirstOfKind;
    FlowIsBuilt(ts, id);
    assert Forest(ts) by { InvForest(ts); }
    assert Placed(ts, id);
    AncestryInChain(ts, id);
    var chain, l, parent := ChainOf(ts, ts[id].root), Ancestry(ts, id), ts[id].parent.value;
    assert l == Ancestry(ts, parent) + [id];
    assert Placed(ts, parent);
    LongEnough(ts, parent);
    AncestryShape(ts, parent);
    if ts[parent].kind.TrackerFeedback? {
      var execute := ts[parent].parent.value;
      LongEnough(ts, execute);
      AncestryShape(ts, execute);
      assert Ancestry(ts, parent) == Ancestry(ts, execute) + [parent];
      FeedbackIn(ts, chain, l);
    } else {
      FeedbackIn(ts, chain, l);
    }
  }

  lemma FeedbackIn(ts: Table, chain: Chain, l: seq<nat>)
    requires Shape(ts, l) && forall i :: i in l ==> i in chain && chain[i] == ts[i]
    ensures |l| == 4 ==> FirstOfKind(chain, l, TrackerFeedback) == Some(l[2])
    ensures |l| == 3 && ts[l[2]].kind.Deliver? ==> FirstOfKind(chain, l, TrackerFeedback) == None
  {
    if |l| >= 3 {
      var rest := l[2..];
      assert l[1..][1..] == rest && l[1..][0] == l[1] && rest[0] == l[2];
      assert FirstOfKind(chain, l, TrackerFeedback) == FirstOfKind(chain, l[1..], TrackerFeedback);
      assert FirstOfKind(chain, l[1..], TrackerFeedback) == FirstOfKind(chain, rest, TrackerFeedback);
      if |l| == 3 {
        assert rest[1..] == [];
        assert FirstOfKind(chain, [], TrackerFeedback) == None;
      }
    }
  }

  /** Delivering a triage only comments: the tracker's status is never touched, however often feedback rewrote the
      triage's result in between. */
  lemma TriageDeliveryIsSilent(ts: Table, id: nat)
    requires Inv(ts) && id < |ts| && ts[id].kind.Deliver?
    requires ts[id].parent.Some? && ts[id].parent.value < |ts| && IsTriage(ts[ts[id].parent.value])
    ensures Connected(ts, id)
    ensures var result := ts[ts[id].parent.value].result.value;
            result.delivery.Some? && result.delivery.value.trackerStatus == None
  {
    hide Inv;
    DeliveryRows(ts, id);
    InvParts(ts);
    assert Decided(ts[ts[id].parent.value]);
  }

  /** In every reachable table a delivery's parent is finished and has a result, and its root is a named fetch. */
  lemma DeliveryRows(ts: Table, id: nat)
    requires Inv(ts) && id < |ts| && ts[id].kind.Deliver?
    ensures Connected(ts, id)
    ensures var name, result := ts[ts[id].root].external.value, ts[ts[id].parent.value].result.value;
            && ts[ts[id].root].kind == Fetch && ts[ts[id].parent.value].status == Done
            && ResultFor(ts, id) == Some(result) && TrackerOf(ts, id) == (if name == "" then None else Some(name))
  {
    hide Shape;
    assert Forest(ts) by { InvForest(ts); }
    assert Placed(ts, id);
    AncestryShape(ts, id);
    assert Placed(ts, Ancestry(ts, id)[0]);
    assert Decided(ts[ts[id].parent.value]);
  }

  /** A delivery never lacks a result, so without faults it fails only for an empty tracker id. */
  lemma DeliverableUnlessNameless(ts: Table, id: nat)
    requires Inv(ts) && id < |ts| && ts[id].kind.Deliver?
    ensures ts[id].root < |ts| && ts[ts[id].root].external.Some?
    ensures Deliverable(ts, id, Never) <==> ts[ts[id].root].external != Some("")
  {
    hide Inv, Shape;
    assert Forest(ts) by { InvForest(ts); }
    AncestryInChain(ts, id);
    AncestryShape(ts, id);
    FetchRoot(ts, id);
    ParentHasResult(ts, id);
  }

  lemma FetchRoot(ts: Table, id: nat)
    requires Forest(ts) && id < |ts|
    ensures ts[id].root < |ts| && ts[ts[id].root].external.Some?
  {
    AncestryShape(ts, id);
    assert Placed(ts, Ancestry(ts, id)[0]);
  }

  lemma ParentHasResult(ts: Table, id: nat)
    requires Inv(ts) && id < |ts| && ts[id].kind.Deliver?
    ensures ResultFor(ts, id).Some?
  {
    assert Placed(ts, id);
    assert Decided(ts[ts[id].parent.value]);
  }
}
