/** What every step keeps, restarts included, and what holds as long as nothing is restarted. */
module ClusterInvariant {
  import opened Text
  import opened TaskModel
  import opened ClusterSteps

  // ---- The invariant --------------------------------------------------------

  /** Parents, roots and tracker ids: which kind of task hangs under which. */
  predicate Placed(ts: Table, i: nat)
    requires i < |ts|
  {
    var t := ts[i];
    && (t.action.Some? <==> t.kind.Execute?)
    && match t.kind
       case Fetch => t.parent.None? && t.root == i && t.status.Done? && t.external.Some?
       case Execute =>
         t.parent.Some? && t.parent.value < i && ts[t.parent.value].kind.Fetch?
         && t.root == ts[t.parent.value].root && t.externalParent == ts[t.parent.value].external
       case PrFeedback =>
         t.parent.Some? && t.parent.value < i && ts[t.parent.value].kind.Execute? && t.root == ts[t.parent.value].root
         && t.external.Some?
       case TrackerFeedback =>
         t.parent.Some? && t.parent.value < i && ts[t.parent.value].kind.Execute? && t.root == ts[t.parent.value].root
         && t.externalParent == ts[t.parent.value].externalParent && t.external.Some?
       case Deliver =>
         t.parent.Some? && t.parent.value < i
         && (ts[t.parent.value].kind.Execute? || ts[t.parent.value].kind.TrackerFeedback?)
         && t.root == ts[t.parent.value].root && t.externalParent == ts[t.parent.value].externalParent
  }

  predicate Forest(ts: Table) {
    forall i :: 0 <= i < |ts| ==> Placed(ts, i)
  }

  predicate OneFetch(ts: Table) {
    forall i, j :: 0 <= i < j < |ts| && ts[i].kind.Fetch? && ts[j].kind.Fetch? ==> ts[i].external != ts[j].external
  }

  /** A fetch is created together with its first triage, in the next row. */
  predicate FirstTriage(ts: Table) {
    forall i :: 0 <= i < |ts| && ts[i].kind.Fetch? ==>
      i + 1 < |ts| && IsTriage(ts[i + 1]) && ts[i + 1].parent == Some(i)
  }

  /** Whatever a worker finished has a result; a triage's is either ready or escalated, and asks for no tracker
      status. */
  predicate Decided(t: Task) {
    !t.kind.Fetch? && t.status.Done? ==>
      && t.result.Some?
      && (IsTriage(t) ==> IsReady(t) != IsEscalated(t) && IsThreadTriage(t)
                          && t.result.value.delivery.value.trackerStatus.None?)
  }

  predicate AllDecided(ts: Table) {
    forall i :: 0 <= i < |ts| ==> Decided(ts[i])
  }

  predicate OneImplementation(ts: Table) {
    forall i, j :: 0 <= i < j < |ts| && IsImplementation(ts[i]) && IsImplementation(ts[j]) ==> ts[i].root != ts[j].root
  }

  /** An implementation names, in its handoff, a finished and ready triage under the same fetch. */
  predicate HandedOff(ts: Table, i: nat)
    requires i < |ts|
  {
    IsImplementation(ts[i]) ==>
      && ts[i].handoff.Some?
      && var h := ts[i].handoff.value;
      && h.fromTask < i && IsReady(ts[h.fromTask]) && ts[h.fromTask].parent == ts[i].parent
      && h.brief == ts[h.fromTask].result.value.brief
  }

  predicate AllHandedOff(ts: Table) {
    forall i :: 0 <= i < |ts| ==> HandedOff(ts, i)
  }

  predicate DeliversAfterDone(ts: Table) {
    forall i :: 0 <= i < |ts| && ts[i].kind.Deliver? ==>
      ts[i].parent.Some? && ts[i].parent.value < |ts| && ts[ts[i].parent.value].status.Done?
  }

  predicate OneDeliver(ts: Table) {
    forall i, j :: 0 <= i < j < |ts| && ts[i].kind.Deliver? && ts[j].kind.Deliver? ==> ts[i].parent != ts[j].parent
  }

  predicate HasDeliver(ts: Table, i: nat) {
    exists j :: 0 <= j < |ts| && ts[j].kind.Deliver? && ts[j].parent == Some(i)
  }

  predicate DoneIsDelivered(ts: Table) {
    forall i :: 0 <= i < |ts| && ts[i].kind.Execute? && ts[i].status.Done? ==> HasDeliver(ts, i)
  }

  /** A consumed marker names a finished implementation of its own cluster. */
  predicate Consumed(ts: Table) {
    forall i :: 0 <= i < |ts| && ts[i].kind.Fetch? && ts[i].context.consumed.Some? ==>
      var d := ts[i].context.consumed.value;
      d < |ts| && IsImplementation(ts[d]) && ts[d].status.Done? && ts[d].root == ts[i].root
  }

  predicate IsFeedback(t: Task) {
    t.kind.PrFeedback? || t.kind.TrackerFeedback?
  }

  predicate OneFeedback(ts: Table) {
    forall i, j :: 0 <= i < j < |ts| && IsFeedback(ts[i]) && ts[i].kind == ts[j].kind && ts[i].parent == ts[j].parent
      ==> ts[i].external != ts[j].external
  }

  predicate Inv(ts: Table) {
    && Forest(ts) && OneFetch(ts) && FirstTriage(ts) && AllDecided(ts)
    && OneImplementation(ts) && AllHandedOff(ts)
    && DeliversAfterDone(ts) && OneDeliver(ts) && DoneIsDelivered(ts)
    && Consumed(ts) && OneFeedback(ts)
  }

  // ---- Without restarts -----------------------------------------------------

  predicate Active(t: Task) {
    t.status.New? || t.status.Processing?
  }

  predicate OneActiveTriage(ts: Table) {
    forall i, j :: 0 <= i < j < |ts| && IsTriage(ts[i]) && IsTriage(ts[j]) && Active(ts[i]) && Active(ts[j])
      ==> ts[i].parent != ts[j].parent
  }

  /** A triage that has not started yet will see exactly the content its fetch has on record. */
  predicate FreshTriage(ts: Table) {
    forall i :: 0 <= i < |ts| && IsTriage(ts[i]) && ts[i].status.New? ==>
      && ts[i].parent.Some? && ts[i].parent.value < |ts|
      && ts[ts[i].parent.value].context.storedHash == Some(ts[i].context.content.digest)
  }

  predicate Quiet(ts: Table) {
    OneActiveTriage(ts) && FreshTriage(ts)
  }

  // ---- How one step changes the table ---------------------------------------

  predicate SameIdentity(t: Task, t': Task) {
    t'.kind == t.kind && t'.parent == t.parent && t'.root == t.root && t'.external == t.external
    && t'.externalParent == t.externalParent && t'.action == t.action && t'.handoff == t.handoff
  }

  predicate StatusMove(a: Status, b: Status, step: Step) {
    || a == b
    || (a.New? && b.Processing? && step.Claim?)
    || (a.New? && b.Failed? && step.Poll?)
    || (a.Processing? && b.Done?)
    || (a.Processing? && b.Failed? && step.Fail?)
    || (a.Failed? && b.New? && step.Restart?)
  }

  /** Rows are never removed and never change identity, and statuses move only along the allowed edges. */
  predicate Evolves(ts: Table, ts': Table, step: Step) {
    && |ts| <= |ts'|
    && forall i :: 0 <= i < |ts| ==> SameIdentity(ts[i], ts'[i]) && StatusMove(ts[i].status, ts'[i].status, step)
  }

  /** What the result of a finished, ready triage keeps for ever. */
  predicate KeepsReady(t: Task, t': Task) {
    IsReady(t) ==> IsReady(t') && t'.result.value.brief == t.result.value.brief
  }

  predicate KeepsConsumed(ts: Table, t: Task, t': Task) {
    t.kind.Fetch? && t'.context.consumed != t.context.consumed ==>
      && t'.context.consumed.Some?
      && var d := t'.context.consumed.value;
      d < |ts| && IsImplementation(ts[d]) && ts[d].status.Done? && ts[d].root == t.root
  }

  /** What may be said of a row that was not there before. */
  predicate FreshRow(ts: Table, ts': Table, i: nat)
    requires i < |ts'|
  {
    var t := ts'[i];
    && Placed(ts', i)
    && (t.status.New? || t.kind.Fetch?)
    && match t.kind
       case Fetch =>
         && t.context.consumed.None?
         && (forall j :: 0 <= j < |ts| && ts[j].kind.Fetch? ==> ts[j].external != t.external)
         && i + 1 < |ts'| && IsTriage(ts'[i + 1]) && ts'[i + 1].parent == Some(i)
       case Execute =>
         IsImplementation(t) ==>
           HandedOff(ts', i) && forall j :: 0 <= j < |ts| && IsImplementation(ts[j]) ==> ts[j].root != t.root
       case Deliver =>
         && t.parent.value < |ts| && ts'[t.parent.value].status.Done?
         && forall j :: 0 <= j < |ts| && ts[j].kind.Deliver? ==> ts[j].parent != t.parent
       case _ =>
         forall j :: 0 <= j < |ts| && ts[j].kind == t.kind && ts[j].parent == t.parent ==> ts[j].external != t.external
  }

  predicate FreshRows(ts: Table, ts': Table) {
    && (forall i :: |ts| <= i < |ts'| ==> FreshRow(ts, ts', i))
    && (forall i, j :: |ts| <= i < j < |ts'| ==> ts'[i].kind != ts'[j].kind)
  }

  predicate OldRows(ts: Table, ts': Table, step: Step)
    requires |ts| <= |ts'|
  {
    forall i :: 0 <= i < |ts| ==>
      && KeepsReady(ts[i], ts'[i]) && KeepsConsumed(ts, ts[i], ts'[i]) && Decided(ts'[i])
      && (ts[i].kind.Execute? && ts'[i].status.Done? && !ts[i].status.Done? ==> HasDeliver(ts', i))
  }

  /** The shape of every step; the invariant follows from it alone. */
  predicate Moves(ts: Table, ts': Table, step: Step) {
    Evolves(ts, ts', step) && OldRows(ts, ts', step) && FreshRows(ts, ts')
  }

  lemma KeepsPlaces(ts: Table, ts': Table, step: Step)
    requires Inv(ts) && Moves(ts, ts', step)
    ensures Forest(ts') && OneFetch(ts') && FirstTriage(ts')
  {
    forall i | 0 <= i < |ts'| ensures Placed(ts', i) {
      if i < |ts| {
        assert Placed(ts, i);
      } else {
        assert FreshRow(ts, ts', i);
      }
    }
    forall i, j | 0 <= i < j < |ts'| && ts'[i].kind.Fetch? && ts'[j].kind.Fetch?
      ensures ts'[i].external != ts'[j].external
    {
      if |ts| <= j { assert FreshRow(ts, ts', j); }
    }
    forall i | 0 <= i < |ts'| && ts'[i].kind.Fetch?
      ensures i + 1 < |ts'| && IsTriage(ts'[i + 1]) && ts'[i + 1].parent == Some(i)
    {
      if |ts| <= i { assert FreshRow(ts, ts', i); }
    }
  }

  lemma KeepsImplementations(ts: Table, ts': Table, step: Step)
    requires Inv(ts) && Moves(ts, ts', step)
    ensures AllDecided(ts') && OneImplementation(ts') && AllHandedOff(ts')
  {
    forall i | 0 <= i < |ts'| ensures Decided(ts'[i]) && HandedOff(ts', i) {
      if |ts| <= i {
        assert FreshRow(ts, ts', i);
      } else {
        assert HandedOff(ts, i);
        if IsImplementation(ts[i]) {
          var from := ts[i].handoff.value.fromTask;
          assert KeepsReady(ts[from], ts'[from]);
        }
      }
    }
    forall i, j | 0 <= i < j < |ts'| && IsImplementation(ts'[i]) && IsImplementation(ts'[j])
      ensures ts'[i].root != ts'[j].root
    {
      if |ts| <= j { assert FreshRow(ts, ts', j); }
    }
  }

  lemma KeepsDeliveries(ts: Table, ts': Table, step: Step)
    requires Inv(ts) && Moves(ts, ts', step)
    ensures DeliversAfterDone(ts') && OneDeliver(ts') && DoneIsDelivered(ts')
  {
    forall i | 0 <= i < |ts'| && ts'[i].kind.Deliver?
      ensures ts'[i].parent.Some? && ts'[i].parent.value < |ts'| && ts'[ts'[i].parent.value].status.Done?
    {
      if |ts| <= i { assert FreshRow(ts, ts', i); }
    }
    forall i, j | 0 <= i < j < |ts'| && ts'[i].kind.Deliver? && ts'[j].kind.Deliver?
      ensures ts'[i].parent != ts'[j].parent
    {
      if |ts| <= j { assert FreshRow(ts, ts', j); }
    }
    forall i | 0 <= i < |ts'| && ts'[i].kind.Execute? && ts'[i].status.Done? ensures HasDeliver(ts', i) {
      assert |ts| <= i ==> FreshRow(ts, ts', i);
      if i < |ts| && ts[i].status.Done? {
        var j :| 0 <= j < |ts| && ts[j].kind.Deliver? && ts[j].parent == Some(i);
        assert ts'[j].kind.Deliver? && ts'[j].parent == Some(i);
      }
    }
  }

  lemma KeepsMarkers(ts: Table, ts': Table, step: Step)
    requires Inv(ts) && Moves(ts, ts', step)
    ensures Consumed(ts') && OneFeedback(ts')
  {
    forall i | 0 <= i < |ts'| && ts'[i].kind.Fetch? && ts'[i].context.consumed.Some?
      ensures var d := ts'[i].context.consumed.value;
              d < |ts'| && IsImplementation(ts'[d]) && ts'[d].status.Done? && ts'[d].root == ts'[i].root
    {
      assert |ts| <= i ==> FreshRow(ts, ts', i);
      if i < |ts| {
        assert KeepsConsumed(ts, ts[i], ts'[i]);
      }
    }
    forall i, j | 0 <= i < j < |ts'| && IsFeedback(ts'[i]) && ts'[i].kind == ts'[j].kind
                  && ts'[i].parent == ts'[j].parent
      ensures ts'[i].external != ts'[j].external
    {
      if |ts| <= j { assert FreshRow(ts, ts', j); }
    }
  }

  lemma MovesKeepInv(ts: Table, ts': Table, step: Step)
    requires Inv(ts) && Moves(ts, ts', step)
    ensures Inv(ts')
  {
    hide *;
    KeepsPlaces(ts, ts', step);
    KeepsImplementations(ts, ts', step);
    KeepsDeliveries(ts, ts', step);
    KeepsMarkers(ts, ts', step);
    InvFromParts(ts');
  }

  lemma InvFromParts(ts: Table)
    requires Forest(ts) && OneFetch(ts) && FirstTriage(ts) && AllDecided(ts)
    requires OneImplementation(ts) && AllHandedOff(ts)
    requires DeliversAfterDone(ts) && OneDeliver(ts) && DoneIsDelivered(ts)
    requires Consumed(ts) && OneFeedback(ts)
    ensures Inv(ts)
  {
  }
}
