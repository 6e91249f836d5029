/**
 The task table: rows addressed by id (their position), the fields the protocol branches on, and the queries it
 decides by.
 */
module TaskModel {
  import opened Text

  datatype Kind = Fetch | Execute | Deliver | PrFeedback | TrackerFeedback

  datatype Status = New | Processing | Done | Failed

  datatype Action = Triage | Implementation

  datatype Escalation = Rfi | Decomposition | SystemDesign

  datatype Role = ImplementationRole | DeliverRole

  datatype Routing = Routing(createFollowup: bool, nextTask: Kind, nextRole: Role)

  datatype Delivery = Delivery(trackerStatus: Option<Status>, escalation: Option<Escalation>, comment: Option<string>)

  /** A result payload. `updatedBy` is the last feedback task that rewrote it. */
  datatype Outcome = Outcome(
    routing: Option<Routing>,
    delivery: Option<Delivery>,
    brief: Option<string>,
    updatedBy: Option<nat>)

  const NO_OUTCOME := Outcome(None, None, None, None)

  /** User-authored text together with its digest, so that nothing is assumed about the digest function. */
  datatype Content = Content(text: string, digest: string)

  const NO_CONTENT := Content("", "")

  /** A task context: the content snapshot and the protocol's own metadata keys. */
  datatype Context = Context(
    content: Content,
    storedHash: Option<string>,
    consumed: Option<nat>,
    prCursor: Option<string>)

  const NO_CONTEXT := Context(NO_CONTENT, None, None, None)

  datatype Handoff = Handoff(fromTask: nat, brief: Option<string>)

  datatype Task = Task(
    kind: Kind,
    status: Status,
    parent: Option<nat>,
    root: nat,
    external: Option<string>,
    externalParent: Option<string>,
    pr: Option<string>,
    action: Option<Action>,
    handoff: Option<Handoff>,
    context: Context,
    result: Option<Outcome>)

  type Table = seq<Task>

  /** What the tracker reports about one of its tasks. */
  datatype Snapshot = Snapshot(external: string, status: Status, content: Content)

  // ---- Queries --------------------------------------------------------------

  /** A conjunction of column tests; a column set to None is not tested. */
  datatype Where = Where(
    kind: Kind,
    status: Option<Status>,
    parent: Option<nat>,
    root: Option<nat>,
    action: Option<Action>,
    external: Option<string>,
    pr: Option<string>)

  const ANY_EXECUTE := Where(Execute, None, None, None, None, None, None)

  predicate Test<T(==)>(wanted: Option<T>, actual: Option<T>) {
    wanted.None? || wanted == actual
  }

  predicate Matches(t: Task, w: Where) {
    && t.kind == w.kind
    && Test(w.status, Some(t.status))
    && Test(w.parent, t.parent)
    && Test(w.root, Some(t.root))
    && Test(w.action, t.action)
    && Test(w.external, t.external)
    && Test(w.pr, t.pr)
  }

  /** The matching row with the lowest id. */
  function First(ts: Table, w: Where): (r: Option<nat>)
    ensures r.Some? ==> r.value < |ts| && Matches(ts[r.value], w) && forall j :: 0 <= j < r.value ==> !Matches(ts[j], w)
    ensures r.None? ==> forall j :: 0 <= j < |ts| ==> !Matches(ts[j], w)
  {
    if ts == [] then None
    else
      var earlier := First(ts[..|ts| - 1], w);
      if earlier.Some? then earlier
      else if Matches(ts[|ts| - 1], w) then Some(|ts| - 1)
      else None
  }

  /** The matching row with the highest id. */
  function Last(ts: Table, w: Where): (r: Option<nat>)
    ensures r.Some? ==> r.value < |ts| && Matches(ts[r.value], w)
                          && forall j :: r.value < j < |ts| ==> !Matches(ts[j], w)
    ensures r.None? ==> forall j :: 0 <= j < |ts| ==> !Matches(ts[j], w)
  {
    if ts == [] then None
    else if Matches(ts[|ts| - 1], w) then Some(|ts| - 1)
    else Last(ts[..|ts| - 1], w)
  }

  function FetchOf(external: string): Where {
    Where(Fetch, None, None, None, None, Some(external), None)
  }

  function ChildOf(parent: nat, kind: Kind): Where {
    Where(kind, None, Some(parent), None, None, None, None)
  }

  function ChildWithExternal(parent: nat, kind: Kind, external: string): Where {
    Where(kind, None, Some(parent), None, None, Some(external), None)
  }

  function TriageUnder(fetch: nat, status: Status): Where {
    ANY_EXECUTE.(status := Some(status), parent := Some(fetch), action := Some(Triage))
  }

  function ImplementationIn(root: nat): Where {
    ANY_EXECUTE.(root := Some(root), action := Some(Implementation))
  }

  function ImplementationWith(root: nat, status: Status): Where {
    ImplementationIn(root).(status := Some(status))
  }

  function ExecuteWithPr(pr: string): Where {
    ANY_EXECUTE.(pr := Some(pr))
  }

  // ---- What a result says ---------------------------------------------------

  predicate IsTriage(t: Task) {
    t.kind.Execute? && t.action == Some(Triage)
  }

  predicate IsImplementation(t: Task) {
    t.kind.Execute? && t.action == Some(Implementation)
  }

  predicate RoutesToImplementation(r: Outcome) {
    && r.brief.Some? && NonBlank(r.brief.value)
    && r.routing == Some(Routing(true, Execute, ImplementationRole))
  }

  /** A finished triage whose brief and routing allow an implementation to start. */
  predicate IsReady(t: Task) {
    t.status.Done? && IsTriage(t) && t.result.Some? && RoutesToImplementation(t.result.value)
  }

  predicate IsEscalated(t: Task) {
    t.result.Some? && t.result.value.delivery.Some? && t.result.value.delivery.value.escalation.Some?
  }

  /** A finished triage that spoke in the tracker thread, so that replies to it are feedback. */
  predicate IsThreadTriage(t: Task) {
    && t.status.Done? && IsTriage(t) && t.result.Some? && t.result.value.delivery.Some?
    && var d := t.result.value.delivery.value;
    d.escalation.Some? || (d.comment.Some? && NonBlank(d.comment.value))
  }

  datatype StoryPoints = One | Two | Three | Five | Eight | Thirteen

  function BriefSaved(sp: StoryPoints): string {
    "Triage SP=" + (match sp case One => "1" case Two => "2" case _ => "3") + ": Brief сохранён, передано в работу."
  }

  /** The result a triage decision is turned into: small tasks carry a brief, large ones escalate. */
  function TriageOutcome(sp: StoryPoints, markdown: string): Outcome {
    if sp.One? || sp.Two? || sp.Three? then
      Outcome(Some(Routing(true, Execute, ImplementationRole)), Some(Delivery(None, None, Some(BriefSaved(sp)))),
              Some(markdown), None)
    else
      var kind := match sp case Five => Rfi case Eight => Decomposition case _ => SystemDesign;
      Outcome(Some(Routing(false, Deliver, DeliverRole)), Some(Delivery(None, Some(kind), Some(markdown))), None, None)
  }
}
