/** Walking from a task up to its root, and what the workers read off that walk. */
module Lineage {
  import opened Text
  import opened TaskModel
  import opened ClusterInvariant

  type Chain = map<nat, Task>

  // ---- The two walks --------------------------------------------------------

  /** Row ids only grow from parent to child, in every table this pipeline writes. */
  predicate Upward(chain: Chain) {
    forall id :: id in chain && chain[id].parent.Some? ==> chain[id].parent.value < id
  }

  /** Root first. */
  function Walk(chain: Chain, id: nat): Result<seq<nat>>
    requires Upward(chain) && id in chain
    decreases id
  {
    if chain[id].parent.None? then Ok([id])
    else if chain[id].parent.value !in chain then ValueError("Task chain is missing parent task")
    else Extend(Walk(chain, chain[id].parent.value), [id])
  }

  function Extend(above: Result<seq<nat>>, below: seq<nat>): Result<seq<nat>> {
    match above
    case ValueError(m) => ValueError(m)
    case Ok(ids) => Ok(ids + below)
  }

  lemma ExtendTwice(above: Result<seq<nat>>, x: nat, below: seq<nat>)
    ensures Extend(above, []) == above
    ensures Extend(Extend(above, [x]), below) == Extend(above, [x] + below)
  {
    if above.Ok? {
      assert above.value + [] == above.value;
      assert above.value + [x] + below == above.value + ([x] + below);
    }
  }

  function Reverse(s: seq<nat>): seq<nat> {
    if s == [] then [] else [s[|s| - 1]] + Reverse(s[..|s| - 1])
  }

  lemma ReverseAppend(s: seq<nat>, x: nat)
    ensures Reverse(s + [x]) == [x] + Reverse(s)
  {
    assert (s + [x])[..|s|] == s;
  }

  /** `ContextBuilder._build_lineage`: the cursor becomes None at the root. */
  method BuildLineage(chain: Chain, current: nat) returns (r: Result<seq<nat>>)
    requires Upward(chain) && current in chain
    ensures r == Walk(chain, current)
  {
    var lineage: seq<nat> := [];
    var cursor: Option<nat> := Some(current);
    ExtendTwice(Walk(chain, current), current, []);
    while cursor.Some?
      invariant cursor.Some? ==> cursor.value in chain
      invariant cursor.Some? ==> Walk(chain, current) == Extend(Walk(chain, cursor.value), Reverse(lineage))
      invariant cursor.None? ==> Walk(chain, current) == Ok(Reverse(lineage))
      decreases if cursor.Some? then cursor.value + 1 else 0
    {
      ReverseAppend(lineage, cursor.value);
      if chain[cursor.value].parent.Some? && chain[cursor.value].parent.value in chain {
        ExtendTwice(Walk(chain, chain[cursor.value].parent.value), cursor.value, Reverse(lineage));
      }
      lineage := lineage + [cursor.value];
      var parent := chain[cursor.value].parent;
      if parent.None? {
        cursor := None;
        continue;
      }
      if parent.value !in chain {
        return ValueError("Task chain is missing parent task");
      }
      cursor := parent;
    }
    r := Ok(Reverse(lineage));
  }

  /** `tracker_task_resolution._build_lineage`: the same walk, left by a break at the root. */
  method BuildTrackerLineage(chain: Chain, current: nat) returns (r: Result<seq<nat>>)
    requires Upward(chain) && current in chain
    ensures r == Walk(chain, current)
  {
    var lineage: seq<nat> := [];
    var cursor := current;
    ExtendTwice(Walk(chain, current), current, []);
    while true
      invariant cursor in chain
      invariant Walk(chain, current) == Extend(Walk(chain, cursor), Reverse(lineage))
      decreases cursor
    {
      ReverseAppend(lineage, cursor);
      if chain[cursor].parent.Some? && chain[cursor].parent.value in chain {
        ExtendTwice(Walk(chain, chain[cursor].parent.value), cursor, Reverse(lineage));
      }
      lineage := lineage + [cursor];
      var parent := chain[cursor].parent;
      if parent.None? {
        break;
      }
      if parent.value !in chain {
        return ValueError("Task chain is missing parent task");
      }
      cursor := parent.value;
    }
    r := Ok(Reverse(lineage));
  }

  // ---- Context and tracker task ---------------------------------------------

  function FirstOfKind(chain: Chain, lineage: seq<nat>, kind: Kind): (r: Option<nat>)
    requires forall id :: id in lineage ==> id in chain
    ensures r.Some? ==> r.value in chain && chain[r.value].kind == kind
  {
    if lineage == [] then None
    else if chain[lineage[0]].kind == kind then Some(lineage[0])
    else FirstOfKind(chain, lineage[1..], kind)
  }

  function NearestOfKind(chain: Chain, lineage: seq<nat>, kind: Kind): Option<nat>
    requires forall id :: id in lineage ==> id in chain
  {
    if lineage == [] then None
    else
      var last := |lineage| - 1;
      if chain[lineage[last]].kind == kind then Some(lineage[last])
      else NearestOfKind(chain, lineage[..last], kind)
  }

  lemma {:induction false} WalkStays(chain: Chain, id: nat)
    requires Upward(chain) && id in chain
    ensures Walk(chain, id).Ok? ==> forall i :: i in Walk(chain, id).value ==> i in chain
    decreases id
  {
    if chain[id].parent.Some? && chain[id].parent.value in chain {
      WalkStays(chain, chain[id].parent.value);
    }
  }

  datatype Flow = Flow(root: nat, lineage: seq<nat>, fetch: nat, execute: nat)

  /** Root, lineage, fetch and execute of a task, or the error its worker reports. A feedback task is created together
      with its comment, whose id is its external id. */
  function BuildFlow(chain: Chain, id: nat): Result<Flow>
    requires Upward(chain)
  {
    if id !in chain then ValueError("Task is not part of the provided chain")
    else if chain[id].root !in chain then ValueError("Task chain is missing root task")
    else
      WalkStays(chain, id);
      match Walk(chain, id)
      case ValueError(m) => ValueError(m)
      case Ok(lineage) =>
        var kind := chain[id].kind;
        var fetch := FirstOfKind(chain, lineage, Fetch);
        var execute := if kind.Execute? then Some(id) else NearestOfKind(chain, lineage, Execute);
        if kind.Fetch? then ValueError("Unsupported flow for task type")
        else if fetch.None? then ValueError("Task chain must include a fetch ancestor")
        else if execute.None? then ValueError("Task type requires an execute ancestor")
        else if (kind.PrFeedback? || kind.TrackerFeedback?) && chain[id].external.None? then
          ValueError("feedback task requires feedback payload")
        else Ok(Flow(chain[id].root, lineage, fetch.value, execute.value))
  }

  /** Python's truthiness of an optional string. */
  function NonEmpty(s: Option<string>): Option<string> {
    if s.Some? && s.value != "" then s else None
  }

  function Or(a: Option<string>, b: Option<string>): Option<string> {
    if NonEmpty(a).Some? then a else NonEmpty(b)
  }

  function ResolveTracker(chain: Chain, id: nat): Result<Option<string>>
    requires Upward(chain)
  {
    if id !in chain then ValueError("Task is not part of the provided chain")
    else
      WalkStays(chain, id);
      match Walk(chain, id)
      case ValueError(m) => ValueError(m)
      case Ok(lineage) =>
        var t := chain[id];
        var own := match t.kind
          case Fetch => t.external
          case PrFeedback => None
          case _ => t.externalParent;
        var execute := FirstOfKind(chain, lineage, Execute);
        var fetch := FirstOfKind(chain, lineage, Fetch);
        var fromExecute := if execute.Some? then chain[execute.value].externalParent else None;
        var fromFetch := if fetch.Some? then chain[fetch.value].external else None;
        var fromRoot := if lineage == [] then None else chain[lineage[0]].external;
        Ok(Or(own, Or(fromExecute, Or(fromFetch, fromRoot))))
  }

  // ---- In every table the pipeline writes -----------------------------------

  function ChainOf(ts: Table, root: nat): Chain {
    map i: nat | 0 <= i < |ts| && ts[i].root == root :: ts[i]
  }

  function Ancestry(ts: Table, id: nat): seq<nat>
    requires Forest(ts) && id < |ts|
    decreases id
  {
    assert Placed(ts, id);
    if ts[id].parent.None? then [id] else Ancestry(ts, ts[id].parent.value) + [id]
  }

  lemma ChainUpward(ts: Table, root: nat)
    requires Forest(ts)
    ensures Upward(ChainOf(ts, root))
  {
    forall id | id in ChainOf(ts, root) && ts[id].parent.Some? ensures ts[id].parent.value < id {
      assert Placed(ts, id);
    }
  }

  /** The walk over the cluster's rows finds every ancestor. */
  lemma {:induction false} WalkFindsAncestry(ts: Table, id: nat)
    requires Forest(ts) && id < |ts|
    ensures Upward(ChainOf(ts, ts[id].root))
    ensures Walk(ChainOf(ts, ts[id].root), id) == Ok(Ancestry(ts, id))
    decreases id
  {
    ChainUpward(ts, ts[id].root);
    assert Placed(ts, id);
    if ts[id].parent.Some? {
      WalkFindsAncestry(ts, ts[id].parent.value);
    }
  }

  /** The five lineages there are: a fetch, its execute, feedback on it, and a delivery of either. */
  predicate Shape(ts: Table, l: seq<nat>) {
    && (forall k :: 0 <= k < |l| ==> l[k] < |ts|)
    && 1 <= |l| <= 4 && ts[l[0]].kind.Fetch?
    && (|l| >= 2 ==> ts[l[1]].kind.Execute?)
    && (|l| == 3 ==> ts[l[2]].kind.PrFeedback? || ts[l[2]].kind.TrackerFeedback? || ts[l[2]].kind.Deliver?)
    && (|l| == 4 ==> ts[l[2]].kind.TrackerFeedback? && ts[l[3]].kind.Deliver?)
  }

  lemma {:induction false} AncestryShape(ts: Table, id: nat)
    requires Forest(ts) && id < |ts|
    ensures var l := Ancestry(ts, id);
            && Shape(ts, l) && l[|l| - 1] == id && l[0] == ts[id].root
            && (forall i :: i in l ==> ts[i].root == ts[id].root)
            && (ts[id].kind.Execute? || ts[id].kind.Deliver? || ts[id].kind.TrackerFeedback?
                ==> ts[id].externalParent == ts[ts[id].root].external)
    decreases id
  {
    assert Placed(ts, id);
    if ts[id].parent.Some? {
      AncestryShape(ts, ts[id].parent.value);
    }
  }

  lemma ShapeLookups(ts: Table, chain: Chain, l: seq<nat>)
    requires Shape(ts, l) && forall i :: i in l ==> i in chain && chain[i] == ts[i]
    ensures FirstOfKind(chain, l, Fetch) == Some(l[0])
    ensures |l| >= 2 ==> FirstOfKind(chain, l, Execute) == NearestOfKind(chain, l, Execute) == Some(l[1])
    ensures |l| == 1 ==> FirstOfKind(chain, l, Execute) == None
  {
    if |l| >= 2 {
      assert l[1..][0] == l[1];
      if |l| >= 3 { assert l[..|l| - 1][|l| - 2] == l[|l| - 2]; }
      if |l| == 4 { assert l[..3][..2][1] == l[1]; }
    }
  }

  /** Every worker-owned task gets a context without error; it starts at the recorded root, which is its fetch, and
      the nearest execute, which the context uses, is the first one, which the tracker lookup uses. */
  lemma FlowIsBuilt(ts: Table, id: nat)
    requires Inv(ts) && id < |ts| && !ts[id].kind.Fetch?
    ensures Upward(ChainOf(ts, ts[id].root))
    ensures var chain := ChainOf(ts, ts[id].root);
            var l := Ancestry(ts, id);
            && Shape(ts, l) && |l| >= 2 && l[|l| - 1] == id
            && (forall i :: i in l ==> i in chain)
            && BuildFlow(chain, id) == Ok(Flow(ts[id].root, l, ts[id].root, l[1]))
            && l[0] == ts[id].root && FirstOfKind(chain, l, Execute) == Some(l[1])
  {
    hide Inv, Shape;
    assert Forest(ts) by { InvForest(ts); }
    WalkFindsAncestry(ts, id);
    AncestryShape(ts, id);
    LongEnough(ts, id);
    var chain, l := ChainOf(ts, ts[id].root), Ancestry(ts, id);
    AncestryInChain(ts, id);
    ShapeLookups(ts, chain, l);
    assert Placed(ts, id) && chain[id] == ts[id];
  }

  lemma InvForest(ts: Table)
    requires Inv(ts)
    ensures Forest(ts)
  {
  }

  lemma LongEnough(ts: Table, id: nat)
    requires Forest(ts) && id < |ts| && !ts[id].kind.Fetch?
    ensures |Ancestry(ts, id)| >= 2
    ensures ts[id].kind.Execute? ==> |Ancestry(ts, id)| == 2
  {
    assert Placed(ts, id);
    AncestryShape(ts, ts[id].parent.value);
    if ts[id].kind.Execute? {
      assert Placed(ts, ts[id].parent.value);
    }
  }

  lemma AncestryInChain(ts: Table, id: nat)
    requires Forest(ts) && id < |ts|
    ensures ts[id].root < |ts|
    ensures var chain := ChainOf(ts, ts[id].root);
            forall i :: i in Ancestry(ts, id) ==> i in chain && chain[i] == ts[i]
  {
    AncestryShape(ts, id);
  }

  /** Whatever a task is, its tracker task is the one its cluster was fetched for. */
  lemma TrackerIsTheFetchs(ts: Table, id: nat)
    requires Inv(ts) && id < |ts|
    ensures Upward(ChainOf(ts, ts[id].root)) && ts[id].root < |ts|
    ensures ResolveTracker(ChainOf(ts, ts[id].root), id) == Ok(NonEmpty(ts[ts[id].root].external))
  {
    hide Inv, Shape;
    assert Forest(ts) by { InvForest(ts); }
    WalkFindsAncestry(ts, id);
    AncestryShape(ts, id);
    AncestryInChain(ts, id);
    var chain, l := ChainOf(ts, ts[id].root), Ancestry(ts, id);
    ShapeLookups(ts, chain, l);
    if |l| >= 2 {
      SecondIsExecute(ts, l);
      AncestryShape(ts, l[1]);
    } else {
      SecondIsExecute(ts, l);
    }
  }

  lemma SecondIsExecute(ts: Table, l: seq<nat>)
    requires Shape(ts, l)
    ensures |l| >= 2 ==> l[1] < |ts| && ts[l[1]].kind.Execute?
    ensures |l| >= 1 && l[0] < |ts| && ts[l[0]].kind.Fetch?
  {
  }
}
