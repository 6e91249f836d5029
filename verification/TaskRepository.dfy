/** The task table as the repository object that reads and changes it. */
module Repository {
  import opened Text
  import opened TaskModel
  import opened ClusterSteps
  import opened Lineage

  function Waiting(kind: Kind): Where {
    Where(kind, Some(New), None, None, None, None, None)
  }

  /** Among the first `n` rows, the waiting one with the least update time and then the least id. */
  predicate IsNext(ts: Table, kind: Kind, updatedAt: nat -> int, n: nat, id: nat) {
    && id < n <= |ts| && Matches(ts[id], Waiting(kind))
    && forall j :: 0 <= j < n && Matches(ts[j], Waiting(kind)) ==>
         updatedAt(id) < updatedAt(j) || (updatedAt(id) == updatedAt(j) && id <= j)
  }

  class TaskRepository {
    var rows: Table

    constructor ()
      ensures rows == []
    {
      rows := [];
    }

    /** Every `find_*` that orders by ascending id. */
    method FindFirst(w: Where) returns (r: Option<nat>)
      ensures r == First(rows, w)
    {
      hide First;
      var i := 0;
      while i < |rows|
        invariant 0 <= i <= |rows|
        invariant forall j :: 0 <= j < i ==> !Matches(rows[j], w)
      {
        if Matches(rows[i], w) {
          return Some(i);
        }
        i := i + 1;
      }
      r := None;
    }

    /** Every `find_*` that orders by descending id. */
    method FindLast(w: Where) returns (r: Option<nat>)
      ensures r == Last(rows, w)
    {
      hide Last;
      var i := |rows|;
      while i > 0
        invariant 0 <= i <= |rows|
        invariant forall j :: i <= j < |rows| ==> !Matches(rows[j], w)
      {
        i := i - 1;
        if Matches(rows[i], w) {
          return Some(i);
        }
      }
      r := None;
    }

    /** A root id needs a parent, the parent must exist, and the root must be the parent's; a task without a parent
        is its own root. */
    method CreateTask(row: Task, root: Option<nat>) returns (r: Result<nat>)
      modifies this
      ensures r.Ok? <==>
                if row.parent.None? then root.None?
                else row.parent.value < |old(rows)| && Test(root, Some(old(rows)[row.parent.value].root))
      ensures r.ValueError? ==> rows == old(rows)
      ensures r.Ok? ==> r.value == |old(rows)|
      ensures r.Ok? ==> rows == old(rows) + [row.(root := if row.parent.None? then r.value
                                                          else old(rows)[row.parent.value].root)]
    {
      if row.parent.None? && root.Some? {
        return ValueError("root_id cannot be set without parent_id");
      }
      var resolved := root;
      if row.parent.Some? {
        if row.parent.value >= |rows| {
          return ValueError("Parent task does not exist");
        }
        var parentRoot := rows[row.parent.value].root;
        if resolved.None? {
          resolved := Some(parentRoot);
        } else if resolved.value != parentRoot {
          return ValueError("root_id must match the parent task chain");
        }
      }
      var id := |rows|;
      rows := rows + [row.(root := if resolved.Some? then resolved.value else id)];
      r := Ok(id);
    }

    method LoadTaskChain(root: nat) returns (chain: Chain)
      ensures chain == ChainOf(rows, root)
    {
      chain := map[];
      for i := 0 to |rows|
        invariant chain == map k: nat | 0 <= k < i && rows[k].root == root :: rows[k]
      {
        if rows[i].root == root {
          chain := chain[i := rows[i]];
        }
      }
    }

    /** Claims the waiting task of the kind that was not updated for the longest time, the first of them on a tie;
        finding it and marking it running is a single step. */
    method PollTask(kind: Kind, updatedAt: nat -> int) returns (r: Option<nat>)
      requires !kind.Fetch?
      modifies this
      ensures r.None? <==> forall j :: 0 <= j < |old(rows)| ==> !Matches(old(rows)[j], Waiting(kind))
      ensures r.Some? ==> IsNext(old(rows), kind, updatedAt, |old(rows)|, r.value)
      ensures r.None? ==> rows == old(rows)
      ensures r.Some? ==> Enabled(old(rows), Claim(r.value)) && rows == Apply(old(rows), Claim(r.value))
    {
      r := None;
      for i := 0 to |rows|
        invariant r.None? ==> forall j :: 0 <= j < i ==> !Matches(rows[j], Waiting(kind))
        invariant r.Some? ==> IsNext(rows, kind, updatedAt, i, r.value)
      {
        if Matches(rows[i], Waiting(kind)) && (r.None? || updatedAt(i) < updatedAt(r.value)) {
          r := Some(i);
        }
      }
      if r.Some? {
        rows := rows[r.value := rows[r.value].(status := Processing)];
      }
    }

    method RestartFailedTask(id: nat) returns (r: Result<nat>)
      modifies this
      ensures r.Ok? <==> id < |old(rows)|
      ensures r.ValueError? ==> rows == old(rows)
      ensures r.Ok? ==> rows == old(rows)[id := old(rows)[id].(status := New, result := None)]
    {
      if id >= |rows| {
        return ValueError("Task does not exist");
      }
      rows := rows[id := rows[id].(status := New, result := None)];
      r := Ok(id);
    }
  }

  datatype Response = Restarted(id: nat) | NotFound | Conflict

  /** The restart endpoint refuses anything but a failed, worker-owned task. */
  method RestartTask(repository: TaskRepository, id: nat) returns (r: Response)
    modifies repository
    ensures var ts := old(repository.rows);
            r.Restarted? <==> id < |ts| && ts[id].status == Failed
                              && ts[id].kind in {Execute, Deliver, PrFeedback, TrackerFeedback}
    ensures r.Restarted? ==>
              r.id == id && repository.rows == old(repository.rows)[id :=
                old(repository.rows)[id].(status := New, result := None)]
    ensures !r.Restarted? ==> repository.rows == old(repository.rows)
    ensures r.NotFound? <==> id >= |old(repository.rows)|
    ensures r.Restarted? <==> Enabled(old(repository.rows), Restart(id))
    ensures r.Restarted? ==> repository.rows == Apply(old(repository.rows), Restart(id))
  {
    if id >= |repository.rows| {
      return NotFound;
    }
    var task := repository.rows[id];
    if task.kind !in {Execute, Deliver, PrFeedback, TrackerFeedback} {
      return Conflict;
    }
    if task.status != Failed {
      return Conflict;
    }
    var restarted := repository.RestartFailedTask(id);
    r := Restarted(id);
  }
}
