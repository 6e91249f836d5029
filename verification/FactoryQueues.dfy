/** Who is served next, and that nobody idles beside a waiting ticket. */
module FactoryQueues {
  import opened FactoryModel
  import opened FactoryMoves
  import opened FactoryRuns

  predicate OldestFirst(w: World, ids: seq<nat>)
    requires Known(w, ids)
  {
    forall i, j :: 0 <= i < j < |ids| ==> w.tickets[ids[i]].created <= w.tickets[ids[j]].created
  }

  lemma {:induction false} InsertOrders(w: World, ids: seq<nat>, id: nat)
    requires id < |w.tickets| && Known(w, ids) && OldestFirst(w, ids)
    ensures OldestFirst(w, Insert(w, ids, id))
  {
    var last := |ids| - 1;
    if ids != [] && w.tickets[ids[last]].created > w.tickets[id].created {
      InsertOrders(w, ids[..last], id);
      var front := Insert(w, ids[..last], id);
      forall i | 0 <= i < |front| ensures w.tickets[front[i]].created <= w.tickets[ids[last]].created {
        assert front[i] in multiset(front);
        assert front[i] in ids[..last] || front[i] == id;
      }
    }
  }

  lemma {:induction false} ByAgeOrders(w: World, ids: seq<nat>)
    requires Known(w, ids)
    ensures OldestFirst(w, ByAge(w, ids))
  {
    if ids != [] {
      var last := |ids| - 1;
      ByAgeOrders(w, ids[..last]);
      InsertOrders(w, ByAge(w, ids[..last]), ids[last]);
    }
  }

  /** After the assignments of a tick, a station's queue is empty or all its agents are busy. */
  lemma {:induction false} NobodyIdles(w: World, s: nat, strategy: Strategy, luck: Luck)
    requires Floor(w) && s < STATIONS && Fair(luck)
    ensures var st := AssignAll(w, s, strategy, luck).stations[s];
            st.queue == [] || forall k :: 0 <= k < |st.agents| ==> st.agents[k].ticket.Some?
    decreases |w.stations[s].queue|
  {
    FloorAt(w, s);
    hide Floor, Everywhere, Fair;
    if w.stations[s].queue != [] && Choose(w.stations[s], strategy).Chosen? {
      var c := Choose(w.stations[s], strategy);
      AssignKeeps(w, s, c.agent, c.turn, strategy, luck);
      NobodyIdles(Assigned(w, s, c.agent, c.turn, strategy, luck), s, strategy, luck);
    }
  }

  /** First come, first served: what is left of the queue is its tail. */
  lemma {:induction false} ServedInOrder(w: World, s: nat, strategy: Strategy, luck: Luck) returns (m: nat)
    requires Floor(w) && s < STATIONS && Fair(luck) && !strategy.Priority?
    ensures m <= |w.stations[s].queue|
    ensures AssignAll(w, s, strategy, luck).stations[s].queue == w.stations[s].queue[m..]
    decreases |w.stations[s].queue|
  {
    FloorAt(w, s);
    hide Floor, Everywhere, Fair;
    m := 0;
    if w.stations[s].queue != [] && Choose(w.stations[s], strategy).Chosen? {
      var c := Choose(w.stations[s], strategy);
      AssignKeeps(w, s, c.agent, c.turn, strategy, luck);
      var rest := ServedInOrder(Assigned(w, s, c.agent, c.turn, strategy, luck), s, strategy, luck);
      m := rest + 1;
      assert w.stations[s].queue[1..][rest..] == w.stations[s].queue[m..];
    }
  }

  /** By priority: whoever was taken is at least as old as whoever still waits. */
  lemma {:induction false} ServedByAge(w: World, s: nat, luck: Luck, x: nat, y: nat)
    requires Floor(w) && s < STATIONS && Fair(luck)
    requires var left := AssignAll(w, s, Priority, luck).stations[s].queue;
             x in w.stations[s].queue && x !in left && y in left
    ensures y in w.stations[s].queue
    ensures x < |w.tickets| && y < |w.tickets| && w.tickets[x].created <= w.tickets[y].created
    decreases |w.stations[s].queue|
  {
    FloorAt(w, s);
    QueueInRange(w, s);
    var st := w.stations[s];
    hide Floor, Everywhere, Fair, Choose;
    if st.queue != [] && Choose(st, Priority).Chosen? {
      var c := Choose(st, Priority);
      AssignKeeps(w, s, c.agent, c.turn, Priority, luck);
      var next := Assigned(w, s, c.agent, c.turn, Priority, luck);
      var line := Serving(w, s, Priority);
      ByAgeOrders(w, st.queue);
      Reordered(st.queue, line);
      assert next.stations[s].queue == line[1..] && line == [line[0]] + line[1..];
      var left := AssignAll(w, s, Priority, luck).stations[s].queue;
      assert left == AssignAll(next, s, Priority, luck).stations[s].queue;
      LeftWaited(next, s, Priority, luck, y);
      if x != line[0] {
        ServedByAge(next, s, luck, x, y);
      }
    }
  }

  lemma {:induction false} LeftWaited(w: World, s: nat, strategy: Strategy, luck: Luck, y: nat)
    requires Floor(w) && s < STATIONS && Fair(luck)
    requires y in AssignAll(w, s, strategy, luck).stations[s].queue
    ensures y in w.stations[s].queue
    decreases |w.stations[s].queue|
  {
    FloorAt(w, s);
    var st := w.stations[s];
    hide Floor, Everywhere, Fair, Choose;
    if st.queue != [] && Choose(st, strategy).Chosen? {
      var c := Choose(st, strategy);
      AssignKeeps(w, s, c.agent, c.turn, strategy, luck);
      LeftWaited(Assigned(w, s, c.agent, c.turn, strategy, luck), s, strategy, luck, y);
      var line := Serving(w, s, strategy);
      Reordered(st.queue, line);
    }
  }
}
