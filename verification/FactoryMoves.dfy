/** Every single move keeps the floor in order and loses no ticket. */
module FactoryMoves {
  import opened Text
  import opened FactoryModel

  // ---- Counting -------------------------------------------------------------

  lemma {:induction false} QueuedUpdate(stations: seq<Station>, s: nat, st: Station)
    requires s < |stations|
    ensures Queued(stations[s := st]) == Queued(stations) - |stations[s].queue| + |st.queue|
    ensures Working(stations[s := st]) == Working(stations) - Busy(stations[s].agents) + Busy(st.agents)
  {
    var last := |stations| - 1;
    if s == last {
      assert stations[s := st][..last] == stations[..last];
    } else {
      assert stations[s := st][..last] == stations[..last][s := st];
      QueuedUpdate(stations[..last], s, st);
    }
  }

  lemma {:induction false} BusyUpdate(agents: seq<Agent>, k: nat, a: Agent)
    requires k < |agents|
    ensures Busy(agents[k := a])
            == Busy(agents) - (if agents[k].ticket.Some? then 1 else 0) + (if a.ticket.Some? then 1 else 0)
  {
    var last := |agents| - 1;
    if k == last {
      assert agents[k := a][..last] == agents[..last];
    } else {
      assert agents[k := a][..last] == agents[..last][k := a];
      BusyUpdate(agents[..last], k, a);
    }
  }

  lemma BusyAppend(agents: seq<Agent>, a: Agent)
    ensures Busy(agents + [a]) == Busy(agents) + if a.ticket.Some? then 1 else 0
  {
    assert (agents + [a])[..|agents|] == agents;
  }

  /** Nothing appears and nothing gets lost. */
  predicate Keeps(w: World, w': World) {
    && Floor(w')
    && |w'.tickets| == |w.tickets| && Everywhere(w') == Everywhere(w)
    && w'.tick == w.tick && w'.lastSpawn == w.lastSpawn
  }

  // ---- Lists of names -------------------------------------------------------

  lemma NoDupCounts(ids: seq<nat>)
    ensures NoDup(ids) <==> forall x :: multiset(ids)[x] <= 1
  {
    if ids != [] {
      var last := |ids| - 1;
      NoDupCounts(ids[..last]);
      assert ids == ids[..last] + [ids[last]];
      assert forall i :: 0 <= i < last ==> ids[i] in ids[..last];
      if NoDup(ids) {
        assert NoDup(ids[..last]);
        assert ids[last] !in ids[..last];
        assert multiset(ids[..last])[ids[last]] == 0;
      } else {
        var i, j :| 0 <= i < j < |ids| && ids[i] == ids[j];
        if j == last {
          assert ids[last] in multiset(ids[..last]);
          assert multiset(ids)[ids[last]] >= 2;
        } else {
          assert ids[..last][i] == ids[..last][j];
          var x :| multiset(ids[..last])[x] > 1;
          assert multiset(ids)[x] > 1;
        }
      }
    }
  }

  lemma Reordered(ids: seq<nat>, line: seq<nat>)
    requires multiset(ids) == multiset(line) && NoDup(ids)
    ensures NoDup(line)
    ensures forall x :: x in line <==> x in ids
  {
    NoDupCounts(ids);
    NoDupCounts(line);
    assert forall x :: x in line <==> x in multiset(line);
  }

  lemma WithoutOne(ids: seq<nat>, i: nat)
    requires i < |ids| && NoDup(ids)
    ensures NoDup(Without(ids, i)) && |Without(ids, i)| == |ids| - 1
    ensures forall x :: x in Without(ids, i) <==> x in ids && x != ids[i]
  {
    var rest := Without(ids, i);
    forall x | x in ids && x != ids[i] ensures x in rest {
      var j :| 0 <= j < |ids| && ids[j] == x;
      assert j != i;
      assert x == if j < i then rest[j] else rest[j - 1];
    }
  }

  lemma StillHeld(agents: seq<Agent>, k: nat, a: Agent, id: nat)
    requires k < |agents| && HeldBy(agents, id) && agents[k].ticket != Some(id)
    ensures HeldBy(agents[k := a], id)
  {
    var j :| 0 <= j < |agents| && agents[j].ticket == Some(id);
    assert agents[k := a][j].ticket == Some(id);
  }

  // ---- Moves ----------------------------------------------------------------

  lemma SpawnKeeps(w: World, spawnEvery: int)
    requires Floor(w)
    ensures var w' := Spawned(w, spawnEvery);
            Floor(w') && Everywhere(w') - |w'.tickets| == Everywhere(w) - |w.tickets|
  {
    var w' := Spawned(w, spawnEvery);
    forall s | 0 <= s < STATIONS ensures QueueOk(w', s) && AgentsOk(w', s) {
      assert QueueOk(w, s) && AgentsOk(w, s);
    }
    forall id | 0 <= id < |w'.tickets| ensures Found(w', id) {
      assert id < |w.tickets| ==> Found(w, id);
      if id == |w.tickets| {
        assert w'.stations[0].queue[|w.stations[0].queue|] == id;
      }
    }
    assert w'.stations == w.stations || w'.stations == w.stations[0 := w'.stations[0]];
    QueuedUpdate(w.stations, 0, w'.stations[0]);
  }

  lemma BeltKeeps(w: World, i: nat)
    requires Floor(w) && i < |w.inFlight|
    ensures Keeps(w, BeltMoved(w, i))
  {
    hide Queued, Working;
    var w' := BeltMoved(w, i);
    var id := w.inFlight[i];
    assert BeltsOk(w) && ShippedOk(w) && Rides(w, id);
    var to := w.tickets[id].beltTo.value;
    forall s | 0 <= s < STATIONS ensures QueueOk(w', s) && AgentsOk(w', s) {
      BeltKeepsStation(w, i, s);
    }
    WithoutOne(w.inFlight, i);
    if w.tickets[id].beltProg + 1 >= BELT_TICKS {
      QueuedUpdate(w.stations, to, w'.stations[to]);
      assert w'.stations[to].queue[|w.stations[to].queue|] == id;
    }
    forall x | 0 <= x < |w'.tickets| ensures Found(w', x) {
      assert Found(w, x);
    }
    hide Floor;
    assert BeltsOk(w') && ShippedOk(w');
    FloorFrom(w');
  }

  lemma BeltKeepsStation(w: World, i: nat, s: nat)
    requires Floor(w) && i < |w.inFlight| && s < STATIONS
    ensures |BeltMoved(w, i).stations| == STATIONS
    ensures QueueOk(BeltMoved(w, i), s) && AgentsOk(BeltMoved(w, i), s)
  {
    assert Rides(w, w.inFlight[i]) && QueueOk(w, s) && AgentsOk(w, s);
  }

  /** Only one station's queue and agents changed, and only the records of tickets that are there. */
  predicate Inside(w: World, w': World, s: nat) {
    && |w.stations| == |w'.stations| == STATIONS && s < STATIONS
    && w' == w.(tickets := w'.tickets, stations := w.stations[s := w'.stations[s]])
    && |w'.tickets| == |w.tickets|
    && forall x :: 0 <= x < |w.tickets| && w'.tickets[x] != w.tickets[x] ==> Indoors(w, x, s) && Indoors(w', x, s)
  }

  predicate Indoors(w: World, x: nat, s: nat) {
    x < |w.tickets| && w.tickets[x].station == s && (w.tickets[x].pos.InQueue? || w.tickets[x].pos.AtWork?)
  }

  lemma InsideKeeps(w: World, w': World, s: nat)
    requires Floor(w) && Inside(w, w', s)
    requires QueueOk(w', s) && AgentsOk(w', s)
    requires forall x :: Indoors(w', x, s) ==> Found(w', x)
    ensures Floor(w')
  {
    forall j | 0 <= j < STATIONS ensures QueueOk(w', j) && AgentsOk(w', j) {
      assert QueueOk(w, j) && AgentsOk(w, j);
    }
    forall x | 0 <= x < |w'.tickets| ensures Found(w', x) {
      assert Found(w, x);
      assert !Indoors(w', x, s) ==> w'.tickets[x] == w.tickets[x];
    }
  }

  lemma InsideCounts(w: World, w': World, s: nat)
    requires Inside(w, w', s)
    requires |w'.stations[s].queue| + Busy(w'.stations[s].agents) == |w.stations[s].queue| + Busy(w.stations[s].agents)
    ensures Everywhere(w') == Everywhere(w)
  {
    hide Queued, Working, Busy, Indoors;
    QueuedUpdate(w.stations, s, w'.stations[s]);
  }

  lemma AssignKeeps(w: World, s: nat, k: nat, turn: nat, strategy: Strategy, luck: Luck)
    requires Floor(w) && s < STATIONS && w.stations[s].queue != [] && IsIdle(w.stations[s], k) && Fair(luck)
    ensures Keeps(w, Assigned(w, s, k, turn, strategy, luck))
  {
    var w', line := Assigned(w, s, k, turn, strategy, luck), Serving(w, s, strategy);
    FloorAt(w, s);
    Reordered(w.stations[s].queue, line);
    AssignParts(w, s, k, turn, strategy, luck);
    hide Serving, Assigned, Queued, Working, Busy, Floor, Inside, QueueOk, AgentsOk, Fair, AgentOk, NoDup;
    AssignCounts(w, w', s, k, line);
    AssignQueue(w, w', s, line);
    AssignAgents(w, w', s, k, line[0]);
    AssignFinds(w, w', s, k, line);
    InsideKeeps(w, w', s);
  }

  lemma AssignParts(w: World, s: nat, k: nat, turn: nat, strategy: Strategy, luck: Luck)
    requires Floor(w) && s < STATIONS && w.stations[s].queue != [] && IsIdle(w.stations[s], k) && Fair(luck)
    requires forall x :: x in Serving(w, s, strategy) <==> x in w.stations[s].queue
    ensures var w', line := Assigned(w, s, k, turn, strategy, luck), Serving(w, s, strategy);
            && Inside(w, w', s) && line != [] && Waits(w, line[0], s) && Is(w', line[0], AtWork)
            && w'.stations[s].queue == line[1..] && |line| == |w.stations[s].queue|
            && k < |w'.stations[s].agents|
            && w'.stations[s].agents == w.stations[s].agents[k := w'.stations[s].agents[k]]
            && w'.stations[s].agents[k].ticket == Some(line[0]) && AgentOk(w', s, w'.stations[s].agents[k])
            && forall x :: 0 <= x < |w.tickets| && x != line[0] ==> w'.tickets[x] == w.tickets[x]
  {
    var line := Serving(w, s, strategy);
    FloorAt(w, s);
    hide Floor, Serving;
    assert line[0] in line && line[0] in w.stations[s].queue && Waits(w, line[0], s);
  }

  lemma AssignCounts(w: World, w': World, s: nat, k: nat, line: seq<nat>)
    requires Inside(w, w', s) && IsIdle(w.stations[s], k) && k < |w'.stations[s].agents|
    requires w'.stations[s].agents == w.stations[s].agents[k := w'.stations[s].agents[k]]
    requires w'.stations[s].agents[k].ticket.Some?
    requires |line| == |w.stations[s].queue| && line != [] && w'.stations[s].queue == line[1..]
    ensures Everywhere(w') == Everywhere(w)
  {
    hide Queued, Working, Busy;
    BusyUpdate(w.stations[s].agents, k, w'.stations[s].agents[k]);
    InsideCounts(w, w', s);
  }

  lemma AssignFinds(w: World, w': World, s: nat, k: nat, line: seq<nat>)
    requires Floor(w) && Inside(w, w', s) && IsIdle(w.stations[s], k) && line != []
    requires forall x :: x in w.stations[s].queue ==> x in line
    requires w'.stations[s].queue == line[1..] && k < |w'.stations[s].agents|
    requires w'.stations[s].agents == w.stations[s].agents[k := w'.stations[s].agents[k]]
    requires w'.stations[s].agents[k].ticket == Some(line[0]) && Is(w', line[0], AtWork)
    requires forall x :: 0 <= x < |w.tickets| && x != line[0] ==> w'.tickets[x] == w.tickets[x]
    ensures forall x: nat :: Indoors(w', x, s) ==> Found(w', x)
  {
    hide Floor;
    forall x: nat | Indoors(w', x, s) ensures Found(w', x) {
      FloorFinds(w, x);
      if x == line[0] {
        assert w'.stations[s].agents[k].ticket == Some(x);
      } else if w.tickets[x].pos.AtWork? {
        StillHeld(w.stations[s].agents, k, w'.stations[s].agents[k], x);
      } else {
        assert x in line && line == [line[0]] + line[1..];
      }
    }
  }

  lemma SixStations(w: World)
    requires Floor(w)
    ensures |w.stations| == STATIONS
  {
  }

  lemma FloorAt(w: World, s: nat)
    requires Floor(w) && s < STATIONS
    ensures s < |w.stations| == STATIONS && QueueOk(w, s) && AgentsOk(w, s)
  {
  }

  lemma FloorFinds(w: World, x: nat)
    requires Floor(w) && x < |w.tickets|
    ensures Found(w, x)
  {
  }

  lemma AssignQueue(w: World, w': World, s: nat, line: seq<nat>)
    requires Inside(w, w', s) && QueueOk(w, s) && line != [] && NoDup(line)
             && forall x :: x in line ==> x in w.stations[s].queue
    requires w'.stations[s].queue == line[1..]
    requires forall x :: 0 <= x < |w.tickets| && x != line[0] ==> w'.tickets[x] == w.tickets[x]
    ensures QueueOk(w', s)
  {
    forall i | 0 <= i < |line| - 1 ensures Waits(w', line[1..][i], s) {
      assert line[i + 1] in line && Waits(w, line[i + 1], s);
    }
  }

  lemma AssignAgents(w: World, w': World, s: nat, k: nat, id: nat)
    requires Inside(w, w', s) && AgentsOk(w, s) && IsIdle(w.stations[s], k) && Waits(w, id, s)
    requires k < |w'.stations[s].agents|
    requires w'.stations[s].agents == w.stations[s].agents[k := w'.stations[s].agents[k]]
    requires w'.stations[s].agents[k].ticket == Some(id) && AgentOk(w', s, w'.stations[s].agents[k])
    requires forall x :: 0 <= x < |w.tickets| && x != id ==> w'.tickets[x] == w.tickets[x]
    ensures AgentsOk(w', s)
  {
    forall j | 0 <= j < |w.stations[s].agents| ensures AgentOk(w', s, w'.stations[s].agents[j]) {
      assert AgentOk(w, s, w.stations[s].agents[j]);
    }
  }

  lemma WorkKeeps(w: World, s: nat, k: nat, luck: Luck)
    requires Floor(w) && s < STATIONS && k < |w.stations[s].agents|
    ensures Keeps(w, Worked(w, s, k, luck))
  {
    hide Queued, Working, Busy;
    FloorAt(w, s);
    var a := w.stations[s].agents[k];
    assert AgentOk(w, s, a);
    if a.ticket.Some? {
      if a.progress + 1 < a.total {
        GoOnKeeps(w, s, k, luck);
      } else {
        FinishKeeps(w, s, k, luck);
      }
    }
  }

  lemma GoOnKeeps(w: World, s: nat, k: nat, luck: Luck)
    requires Floor(w) && s < STATIONS && k < |w.stations[s].agents|
    requires w.stations[s].agents[k].ticket.Some?
             && w.stations[s].agents[k].progress + 1 < w.stations[s].agents[k].total
    ensures Keeps(w, Worked(w, s, k, luck))
  {
    var w', agents := Worked(w, s, k, luck), w.stations[s].agents;
    hide Queued, Working, Busy, Floor;
    FloorAt(w, s);
    BusyUpdate(agents, k, w'.stations[s].agents[k]);
    InsideCounts(w, w', s);
    forall j | 0 <= j < |agents| ensures AgentOk(w', s, w'.stations[s].agents[j]) {
      assert AgentOk(w, s, agents[j]);
    }
    forall i | 0 <= i < |w.stations[s].queue| ensures Waits(w', w.stations[s].queue[i], s) {
      assert Waits(w, w.stations[s].queue[i], s);
    }
    forall x: nat | Indoors(w', x, s) ensures Found(w', x) {
      FloorFinds(w, x);
      if w.tickets[x].pos.AtWork? {
        if agents[k].ticket == Some(x) {
          assert w'.stations[s].agents[k].ticket == Some(x);
        } else {
          StillHeld(agents, k, w'.stations[s].agents[k], x);
        }
      }
    }
    InsideKeeps(w, w', s);
  }

  lemma FinishKeeps(w: World, s: nat, k: nat, luck: Luck)
    requires Floor(w) && s < STATIONS && k < |w.stations[s].agents|
    requires w.stations[s].agents[k].ticket.Some?
    requires w.stations[s].agents[k].progress + 1 >= w.stations[s].agents[k].total
    ensures Keeps(w, Worked(w, s, k, luck))
  {
    var w' := Worked(w, s, k, luck);
    var id := w.stations[s].agents[k].ticket.value;
    FloorAt(w, s);
    hide *;
    FloorParts(w);
    FinishLeaves(w, s, k, luck);
    FinishCounts(w, s, k, luck);
    forall j | 0 <= j < STATIONS ensures QueueOk(w', j) && AgentsOk(w', j) {
      LeaveKeeps(w, w', j, id, s, k);
    }
    LeaveFinds(w, w', id, s, k);
    LeaveRides(w, w', id, s, k);
    FloorFrom(w');
    KeepsFrom(w, w');
  }

  lemma KeepsFrom(w: World, w': World)
    requires Floor(w') && |w'.tickets| == |w.tickets| && Everywhere(w') == Everywhere(w)
    requires w'.tick == w.tick && w'.lastSpawn == w.lastSpawn
    ensures Keeps(w, w')
  {
  }

  lemma FloorParts(w: World)
    requires Floor(w)
    ensures |w.stations| == STATIONS && BeltsOk(w) && ShippedOk(w) && AllFound(w)
    ensures forall j :: 0 <= j < STATIONS ==> QueueOk(w, j) && AgentsOk(w, j)
  {
  }

  lemma FinishCounts(w: World, s: nat, k: nat, luck: Luck)
    requires Floor(w) && s < STATIONS && k < |w.stations[s].agents|
    requires w.stations[s].agents[k].ticket.Some?
    requires w.stations[s].agents[k].progress + 1 >= w.stations[s].agents[k].total
    ensures var w' := Worked(w, s, k, luck);
            && |w'.tickets| == |w.tickets| && Everywhere(w') == Everywhere(w)
            && w'.tick == w.tick && w'.lastSpawn == w.lastSpawn
  {
    FloorAt(w, s);
    hide Floor, Queued, Working, Busy;
    assert AgentOk(w, s, w.stations[s].agents[k]);
    var w' := Worked(w, s, k, luck);
    QueuedUpdate(w.stations, s, w'.stations[s]);
    BusyUpdate(w.stations[s].agents, k, w'.stations[s].agents[k]);
  }

  lemma FinishLeaves(w: World, s: nat, k: nat, luck: Luck)
    requires Floor(w) && s < STATIONS && k < |w.stations[s].agents|
    requires w.stations[s].agents[k].ticket.Some?
    requires w.stations[s].agents[k].progress + 1 >= w.stations[s].agents[k].total
    ensures var w', id := Worked(w, s, k, luck), w.stations[s].agents[k].ticket.value;
            && Leaves(w, w', id, s, k)
            && |w'.stations| == STATIONS && id < |w'.tickets|
            && (w'.tickets[id].pos.OnBelt? ==> Rides(w', id))
            && (w'.tickets[id].pos.Shipped? ==> s == SHIP && w'.tickets[id].shippedAt.Some?)
  {
    FloorAt(w, s);
    hide Floor;
    assert AgentOk(w, s, w.stations[s].agents[k]);
  }

  lemma LeaveRides(w: World, w': World, id: nat, s: nat, k: nat)
    requires Leaves(w, w', id, s, k) && BeltsOk(w) && ShippedOk(w) && id < |w'.tickets|
    requires w'.tickets[id].pos.OnBelt? ==> Rides(w', id)
    requires w'.tickets[id].pos.Shipped? ==> s == SHIP && w'.tickets[id].shippedAt.Some?
    ensures BeltsOk(w') && ShippedOk(w')
  {
    assert forall i :: 0 <= i < |w.inFlight| ==> Rides(w, w.inFlight[i]) && w.inFlight[i] != id;
    assert forall i :: 0 <= i < |w.shipped| ==> Is(w, w.shipped[i], Shipped) && w.shipped[i] != id;
  }

  lemma FloorFrom(w: World)
    requires |w.stations| == STATIONS
    requires forall s :: 0 <= s < STATIONS ==> QueueOk(w, s) && AgentsOk(w, s)
    requires BeltsOk(w) && ShippedOk(w) && AllFound(w)
    ensures Floor(w)
  {
  }

  /** A ticket leaves its agent: what stays indoors stays in order. */
  predicate Leaves(w: World, w': World, id: nat, s: nat, k: nat) {
    && |w.stations| == STATIONS && s < STATIONS && k < |w.stations[s].agents| && id < |w.tickets|
    && w.stations[s].agents[k].ticket == Some(id) && Indoors(w, id, s) && w.tickets[id].pos.AtWork?
    && |w'.stations| == STATIONS && w'.stations == w.stations[s := w'.stations[s]]
    && w'.stations[s].queue == w.stations[s].queue
    && k < |w'.stations[s].agents|
    && w'.stations[s].agents == w.stations[s].agents[k := w'.stations[s].agents[k]]
    && AgentOk(w', s, w'.stations[s].agents[k]) && w'.stations[s].agents[k].ticket.None?
    && |w'.tickets| == |w.tickets| && w'.tickets == w.tickets[id := w'.tickets[id]]
    && w'.tickets[id].station == s
    && (|| (w'.tickets[id].pos.OnBelt? && w'.inFlight == w.inFlight + [id] && w'.shipped == w.shipped)
        || (w'.tickets[id].pos.Shipped? && w'.inFlight == w.inFlight && w'.shipped == w.shipped + [id]))
  }

  lemma LeaveKeeps(w: World, w': World, j: nat, id: nat, s: nat, k: nat)
    requires Leaves(w, w', id, s, k) && j < STATIONS && QueueOk(w, j) && AgentsOk(w, j)
    ensures QueueOk(w', j) && AgentsOk(w', j)
  {
    forall i | 0 <= i < |w.stations[j].queue| ensures Waits(w', w.stations[j].queue[i], j) {
      assert Waits(w, w.stations[j].queue[i], j);
    }
    forall i | 0 <= i < |w.stations[j].agents| ensures AgentOk(w', j, w'.stations[j].agents[i]) {
      assert AgentOk(w, j, w.stations[j].agents[i]);
    }
  }

  lemma LeaveFinds(w: World, w': World, id: nat, s: nat, k: nat)
    requires Leaves(w, w', id, s, k) && AllFound(w) && AgentsOk(w, s)
    ensures AllFound(w')
  {
    forall x | 0 <= x < |w'.tickets| ensures Found(w', x) {
      assert Found(w, x);
      if x == id {
        assert w'.tickets[id].pos.OnBelt? ==> w'.inFlight[|w.inFlight|] == id;
        assert w'.tickets[id].pos.Shipped? ==> w'.shipped[|w.shipped|] == id;
      } else if w.tickets[x].pos.AtWork? && w.tickets[x].station == s {
        StillHeld(w.stations[s].agents, k, w'.stations[s].agents[k], x);
      }
    }
  }

  lemma DismissKeeps(w: World, s: nat)
    requires Floor(w) && s < STATIONS && w.stations[s].agents != []
    ensures Keeps(w, Dismissed(w, s))
  {
    var w' := Dismissed(w, s);
    hide Queued, Working, Busy, Floor;
    FloorAt(w, s);
    var st := w.stations[s];
    var last := |st.agents| - 1;
    var a := st.agents[last];
    assert st.agents == st.agents[..last] + [a];
    BusyAppend(st.agents[..last], a);
    assert AgentOk(w, s, a);
    InsideCounts(w, w', s);
    DismissAgents(w, w', s);
    forall x: nat | Indoors(w', x, s) ensures Found(w', x) {
      FloorFinds(w, x);
      if a.ticket == Some(x) {
        assert w'.stations[s].queue[0] == x;
      } else if w.tickets[x].pos.AtWork? {
        var k :| 0 <= k < |st.agents| && st.agents[k].ticket == Some(x);
        assert w'.stations[s].agents[k].ticket == Some(x);
      }
    }
    InsideKeeps(w, w', s);
  }

  lemma DismissAgents(w: World, w': World, s: nat)
    requires Floor(w) && s < STATIONS && w.stations[s].agents != [] && w' == Dismissed(w, s)
    ensures QueueOk(w', s) && AgentsOk(w', s)
  {
    hide Floor;
    FloorAt(w, s);
    var agents := w.stations[s].agents;
    var a := agents[|agents| - 1];
    assert AgentOk(w, s, a);
    forall k | 0 <= k < |agents| - 1
      ensures AgentOk(w', s, agents[k]) && (a.ticket.Some? ==> agents[k].ticket != a.ticket)
    {
      assert AgentOk(w, s, agents[k]);
    }
    forall i | 0 <= i < |w.stations[s].queue| ensures Waits(w', w.stations[s].queue[i], s) {
      assert Waits(w, w.stations[s].queue[i], s);
    }
  }

  lemma HireKeeps(w: World, s: nat)
    requires Floor(w) && s < STATIONS
    ensures Keeps(w, Hired(w, s))
  {
    var w' := Hired(w, s);
    hide Queued, Working, Busy, Floor;
    FloorAt(w, s);
    BusyAppend(w.stations[s].agents, IDLE);
    InsideCounts(w, w', s);
    forall k | 0 <= k < |w'.stations[s].agents| ensures AgentOk(w', s, w'.stations[s].agents[k]) {
      assert k < |w.stations[s].agents| ==> AgentOk(w, s, w.stations[s].agents[k]);
    }
    forall x: nat | Indoors(w', x, s) ensures Found(w', x) {
      FloorFinds(w, x);
      if w.tickets[x].pos.AtWork? {
        var k :| 0 <= k < |w.stations[s].agents| && w.stations[s].agents[k].ticket == Some(x);
        assert w'.stations[s].agents[k].ticket == Some(x);
      }
    }
    InsideKeeps(w, w', s);
  }
}
