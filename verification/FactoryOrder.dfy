/** Who gets which ticket, and the order of queues, belts and shipped tickets. */
module FactoryOrder {
  import opened Text
  import opened FactoryModel
  import opened FactoryMoves
  import opened FactoryRuns
  import opened FactoryQueues

  // ---- Which agent ----------------------------------------------------------

  /** How many places after `turn`, going round, agent `k` of `n` stands. */
  function Ahead(turn: nat, k: nat, n: nat): int {
    if k >= turn then k - turn else k + n - turn
  }

  /** The agent that gets the next ticket, and the turn of the station afterwards. */
  predicate RightAgent(st: Station, strategy: Strategy, k: nat, turn: nat) {
    && IsIdle(st, k)
    && match strategy
       case Round =>
         && turn == (st.turn + 1) % |st.agents|
         && forall j :: 0 <= j < |st.agents| && st.agents[j].ticket.None? ==>
              Ahead(turn, k, |st.agents|) <= Ahead(turn, j, |st.agents|)
       case Priority =>
         turn == st.turn && forall j :: 0 <= j < |st.agents| && st.agents[j].ticket.None? ==> k <= j
       case Load =>
         && turn == st.turn
         && forall j :: 0 <= j < |st.agents| && st.agents[j].ticket.None? ==>
              st.agents[k].completed < st.agents[j].completed
              || (st.agents[k].completed == st.agents[j].completed && k <= j)
  }

  /** The strategies: in turn, the nearest idle agent from the new turn on; by priority, the first idle one; by load,
      the first of those that have completed the fewest. */
  lemma ChooseIff(st: Station, strategy: Strategy, k: nat, turn: nat)
    ensures Choose(st, strategy) == Chosen(k, turn) <==> RightAgent(st, strategy, k, turn)
  {
    if strategy.Round? && st.agents != [] {
      var n := |st.agents|;
      var next := (st.turn + 1) % n;
      var c := NextInTurn(st.agents, next);
      var near := FirstIdle(st.agents, next);
      if c.Some? && near.None? {
        assert forall j :: next <= j < n ==> st.agents[j].ticket.Some?;
      }
    }
  }

  // ---- Which ticket ---------------------------------------------------------

  predicate FirstOldest(w: World, ids: seq<nat>, i: nat)
    requires Known(w, ids)
  {
    && i < |ids|
    && forall j :: 0 <= j < |ids| ==>
         w.tickets[ids[i]].created < w.tickets[ids[j]].created
         || (w.tickets[ids[i]].created == w.tickets[ids[j]].created && i <= j)
  }

  lemma {:induction false} InsertHead(w: World, ids: seq<nat>, id: nat)
    requires id < |w.tickets| && Known(w, ids) && OldestFirst(w, ids)
    ensures Insert(w, ids, id)[0] ==
            if ids == [] || w.tickets[id].created < w.tickets[ids[0]].created then id else ids[0]
  {
    var last := |ids| - 1;
    if ids != [] && w.tickets[ids[last]].created > w.tickets[id].created {
      InsertHead(w, ids[..last], id);
    }
  }

  lemma {:induction false} ByAgeHead(w: World, ids: seq<nat>) returns (i: nat)
    requires Known(w, ids) && ids != []
    ensures i < |ids| && FirstOldest(w, ids, i) && ByAge(w, ids)[0] == ids[i]
  {
    hide FirstOldest;
    var last := |ids| - 1;
    var init := ids[..last];
    ByAgeOrders(w, init);
    InsertHead(w, ByAge(w, init), ids[last]);
    if last == 0 {
      i := 0;
      OneOldest(w, ids);
    } else {
      i := ByAgeHead(w, init);
      i := NextOldest(w, ids, i);
    }
  }

  lemma OneOldest(w: World, ids: seq<nat>)
    requires Known(w, ids) && |ids| == 1
    ensures FirstOldest(w, ids, 0)
  {
  }

  lemma NextOldest(w: World, ids: seq<nat>, k: nat) returns (i: nat)
    requires Known(w, ids) && ids != [] && FirstOldest(w, ids[..|ids| - 1], k)
    ensures i < |ids| && FirstOldest(w, ids, i)
    ensures var last := ids[|ids| - 1];
            ids[i] == if w.tickets[last].created < w.tickets[ids[k]].created then last else ids[k]
  {
    i := if w.tickets[ids[|ids| - 1]].created < w.tickets[ids[k]].created then |ids| - 1 else k;
    forall j | 0 <= j < |ids|
      ensures w.tickets[ids[i]].created < w.tickets[ids[j]].created
              || (w.tickets[ids[i]].created == w.tickets[ids[j]].created && i <= j)
    {
      assert j < |ids| - 1 ==> ids[..|ids| - 1][j] == ids[j];
    }
  }

  /** How many ticks of work each station draws. */
  lemma WorkDrawn(luck: Luck, t: nat)
    requires Fair(luck)
    ensures 12 <= luck.work(0, t) <= 18 && 40 <= luck.work(1, t) <= 80 && 80 <= luck.work(2, t) <= 160
    ensures 40 <= luck.work(3, t) <= 90 && 30 <= luck.work(4, t) <= 70 && 10 <= luck.work(5, t) <= 20
  {
    assert WorkMin(0) <= luck.work(0, t) && WorkMin(1) <= luck.work(1, t) && WorkMin(2) <= luck.work(2, t);
    assert WorkMin(3) <= luck.work(3, t) && WorkMin(4) <= luck.work(4, t) && WorkMin(5) <= luck.work(5, t);
  }

  /** The ticket `i` of the queue is now with agent `k`. */
  predicate Handed(w: World, next: World, s: nat, i: nat, k: nat, turn: nat, luck: Luck)
    requires s < |w.stations| && i < |w.stations[s].queue| && IsIdle(w.stations[s], k)
  {
    var st := w.stations[s];
    var id := st.queue[i];
    && id < |w.tickets| && |next.stations| == |w.stations|
    && multiset(st.queue) == multiset(next.stations[s].queue) + multiset([id])
    && next.stations[s] ==
       Station(next.stations[s].queue,
               st.agents[k := Agent(Some(id), 0, luck.work(s, id), st.agents[k].completed)], st.throughput, turn)
    && next == w.(tickets := w.tickets[id := w.tickets[id].(pos := AtWork)],
                  stations := w.stations[s := next.stations[s]])
  }

  predicate OldestFirstIn(w: World, s: nat) {
    s < |w.stations| && Known(w, w.stations[s].queue) && OldestFirst(w, w.stations[s].queue)
  }

  /** An assignment round hands one ticket at a time: the head of the queue, or by priority the oldest ticket, to the
      agent that the strategy names. */
  lemma NextHandOver(w: World, s: nat, strategy: Strategy, luck: Luck)
      returns (i: nat, k: nat, turn: nat, next: World)
    requires Floor(w) && s < STATIONS && Fair(luck) && w.stations[s].queue != []
    requires exists k :: IsIdle(w.stations[s], k)
    ensures Known(w, w.stations[s].queue) && i < |w.stations[s].queue|
    ensures if strategy.Priority? then FirstOldest(w, w.stations[s].queue, i) else i == 0
    ensures RightAgent(w.stations[s], strategy, k, turn) && Handed(w, next, s, i, k, turn, luck)
    ensures if strategy.Priority? then OldestFirstIn(next, s)
            else next.stations[s].queue == w.stations[s].queue[1..]
    ensures Floor(next) && AssignAll(w, s, strategy, luck) == AssignAll(next, s, strategy, luck)
  {
    hide *;
    QueueInRange(w, s);
    SixStations(w);
    var st := w.stations[s];
    var c := Choose(st, strategy);
    Offered(w, s, strategy);
    k, turn, i := c.agent, c.turn, 0;
    ChooseIff(st, strategy, k, turn);
    AssignKeeps(w, s, k, turn, strategy, luck);
    next := Assigned(w, s, k, turn, strategy, luck);
    if strategy.Priority? {
      i := ByAgeHead(w, st.queue);
    }
    AssignedParts(w, s, i, k, turn, strategy, luck);
    AssignAllUnfold(w, s, strategy, luck);
  }

  lemma Offered(w: World, s: nat, strategy: Strategy)
    requires s < |w.stations| && exists k :: IsIdle(w.stations[s], k)
    ensures Choose(w.stations[s], strategy).Chosen?
    ensures IsIdle(w.stations[s], Choose(w.stations[s], strategy).agent)
  {
    var j :| IsIdle(w.stations[s], j);
  }

  lemma AssignAllUnfold(w: World, s: nat, strategy: Strategy, luck: Luck)
    requires Floor(w) && s < STATIONS && Fair(luck) && w.stations[s].queue != []
    requires Choose(w.stations[s], strategy).Chosen?
    ensures var c := Choose(w.stations[s], strategy);
            var next := Assigned(w, s, c.agent, c.turn, strategy, luck);
            Floor(next) && AssignAll(w, s, strategy, luck) == AssignAll(next, s, strategy, luck)
  {
    SixStations(w);
    hide Floor, Choose, Fair, Assigned;
    var c := Choose(w.stations[s], strategy);
    AssignKeeps(w, s, c.agent, c.turn, strategy, luck);
  }

  lemma AssignedParts(w: World, s: nat, i: nat, k: nat, turn: nat, strategy: Strategy, luck: Luck)
    requires Floor(w) && s < STATIONS && IsIdle(w.stations[s], k)
    requires Known(w, w.stations[s].queue) && i < |w.stations[s].queue|
    requires if strategy.Priority? then w.stations[s].queue[i] == ByAge(w, w.stations[s].queue)[0] else i == 0
    ensures var next := Assigned(w, s, k, turn, strategy, luck);
            && Handed(w, next, s, i, k, turn, luck)
            && if strategy.Priority? then OldestFirstIn(next, s)
               else next.stations[s].queue == w.stations[s].queue[1..]
  {
    SixStations(w);
    var line := Serving(w, s, strategy);
    HandedLine(w, s, i, k, turn, luck, line);
    if strategy.Priority? {
      PriorityLine(w, Assigned(w, s, k, turn, strategy, luck), s, w.stations[s].queue, line);
    }
  }

  lemma HandedLine(w: World, s: nat, i: nat, k: nat, turn: nat, luck: Luck, line: seq<nat>)
    requires s < |w.stations| && IsIdle(w.stations[s], k) && i < |w.stations[s].queue|
    requires line != [] && line[0] == w.stations[s].queue[i] < |w.tickets|
    requires multiset(line) == multiset(w.stations[s].queue)
    ensures var st, id := w.stations[s], line[0];
            Handed(w, WithStation(WithTicket(w, id, w.tickets[id].(pos := AtWork)), s,
                                  st.(queue := line[1..], turn := turn,
                                      agents := st.agents[k := Agent(Some(id), 0, luck.work(s, id),
                                                                     st.agents[k].completed)])), s, i, k, turn, luck)
  {
    assert line == [line[0]] + line[1..];
  }

  lemma PriorityLine(w: World, next: World, s: nat, ids: seq<nat>, line: seq<nat>)
    requires Known(w, ids) && line == ByAge(w, ids) && ids != []
    requires s < |next.stations| && next.stations[s].queue == line[1..] && |next.tickets| == |w.tickets|
    requires forall id :: 0 <= id < |w.tickets| ==> next.tickets[id].created == w.tickets[id].created
    ensures OldestFirstIn(next, s)
  {
    ByAgeOrders(w, ids);
  }
}
