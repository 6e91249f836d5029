/** What one tick does to every ticket and every agent, and how long a ticket takes at the least. */
module FactoryTicks {
  import opened Text
  import opened FactoryModel
  import opened FactoryMoves
  import opened FactoryRuns
  import opened FactoryQueues

  // ---- What one tick does ---------------------------------------------------

  function Arrived(t: Ticket): Ticket {
    if t.beltTo.None? then t
    else t.(pos := InQueue, station := t.beltTo.value, beltFrom := None, beltTo := None, beltProg := 0)
  }

  function Ridden(t: Ticket): Ticket {
    if t.beltProg + 1 < BELT_TICKS then t.(beltProg := t.beltProg + 1) else Arrived(t)
  }

  /** A finished ticket goes to the next station, but back to station 2 when it was tested or reviewed and the draw says
      so; the last station ships it. */
  predicate Left(t: Ticket, t': Ticket, tick: nat, again: bool) {
    if t.station < 5 then
      t' == t.(pos := OnBelt, beltFrom := Some(t.station), beltProg := 0,
               beltTo := Some(if (t.station == 3 || t.station == 4) && again then 2 else t.station + 1))
    else t' == t.(pos := Shipped, shippedAt := Some(tick))
  }

  /** A tick inside a station: a waiting ticket may be taken up, one at work may leave. */
  predicate IndoorStep(t: Ticket, t': Ticket, tick: nat, again: bool) {
    match t.pos
    case InQueue => t' == t || t' == t.(pos := AtWork)
    case AtWork => t' == t || Left(t, t', tick, again)
    case _ => t' == t
  }

  /** A tick for any ticket: belts move by one, and an arrival may be taken up at once. */
  predicate TicketStep(t: Ticket, t': Ticket, tick: nat, again: bool) {
    if t.pos.OnBelt? then IndoorStep(Ridden(t), t', tick, again) else IndoorStep(t, t', tick, again)
  }

  function Ticked(a: Agent): Agent {
    if a.ticket.None? then a
    else if a.progress + 1 < a.total then a.(progress := a.progress + 1)
    else Agent(None, 0, 0, a.completed + 1)
  }

  /** The agent starts on a ticket that was waiting here, for as many ticks as drawn. */
  predicate Takes(w: World, s: nat, a: Agent, a': Agent, luck: Luck) {
    && a'.ticket.Some? && Waits(w, a'.ticket.value, s)
    && a' == Agent(a'.ticket, 1, luck.work(s, a'.ticket.value), a.completed)
  }

  /** The ticket of a busy agent leaves if the agent finishes, and stays otherwise. */
  predicate ServedTicket(w: World, r: World, a: Agent, luck: Luck)
    requires a.ticket.Some?
  {
    var id := a.ticket.value;
    && id < |w.tickets| && id < |r.tickets|
    && if Finishing(a) then Left(w.tickets[id], r.tickets[id], r.tick, luck.again(id))
       else r.tickets[id] == w.tickets[id]
  }

  /** A busy agent works on or finishes; an idle one takes a ticket that was waiting here, or stays idle, and then
      nobody waits here. */
  predicate AgentStep(w: World, r: World, s: nat, a: Agent, a': Agent, luck: Luck)
    requires s < |r.stations|
  {
    if a.ticket.Some? then a' == Ticked(a) && ServedTicket(w, r, a, luck)
    else Takes(w, s, a, a', luck) || (a' == a && r.stations[s].queue == [])
  }

  predicate Finishing(a: Agent) {
    a.ticket.Some? && a.progress + 1 >= a.total
  }

  function FinishCount(agents: seq<Agent>, k: nat): nat
    requires k <= |agents|
    decreases |agents| - k
  {
    if k == |agents| then 0 else (if Finishing(agents[k]) then 1 else 0) + FinishCount(agents, k + 1)
  }

  // ---- Belts ----------------------------------------------------------------

  predicate SameCrew(st: Station, st': Station) {
    st'.agents == st.agents && st'.throughput == st.throughput
  }

  predicate BeltsShape(w: World, r: World, n: nat)
    requires n <= |w.inFlight|
  {
    && |r.tickets| == |w.tickets| && |r.stations| == |w.stations|
    && (forall s :: 0 <= s < |w.stations| ==> SameCrew(w.stations[s], r.stations[s]))
    && (forall id :: 0 <= id < |w.tickets| ==>
          r.tickets[id] == if id in w.inFlight[..n] then Ridden(w.tickets[id]) else w.tickets[id])
  }

  predicate OneBeltShape(w: World, next: World, n: nat) {
    && 1 <= n <= |w.inFlight|
    && var id := w.inFlight[n - 1];
    && id < |w.tickets| && next.tickets == w.tickets[id := Ridden(w.tickets[id])]
    && n - 1 <= |next.inFlight| && next.inFlight[..n - 1] == w.inFlight[..n - 1] && id !in w.inFlight[..n - 1]
    && |next.stations| == |w.stations|
    && forall s :: 0 <= s < |w.stations| ==> SameCrew(w.stations[s], next.stations[s])
  }

  lemma {:induction false} BeltsMove(w: World, n: nat)
    requires Floor(w) && n <= |w.inFlight|
    ensures BeltsShape(w, Belts(w, n), n)
    decreases n
  {
    hide *;
    if n == 0 {
      NoBelts(w);
    } else {
      BeltKeeps(w, n - 1);
      OneBelt(w, n);
      BeltsMove(BeltMoved(w, n - 1), n - 1);
      TwoBelts(w, BeltMoved(w, n - 1), Belts(BeltMoved(w, n - 1), n - 1), n);
      BeltsUnfold(w, n);
    }
  }

  lemma NoBelts(w: World)
    requires Floor(w)
    ensures BeltsShape(w, Belts(w, 0), 0)
  {
    hide Floor;
  }

  lemma BeltsUnfold(w: World, n: nat)
    requires Floor(w) && 1 <= n <= |w.inFlight|
    ensures Floor(BeltMoved(w, n - 1)) && n - 1 <= |BeltMoved(w, n - 1).inFlight|
    ensures Belts(w, n) == Belts(BeltMoved(w, n - 1), n - 1)
  {
    BeltKeeps(w, n - 1);
    hide Floor;
  }

  lemma OneBelt(w: World, n: nat)
    requires Floor(w) && 1 <= n <= |w.inFlight|
    ensures OneBeltShape(w, BeltMoved(w, n - 1), n)
    ensures n - 1 <= |BeltMoved(w, n - 1).inFlight|
    ensures Keeps(w, BeltMoved(w, n - 1)) ==> Floor(BeltMoved(w, n - 1))
  {
    assert Rides(w, w.inFlight[n - 1]);
  }

  lemma TwoBelts(w: World, next: World, r: World, n: nat)
    requires OneBeltShape(w, next, n) && n - 1 <= |next.inFlight| && BeltsShape(next, r, n - 1)
    ensures n <= |w.inFlight| && BeltsShape(w, r, n)
  {
    assert w.inFlight[..n] == w.inFlight[..n - 1] + [w.inFlight[n - 1]];
    hide Ridden;
  }

  // ---- One station ----------------------------------------------------------

  predicate SameElsewhere(w: World, r: World, s: nat) {
    && |r.tickets| == |w.tickets| && |r.stations| == |w.stations| && s < |w.stations|
    && (forall j :: 0 <= j < |w.stations| && j != s ==> r.stations[j] == w.stations[j])
    && |r.stations[s].agents| == |w.stations[s].agents|
    && r.tick == w.tick
  }

  predicate Given(w: World, s: nat, a: Agent, a': Agent, luck: Luck) {
    a' == a || (a.ticket.None? && a'.ticket.Some? && Waits(w, a'.ticket.value, s)
                && a' == Agent(a'.ticket, 0, luck.work(s, a'.ticket.value), a.completed))
  }

  predicate AssignShape(w: World, r: World, s: nat, luck: Luck) {
    && SameElsewhere(w, r, s) && r.stations[s].throughput == w.stations[s].throughput
    && (forall id :: 0 <= id < |w.tickets| ==>
          r.tickets[id] == w.tickets[id] || (Waits(w, id, s) && r.tickets[id] == w.tickets[id].(pos := AtWork)))
    && (forall k :: 0 <= k < |w.stations[s].agents| ==>
          Given(w, s, w.stations[s].agents[k], r.stations[s].agents[k], luck))
  }

  lemma {:induction false} AssignMoves(w: World, s: nat, strategy: Strategy, luck: Luck)
    requires Floor(w) && s < STATIONS && Fair(luck)
    ensures AssignShape(w, AssignAll(w, s, strategy, luck), s, luck)
    decreases |w.stations[s].queue|
  {
    hide Everywhere;
    var st := w.stations[s];
    if st.queue != [] && Choose(st, strategy).Chosen? {
      var c := Choose(st, strategy);
      AssignKeeps(w, s, c.agent, c.turn, strategy, luck);
      OneAssigned(w, s, c.agent, c.turn, strategy, luck);
      hide Floor, Choose, Assigned, Fair;
      var next := Assigned(w, s, c.agent, c.turn, strategy, luck);
      AssignMoves(next, s, strategy, luck);
      AssignTwice(w, next, AssignAll(next, s, strategy, luck), s, luck);
    }
  }

  lemma OneAssigned(w: World, s: nat, k: nat, turn: nat, strategy: Strategy, luck: Luck)
    requires Floor(w) && s < STATIONS && w.stations[s].queue != [] && IsIdle(w.stations[s], k) && Fair(luck)
    ensures AssignShape(w, Assigned(w, s, k, turn, strategy, luck), s, luck)
  {
    FloorAt(w, s);
    var line := Serving(w, s, strategy);
    hide Floor, Serving;
    Reordered(w.stations[s].queue, line);
    assert line[0] in line && Waits(w, line[0], s);
  }

  lemma AssignTwice(w: World, next: World, r: World, s: nat, luck: Luck)
    requires AssignShape(w, next, s, luck) && AssignShape(next, r, s, luck)
    ensures AssignShape(w, r, s, luck)
  {
    forall k | 0 <= k < |w.stations[s].agents|
      ensures Given(w, s, w.stations[s].agents[k], r.stations[s].agents[k], luck)
    {
      assert Given(w, s, w.stations[s].agents[k], next.stations[s].agents[k], luck);
      assert Given(next, s, next.stations[s].agents[k], r.stations[s].agents[k], luck);
    }
  }

  predicate HeldFrom(agents: seq<Agent>, k: nat, id: nat) {
    exists j :: k <= j < |agents| && agents[j].ticket == Some(id)
  }

  predicate WorkShape(w: World, r: World, s: nat, k: nat, luck: Luck) {
    && SameElsewhere(w, r, s) && r.stations[s].queue == w.stations[s].queue
    && (k <= |w.stations[s].agents| ==>
          r.stations[s].throughput == w.stations[s].throughput + FinishCount(w.stations[s].agents, k))
    && (forall j :: 0 <= j < |w.stations[s].agents| ==>
          r.stations[s].agents[j] == if j < k then w.stations[s].agents[j] else Ticked(w.stations[s].agents[j]))
    && (forall id :: 0 <= id < |w.tickets| && !HeldFrom(w.stations[s].agents, k, id) ==> r.tickets[id] == w.tickets[id])
    && (forall j :: k <= j < |w.stations[s].agents| && w.stations[s].agents[j].ticket.Some? ==>
          ServedTicket(w, r, w.stations[s].agents[j], luck))
  }

  lemma {:induction false} WorkMoves(w: World, s: nat, k: nat, luck: Luck)
    requires Floor(w) && s < STATIONS && k <= |w.stations[s].agents|
    ensures WorkShape(w, WorkAll(w, s, k, luck), s, k, luck)
    decreases |w.stations[s].agents| - k
  {
    hide Everywhere;
    if k < |w.stations[s].agents| {
      WorkKeeps(w, s, k, luck);
      var next := Worked(w, s, k, luck);
      OneWorked(w, s, k, luck);
      hide Floor, Worked;
      WorkMoves(next, s, k + 1, luck);
      WorkTwice(w, next, WorkAll(next, s, k + 1, luck), s, k, luck);
    }
  }

  /** One agent's tick: its own ticket may leave, nothing else changes. */
  predicate OneWorkShape(w: World, next: World, s: nat, k: nat, luck: Luck) {
    && SameElsewhere(w, next, s) && k < |w.stations[s].agents|
    && next.stations[s].queue == w.stations[s].queue
    && next.stations[s].throughput == w.stations[s].throughput + (if Finishing(w.stations[s].agents[k]) then 1 else 0)
    && next.stations[s].agents == w.stations[s].agents[k := Ticked(w.stations[s].agents[k])]
    && (forall id :: 0 <= id < |w.tickets| && w.stations[s].agents[k].ticket != Some(id) ==>
          next.tickets[id] == w.tickets[id])
    && (w.stations[s].agents[k].ticket.Some? ==> ServedTicket(w, next, w.stations[s].agents[k], luck))
  }

  lemma OneWorked(w: World, s: nat, k: nat, luck: Luck)
    requires Floor(w) && s < STATIONS && k < |w.stations[s].agents|
    ensures OneWorkShape(w, Worked(w, s, k, luck), s, k, luck) && AgentsOk(w, s)
  {
    FloorAt(w, s);
    hide Floor;
    assert AgentOk(w, s, w.stations[s].agents[k]);
  }

  lemma WorkTwice(w: World, next: World, r: World, s: nat, k: nat, luck: Luck)
    requires s < |w.stations| && AgentsOk(w, s)
    requires OneWorkShape(w, next, s, k, luck) && WorkShape(next, r, s, k + 1, luck)
    ensures WorkShape(w, r, s, k, luck)
  {
    var agents, later := w.stations[s].agents, next.stations[s].agents;
    SameCount(agents, later, k + 1);
    forall id | 0 <= id < |w.tickets| && !HeldFrom(agents, k, id) ensures r.tickets[id] == w.tickets[id] {
      assert agents[k].ticket != Some(id) && !HeldFrom(later, k + 1, id);
    }
    forall j | k <= j < |agents| && agents[j].ticket.Some? ensures ServedTicket(w, r, agents[j], luck) {
      assert AgentOk(w, s, agents[j]);
      if j == k {
        assert !HeldFrom(later, k + 1, agents[j].ticket.value);
      } else {
        assert later[j] == agents[j];
        assert ServedTicket(next, r, later[j], luck);
      }
    }
  }

  lemma {:induction false} SameCount(a: seq<Agent>, b: seq<Agent>, k: nat)
    requires |a| == |b| && k <= |a| && forall j :: k <= j < |a| ==> a[j] == b[j]
    ensures FinishCount(a, k) == FinishCount(b, k)
    decreases |a| - k
  {
    if k < |a| {
      SameCount(a, b, k + 1);
    }
  }

  predicate StationShape(w: World, r: World, s: nat, luck: Luck) {
    && SameElsewhere(w, r, s)
    && r.stations[s].throughput == w.stations[s].throughput + FinishCount(w.stations[s].agents, 0)
    && (forall k :: 0 <= k < |w.stations[s].agents| ==>
          AgentStep(w, r, s, w.stations[s].agents[k], r.stations[s].agents[k], luck))
    && (forall id :: 0 <= id < |w.tickets| ==>
          if Indoors(w, id, s) then IndoorStep(w.tickets[id], r.tickets[id], w.tick, luck.again(id))
          else r.tickets[id] == w.tickets[id])
  }

  predicate NoIdleBeside(st: Station) {
    st.queue == [] || forall k :: 0 <= k < |st.agents| ==> st.agents[k].ticket.Some?
  }

  lemma StationMoves(w: World, m: World, r: World, s: nat, luck: Luck)
    requires Floor(w) && Floor(m) && s < STATIONS && Fair(luck)
    requires AssignShape(w, m, s, luck) && WorkShape(m, r, s, 0, luck) && NoIdleBeside(m.stations[s])
    ensures StationShape(w, r, s, luck)
  {
    FloorAt(w, s);
    FloorAt(m, s);
    hide Floor;
    StationCount(w, m, s, luck);
    forall k | 0 <= k < |w.stations[s].agents|
      ensures AgentStep(w, r, s, w.stations[s].agents[k], r.stations[s].agents[k], luck)
    {
      StationAgent(w, m, r, s, k, luck);
    }
    forall id | 0 <= id < |w.tickets|
      ensures if Indoors(w, id, s) then IndoorStep(w.tickets[id], r.tickets[id], w.tick, luck.again(id))
              else r.tickets[id] == w.tickets[id]
    {
      FloorFinds(m, id);
      StationTicket(w, m, r, s, id, luck);
    }
  }

  lemma DrawnIsLong(luck: Luck, s: nat, id: nat)
    requires Fair(luck)
    ensures luck.work(s, id) >= 10
  {
    assert WorkMin(s) <= luck.work(s, id);
  }

  lemma StationAgent(w: World, m: World, r: World, s: nat, k: nat, luck: Luck)
    requires s < |w.stations| && s < |m.stations| && AgentsOk(w, s) && Fair(luck)
    requires AssignShape(w, m, s, luck) && WorkShape(m, r, s, 0, luck) && NoIdleBeside(m.stations[s])
    requires k < |w.stations[s].agents|
    ensures AgentStep(w, r, s, w.stations[s].agents[k], r.stations[s].agents[k], luck)
  {
    var a, b := w.stations[s].agents[k], m.stations[s].agents[k];
    assert Given(w, s, a, b, luck) && AgentOk(w, s, a);
    if a.ticket.Some? {
      assert ServedTicket(m, r, b, luck);
    } else if b != a {
      DrawnIsLong(luck, s, b.ticket.value);
    }
  }

  /** An agent that has just been given a ticket does not finish it in the same tick. */
  lemma StationCount(w: World, m: World, s: nat, luck: Luck)
    requires AssignShape(w, m, s, luck) && Fair(luck)
    ensures FinishCount(m.stations[s].agents, 0) == FinishCount(w.stations[s].agents, 0)
  {
    var a, b := w.stations[s].agents, m.stations[s].agents;
    forall k | 0 <= k < |a| ensures Finishing(a[k]) == Finishing(b[k]) {
      assert Given(w, s, a[k], b[k], luck);
      if b[k] != a[k] {
        DrawnIsLong(luck, s, b[k].ticket.value);
      }
    }
    CountBy(a, b, 0);
  }

  lemma {:induction false} CountBy(a: seq<Agent>, b: seq<Agent>, k: nat)
    requires |a| == |b| && k <= |a| && forall j :: k <= j < |a| ==> Finishing(a[j]) == Finishing(b[j])
    ensures FinishCount(a, k) == FinishCount(b, k)
    decreases |a| - k
  {
    if k < |a| {
      CountBy(a, b, k + 1);
    }
  }

  lemma StationTicket(w: World, m: World, r: World, s: nat, id: nat, luck: Luck)
    requires s < |w.stations| && s < |m.stations| && QueueOk(w, s) && AgentsOk(w, s) && AgentsOk(m, s) && Fair(luck)
    requires AssignShape(w, m, s, luck) && WorkShape(m, r, s, 0, luck) && id < |w.tickets| && Found(m, id)
    ensures if Indoors(w, id, s) then IndoorStep(w.tickets[id], r.tickets[id], w.tick, luck.again(id))
            else r.tickets[id] == w.tickets[id]
  {
    var agents, given := w.stations[s].agents, m.stations[s].agents;
    assert HeldBy(given, id) <==> HeldFrom(given, 0, id);
    if HeldFrom(given, 0, id) {
      var j :| 0 <= j < |given| && given[j].ticket == Some(id);
      assert AgentOk(m, s, given[j]) && Given(w, s, agents[j], given[j], luck) && AgentOk(w, s, agents[j]);
      assert ServedTicket(m, r, given[j], luck);
      if w.tickets[id].pos.InQueue? {
        assert agents[j].ticket != Some(id);
        DrawnIsLong(luck, s, id);
        assert !Finishing(given[j]);
      }
    }
  }

  // ---- All stations ---------------------------------------------------------

  predicate IndoorsFrom(w: World, id: nat, s: nat) {
    id < |w.tickets| && s <= w.tickets[id].station && Indoors(w, id, w.tickets[id].station)
  }

  predicate StationsShape(w: World, r: World, s: nat, luck: Luck) {
    && |r.tickets| == |w.tickets| && |r.stations| == |w.stations| && r.tick == w.tick
    && (forall j :: 0 <= j < |w.stations| ==> |r.stations[j].agents| == |w.stations[j].agents|)
    && (forall j :: 0 <= j < |w.stations| && j < s ==> r.stations[j] == w.stations[j])
    && (forall j :: s <= j < |w.stations| ==>
          r.stations[j].throughput == w.stations[j].throughput + FinishCount(w.stations[j].agents, 0))
    && (forall j, k :: s <= j < |w.stations| && 0 <= k < |w.stations[j].agents| ==>
          AgentStep(w, r, j, w.stations[j].agents[k], r.stations[j].agents[k], luck))
    && (forall id :: 0 <= id < |w.tickets| ==>
          if IndoorsFrom(w, id, s) then IndoorStep(w.tickets[id], r.tickets[id], w.tick, luck.again(id))
          else r.tickets[id] == w.tickets[id])
  }

  lemma {:induction false} StationsMove(w: World, s: nat, strategy: Strategy, luck: Luck)
    requires Floor(w) && s <= STATIONS && Fair(luck)
    ensures StationsShape(w, StationsFrom(w, s, strategy, luck), s, luck)
    decreases STATIONS - s
  {
    if s == STATIONS {
      NoStations(w, luck);
    } else {
      hide *;
      var m := AssignAll(w, s, strategy, luck);
      KeepsFloor(w, m);
      var next := WorkAll(m, s, 0, luck);
      KeepsFloor(m, next);
      AssignMoves(w, s, strategy, luck);
      AssignLeavesNobody(w, s, strategy, luck);
      WorkMoves(m, s, 0, luck);
      StationMoves(w, m, next, s, luck);
      StationsMove(next, s + 1, strategy, luck);
      SixStations(w);
      BusyTickets(w);
      StationsTwice(w, next, StationsFrom(next, s + 1, strategy, luck), s, luck);
      StationsUnfold(w, s, strategy, luck);
    }
  }

  lemma AssignLeavesNobody(w: World, s: nat, strategy: Strategy, luck: Luck)
    requires Floor(w) && s < STATIONS && Fair(luck)
    ensures s < |AssignAll(w, s, strategy, luck).stations|
    ensures NoIdleBeside(AssignAll(w, s, strategy, luck).stations[s])
  {
    KeepsFloor(w, AssignAll(w, s, strategy, luck));
    hide AssignAll;
    NobodyIdles(w, s, strategy, luck);
  }

  /** A busy agent's ticket is at work at its station. */
  predicate TicketsAtWork(w: World) {
    forall j, k :: 0 <= j < |w.stations| && 0 <= k < |w.stations[j].agents| && w.stations[j].agents[k].ticket.Some? ==>
      Indoors(w, w.stations[j].agents[k].ticket.value, j) && Is(w, w.stations[j].agents[k].ticket.value, AtWork)
  }

  lemma BusyTickets(w: World)
    requires Floor(w)
    ensures TicketsAtWork(w)
  {
    SixStations(w);
    forall j, k | 0 <= j < |w.stations| && 0 <= k < |w.stations[j].agents| && w.stations[j].agents[k].ticket.Some?
      ensures Indoors(w, w.stations[j].agents[k].ticket.value, j)
      ensures Is(w, w.stations[j].agents[k].ticket.value, AtWork)
    {
      FloorAt(w, j);
      assert AgentOk(w, j, w.stations[j].agents[k]);
    }
  }

  lemma NoStations(w: World, luck: Luck)
    requires Floor(w)
    ensures StationsShape(w, w, STATIONS, luck)
  {
    forall id | 0 <= id < |w.tickets| ensures !IndoorsFrom(w, id, STATIONS) {
      assert Found(w, id);
    }
  }

  lemma KeepsFloor(w: World, r: World)
    requires Keeps(w, r)
    ensures Floor(r) && |r.stations| == STATIONS
  {
  }

  lemma StationsUnfold(w: World, s: nat, strategy: Strategy, luck: Luck)
    requires Floor(w) && s < STATIONS && Fair(luck)
    ensures var m := AssignAll(w, s, strategy, luck);
            && Floor(m)
            && Floor(WorkAll(m, s, 0, luck))
            && StationsFrom(w, s, strategy, luck) == StationsFrom(WorkAll(m, s, 0, luck), s + 1, strategy, luck)
  {
    hide Floor, Fair, AssignAll, WorkAll;
  }

  lemma StationsTwice(w: World, next: World, r: World, s: nat, luck: Luck)
    requires s < |w.stations| && StationShape(w, next, s, luck) && StationsShape(next, r, s + 1, luck)
    requires TicketsAtWork(w)
    ensures StationsShape(w, r, s, luck)
  {
    forall j, k | s <= j < |w.stations| && 0 <= k < |w.stations[j].agents|
      ensures AgentStep(w, r, j, w.stations[j].agents[k], r.stations[j].agents[k], luck)
    {
      AgentTwice(w, next, r, s, j, k, luck);
    }
    forall id | 0 <= id < |w.tickets|
      ensures if IndoorsFrom(w, id, s) then IndoorStep(w.tickets[id], r.tickets[id], w.tick, luck.again(id))
              else r.tickets[id] == w.tickets[id]
    {
      assert Indoors(w, id, s) ==> IndoorStep(w.tickets[id], next.tickets[id], w.tick, luck.again(id));
    }
  }

  lemma AgentTwice(w: World, next: World, r: World, s: nat, j: nat, k: nat, luck: Luck)
    requires s < |w.stations| && StationShape(w, next, s, luck) && StationsShape(next, r, s + 1, luck)
    requires TicketsAtWork(w) && s <= j < |w.stations| && k < |w.stations[j].agents|
    ensures j < |r.stations| && k < |r.stations[j].agents|
    ensures AgentStep(w, r, j, w.stations[j].agents[k], r.stations[j].agents[k], luck)
  {
    var a := w.stations[j].agents[k];
    if j == s {
      assert AgentStep(w, next, s, a, next.stations[s].agents[k], luck);
      assert r.stations[s] == next.stations[s];
      if a.ticket.Some? {
        var id := a.ticket.value;
        assert Indoors(w, id, s) && IndoorStep(w.tickets[id], next.tickets[id], w.tick, luck.again(id));
        assert !IndoorsFrom(next, id, s + 1);
      }
    } else {
      assert next.stations[j] == w.stations[j];
      assert AgentStep(next, r, j, a, r.stations[j].agents[k], luck);
      if a.ticket.Some? {
        assert Indoors(w, a.ticket.value, j) && next.tickets[a.ticket.value] == w.tickets[a.ticket.value];
      } else if Takes(next, j, a, r.stations[j].agents[k], luck) {
        var id := r.stations[j].agents[k].ticket.value;
        assert Waits(next, id, j);
        assert !Indoors(w, id, s) ==> next.tickets[id] == w.tickets[id];
      }
    }
  }

  // ---- The whole tick -------------------------------------------------------

  /** What a tick amounts to, for every ticket and every agent there was. */
  predicate StepShape(w: World, r: World, luck: Luck) {
    && |w.tickets| <= |r.tickets| && |r.stations| == |w.stations| && r.tick == w.tick + 1
    && (forall j :: 0 <= j < |w.stations| ==> |r.stations[j].agents| == |w.stations[j].agents|)
    && (forall j :: 0 <= j < |w.stations| ==>
          r.stations[j].throughput == w.stations[j].throughput + FinishCount(w.stations[j].agents, 0))
    && (forall id :: 0 <= id < |w.tickets| ==> TicketStep(w.tickets[id], r.tickets[id], r.tick, luck.again(id)))
    && (forall id :: |w.tickets| <= id < |r.tickets| ==>
          IndoorStep(NewTicket(r.tick), r.tickets[id], r.tick, luck.again(id)))
    && (forall j, k :: 0 <= j < |w.stations| && 0 <= k < |w.stations[j].agents| ==>
          TakesOn(w, r, j, w.stations[j].agents[k], r.stations[j].agents[k], luck))
  }

  /** A busy agent works on, or finishes and its ticket leaves. An idle one takes up a ticket that was not at work
      before, one that waited here, arrived here, or is new, or it stays idle, and then nobody waits here. */
  predicate TakesOn(w: World, r: World, s: nat, a: Agent, a': Agent, luck: Luck)
    requires s < |r.stations|
  {
    if a.ticket.Some? then a' == Ticked(a) && ServedTicket(w, r, a, luck)
    else
      || (a' == a && r.stations[s].queue == [])
      || (&& a'.ticket.Some?
          && var id := a'.ticket.value;
          && id < |r.tickets| && (id < |w.tickets| ==> !w.tickets[id].pos.AtWork?)
          && a' == Agent(Some(id), 1, luck.work(s, id), a.completed))
  }

  lemma StepMoves(w: World, spawnEvery: int, strategy: Strategy, luck: Luck)
    requires Floor(w) && Fair(luck)
    ensures StepShape(w, Step(w, spawnEvery, strategy, luck), luck)
  {
    SpawnKeeps(w, spawnEvery);
    var spawned := Spawned(w, spawnEvery);
    BeltsMove(spawned, |spawned.inFlight|);
    var rode := Belts(spawned, |spawned.inFlight|);
    StationsMove(rode, 0, strategy, luck);
    SpawnedParts(w, spawnEvery);
    RodeParts(spawned, rode);
    BusyTickets(w);
    hide Belts, Spawned, StationsFrom, Floor;
    StepOf(w, spawned, rode, StationsFrom(rode, 0, strategy, luck), luck);
  }

  predicate SpawnShape(w: World, r: World) {
    && |w.tickets| <= |r.tickets| && |r.stations| == |w.stations| && r.tick == w.tick + 1
    && r.tickets[..|w.tickets|] == w.tickets
    && (forall id :: |w.tickets| <= id < |r.tickets| ==> r.tickets[id] == NewTicket(r.tick))
    && (forall s :: 0 <= s < |w.stations| ==> SameCrew(w.stations[s], r.stations[s]))
  }

  lemma SpawnedParts(w: World, spawnEvery: int)
    requires Floor(w)
    ensures SpawnShape(w, Spawned(w, spawnEvery))
  {
    hide Floor;
    SixStations(w);
  }

  predicate RodeShape(w: World, r: World) {
    && |r.tickets| == |w.tickets| && |r.stations| == |w.stations| && r.tick == w.tick
    && (forall s :: 0 <= s < |w.stations| ==> SameCrew(w.stations[s], r.stations[s]))
    && (forall id :: 0 <= id < |w.tickets| ==>
          r.tickets[id] == if w.tickets[id].pos.OnBelt? then Ridden(w.tickets[id]) else w.tickets[id])
    && (forall id :: 0 <= id < |r.tickets| ==> r.tickets[id].station < |r.stations|)
  }

  lemma RodeParts(w: World, r: World)
    requires Floor(w) && Keeps(w, r) && BeltsShape(w, r, |w.inFlight|)
    ensures RodeShape(w, r)
  {
    assert w.inFlight[..|w.inFlight|] == w.inFlight;
    hide Ridden;
    forall id | 0 <= id < |w.tickets|
      ensures id in w.inFlight <==> w.tickets[id].pos.OnBelt?
    {
      assert Found(w, id);
      if id in w.inFlight {
        var i :| 0 <= i < |w.inFlight| && w.inFlight[i] == id;
        assert Rides(w, w.inFlight[i]);
      }
    }
    forall id | 0 <= id < |r.tickets| ensures r.tickets[id].station < |r.stations| {
      assert Found(r, id);
    }
  }

  lemma StepOf(w: World, spawned: World, rode: World, r: World, luck: Luck)
    requires SpawnShape(w, spawned) && RodeShape(spawned, rode) && StationsShape(rode, r, 0, luck) && TicketsAtWork(w)
    ensures StepShape(w, r, luck)
  {
    forall id | 0 <= id < |r.tickets|
      ensures if id < |w.tickets| then TicketStep(w.tickets[id], r.tickets[id], r.tick, luck.again(id))
              else IndoorStep(NewTicket(r.tick), r.tickets[id], r.tick, luck.again(id))
    {
      assert id < |w.tickets| ==> spawned.tickets[..|w.tickets|][id] == spawned.tickets[id];
      assert !IndoorsFrom(rode, id, 0) ==> r.tickets[id] == rode.tickets[id];
    }
    forall j, k | 0 <= j < |w.stations| && 0 <= k < |w.stations[j].agents|
      ensures TakesOn(w, r, j, w.stations[j].agents[k], r.stations[j].agents[k], luck)
    {
      var a, a' := w.stations[j].agents[k], r.stations[j].agents[k];
      assert SameCrew(w.stations[j], spawned.stations[j]) && SameCrew(spawned.stations[j], rode.stations[j]);
      assert AgentStep(rode, r, j, rode.stations[j].agents[k], a', luck);
      if a.ticket.Some? {
        var id := a.ticket.value;
        assert Is(w, id, AtWork);
        assert spawned.tickets[..|w.tickets|][id] == spawned.tickets[id];
      } else if Takes(rode, j, a, a', luck) {
        var id := a'.ticket.value;
        assert Waits(rode, id, j);
        assert id < |w.tickets| ==> spawned.tickets[..|w.tickets|][id] == spawned.tickets[id];
      }
    }
  }

  // ---- How long a ticket takes ----------------------------------------------

  /** The age at which a ticket can first stand in a station's queue. */
  function Earliest(s: nat): nat {
    if s == 0 then 0 else Earliest(s - 1) + WorkMin(s - 1) - 1 + BELT_TICKS
  }

  function Age(w: World, t: Ticket): int {
    w.tick - t.created
  }

  predicate AgeOk(w: World, t: Ticket) {
    match t.pos
    case InQueue => Age(w, t) >= Earliest(t.station)
    case AtWork => true
    case OnBelt => Age(w, t) >= Earliest(t.station) + WorkMin(t.station) - 1 + t.beltProg
    case Shipped => t.shippedAt.Some? && t.shippedAt.value - t.created >= Earliest(SHIP) + WorkMin(SHIP) - 1
  }

  predicate AgentAgeOk(w: World, s: nat, a: Agent) {
    a.ticket.Some? ==>
      && a.ticket.value < |w.tickets| && a.progress >= 1
      && Age(w, w.tickets[a.ticket.value]) >= Earliest(s) + a.progress - 1
  }

  predicate Aged(w: World) {
    && (forall id :: 0 <= id < |w.tickets| ==> AgeOk(w, w.tickets[id]))
    && (forall s, k :: 0 <= s < |w.stations| && 0 <= k < |w.stations[s].agents| ==>
              AgentAgeOk(w, s, w.stations[s].agents[k]))
  }

  lemma EarliestSteps(from: nat, to: nat)
    requires Route(from, to)
    ensures Earliest(to) <= Earliest(from) + WorkMin(from) - 1 + BELT_TICKS
  {
    assert Earliest(0) == 0 && Earliest(1) == 47 && Earliest(2) == 122;
    assert Earliest(3) == 237 && Earliest(4) == 312 && Earliest(5) == 377;
  }

  lemma StepAges(w: World, r: World, luck: Luck)
    requires Floor(w) && Floor(r) && StepShape(w, r, luck) && Aged(w)
    ensures Aged(r)
  {
    hide Floor, Everywhere, Earliest;
    forall id | 0 <= id < |r.tickets| ensures AgeOk(r, r.tickets[id]) {
      if id < |w.tickets| {
        TicketAges(w, r, luck, id);
      } else {
        NewAges(w, r, luck, id);
      }
    }
    forall s, k | 0 <= s < |r.stations| && 0 <= k < |r.stations[s].agents|
      ensures AgentAgeOk(r, s, r.stations[s].agents[k])
    {
      AgentAges(w, r, luck, s, k);
    }
  }

  lemma NewAges(w: World, r: World, luck: Luck, id: nat)
    requires StepShape(w, r, luck) && |w.tickets| <= id < |r.tickets|
    ensures AgeOk(r, r.tickets[id]) && Age(r, r.tickets[id]) == 0
    ensures r.tickets[id].pos.AtWork? ==> r.tickets[id].station == 0
  {
    assert IndoorStep(NewTicket(r.tick), r.tickets[id], r.tick, luck.again(id));
  }

  lemma TicketAges(w: World, r: World, luck: Luck, id: nat)
    requires Floor(w) && Floor(r) && StepShape(w, r, luck) && Aged(w) && id < |w.tickets|
    ensures AgeOk(r, r.tickets[id])
  {
    var t := w.tickets[id];
    FloorFinds(w, id);
    assert AgeOk(w, t) && TicketStep(t, r.tickets[id], r.tick, luck.again(id));
    if t.pos.OnBelt? {
      BeltRides(w, id);
      EarliestSteps(t.station, t.beltTo.value);
    } else if t.pos.AtWork? && r.tickets[id] != t {
      hide Earliest;
      var s := t.station;
      var k :| 0 <= k < |w.stations[s].agents| && w.stations[s].agents[k].ticket == Some(id);
      var a, a' := w.stations[s].agents[k], r.stations[s].agents[k];
      assert TakesOn(w, r, s, a, a', luck) && AgentAgeOk(w, s, a);
      SixStations(w);
      FloorAt(w, s);
      FloorAt(r, s);
      assert AgentOk(w, s, a) && AgentOk(r, s, a');
      assert Finishing(a);
    }
  }

  lemma BeltRides(w: World, id: nat)
    requires Floor(w) && id < |w.tickets| && w.tickets[id].pos.OnBelt?
    ensures Rides(w, id)
  {
    FloorFinds(w, id);
    var i :| 0 <= i < |w.inFlight| && w.inFlight[i] == id;
    assert Rides(w, w.inFlight[i]);
  }

  lemma AgentAges(w: World, r: World, luck: Luck, s: nat, k: nat)
    requires Floor(w) && Floor(r) && StepShape(w, r, luck) && Aged(w) && s < |r.stations| && k < |r.stations[s].agents|
    ensures AgentAgeOk(r, s, r.stations[s].agents[k])
  {
    hide Floor, Everywhere;
    var a, a' := w.stations[s].agents[k], r.stations[s].agents[k];
    assert TakesOn(w, r, s, a, a', luck) && AgentAgeOk(w, s, a);
    SixStations(w);
    FloorAt(r, s);
    assert AgentOk(r, s, a');
    if a'.ticket.Some? {
      var id := a'.ticket.value;
      if id >= |w.tickets| {
        NewAges(w, r, luck, id);
      } else {
        var t := w.tickets[id];
        assert TicketStep(t, r.tickets[id], r.tick, luck.again(id)) && AgeOk(w, t);
        if t.pos.OnBelt? {
          BeltRides(w, id);
          EarliestSteps(t.station, t.beltTo.value);
        }
      }
    }
  }

  lemma DismissAges(w: World, s: nat)
    requires Floor(w) && s < STATIONS && w.stations[s].agents != [] && Aged(w)
    ensures Aged(Dismissed(w, s))
  {
    hide Earliest;
    var last := |w.stations[s].agents| - 1;
    FloorAt(w, s);
    assert AgentAgeOk(w, s, w.stations[s].agents[last]) && AgentOk(w, s, w.stations[s].agents[last]);
    hide Floor;
    var r := Dismissed(w, s);
    forall j, k | 0 <= j < |r.stations| && 0 <= k < |r.stations[j].agents|
      ensures AgentAgeOk(r, j, r.stations[j].agents[k])
    {
      assert AgentAgeOk(w, j, w.stations[j].agents[k]);
    }
  }

  lemma HireAges(w: World, s: nat)
    requires s < |w.stations| && Aged(w)
    ensures Aged(Hired(w, s))
  {
    hide Earliest;
    var r := Hired(w, s);
    forall j, k | 0 <= j < |r.stations| && 0 <= k < |r.stations[j].agents|
      ensures AgentAgeOk(r, j, r.stations[j].agents[k])
    {
      assert k < |w.stations[j].agents| ==> AgentAgeOk(w, j, w.stations[j].agents[k]);
    }
  }

  lemma {:induction false} ResizeAges(w: World, s: nat, want: nat)
    requires Floor(w) && s < STATIONS && Aged(w)
    ensures Aged(Resized(w, s, want))
    decreases if |w.stations[s].agents| < want then want - |w.stations[s].agents| else |w.stations[s].agents| - want
  {
    SixStations(w);
    hide Floor, Everywhere, Aged;
    if |w.stations[s].agents| < want {
      HireKeeps(w, s);
      HireAges(w, s);
      ResizeAges(Hired(w, s), s, want);
    } else if |w.stations[s].agents| > want {
      DismissKeeps(w, s);
      DismissAges(w, s);
      ResizeAges(Dismissed(w, s), s, want);
    }
  }

  lemma {:induction false} ReconfigureAges(w: World, s: nat, per: seq<int>)
    requires Floor(w) && s <= STATIONS == |per| && Aged(w)
    ensures Aged(Reconfigured(w, s, per))
    decreases STATIONS - s
  {
    hide Floor, Aged, Resized, Everywhere;
    if s < STATIONS {
      ResizeAges(w, s, Wanted(per[s]));
      ReconfigureAges(Resized(w, s, Wanted(per[s])), s + 1, per);
    }
  }

  lemma {:induction false} RunAges(w: World, spawnEvery: int, events: seq<Event>)
    requires Floor(w) && Aged(w) && forall i :: 0 <= i < |events| ==> Possible(events[i])
    ensures Aged(RunOf(w, spawnEvery, events))
    decreases |events|
  {
    hide Floor, Aged, Step, Reconfigured, StepShape;
    if events != [] {
      var last := |events| - 1;
      RunAges(w, spawnEvery, events[..last]);
      var before := RunOf(w, spawnEvery, events[..last]);
      match events[last]
      case Tick(strategy, luck) =>
        StepMoves(before, spawnEvery, strategy, luck);
        StepAges(before, Step(before, spawnEvery, strategy, luck), luck);
      case Reconfigure(per) => ReconfigureAges(before, 0, per);
    }
  }

  /** No ticket is shipped in fewer than 386 ticks, however the floor is staffed, served or reconfigured. */
  lemma NothingShipsEarly(per: seq<int>, spawnEvery: int, events: seq<Event>, id: nat)
    requires |per| == STATIONS && forall i :: 0 <= i < |events| ==> Possible(events[i])
    requires Floor(Start(per)) && id in RunOf(Start(per), spawnEvery, events).shipped
    ensures var w := RunOf(Start(per), spawnEvery, events);
            && id < |w.tickets| && w.tickets[id].shippedAt.Some?
            && w.tickets[id].shippedAt.value - w.tickets[id].created >= 386
  {
    hide RunOf;
    assert Aged(Start(per));
    RunAges(Start(per), spawnEvery, events);
    var w := RunOf(Start(per), spawnEvery, events);
    var i :| 0 <= i < |w.shipped| && w.shipped[i] == id;
    assert Is(w, w.shipped[i], Shipped) && AgeOk(w, w.tickets[id]);
    assert Earliest(1) == 47 && Earliest(2) == 122 && Earliest(3) == 237 && Earliest(4) == 312 && Earliest(5) == 377;
  }

  /** The least age at which a ticket can wait at each station, over every run: the sums of the shortest work of the
      stations before it and of the rides between them. */
  lemma NothingWaitsEarly(per: seq<int>, spawnEvery: int, events: seq<Event>, s: nat, id: nat)
    requires |per| == STATIONS && forall i :: 0 <= i < |events| ==> Possible(events[i])
    requires Floor(Start(per)) && s < STATIONS
    requires s < |RunOf(Start(per), spawnEvery, events).stations|
             && id in RunOf(Start(per), spawnEvery, events).stations[s].queue
    ensures var w := RunOf(Start(per), spawnEvery, events);
            && id < |w.tickets|
            && w.tick - w.tickets[id].created >= [0, 47, 122, 237, 312, 377][s]
  {
    hide RunOf;
    assert Aged(Start(per));
    RunAges(Start(per), spawnEvery, events);
    var w := RunOf(Start(per), spawnEvery, events);
    FloorAt(w, s);
    var i :| 0 <= i < |w.stations[s].queue| && w.stations[s].queue[i] == id;
    assert Waits(w, w.stations[s].queue[i], s) && AgeOk(w, w.tickets[id]);
    assert Earliest(1) == 47 && Earliest(2) == 122 && Earliest(3) == 237 && Earliest(4) == 312 && Earliest(5) == 377;
  }
}
