/** The order in which tickets stand in queues, on belts and among the shipped, and what a reconfiguration does. */
module FactoryLines {
  import opened Text
  import opened FactoryModel
  import opened FactoryMoves
  import opened FactoryRuns
  import opened FactoryQueues
  import opened FactoryTicks

  lemma StillInOrder(w: World, r: World)
    requires Keeps(w, r)
    ensures Floor(r)
  {
  }

  // ---- Belts ----------------------------------------------------------------

  predicate Arrives(tickets: seq<Ticket>, id: nat) {
    id < |tickets| && tickets[id].beltProg + 1 >= BELT_TICKS
  }

  /** Who reaches station `s` in this tick, the last one in flight first. */
  function Arrivals(tickets: seq<Ticket>, ids: seq<nat>, s: nat): seq<nat> {
    if ids == [] then []
    else
      var last := ids[|ids| - 1];
      (if Arrives(tickets, last) && tickets[last].beltTo == Some(s) then [last] else [])
      + Arrivals(tickets, ids[..|ids| - 1], s)
  }

  /** Who stays on its belt, in the order of departure. */
  function Riding(tickets: seq<Ticket>, ids: seq<nat>): seq<nat> {
    if ids == [] then []
    else
      var last := ids[|ids| - 1];
      Riding(tickets, ids[..|ids| - 1]) + if Arrives(tickets, last) then [] else [last]
  }

  predicate SameFor(a: seq<Ticket>, b: seq<Ticket>, ids: seq<nat>) {
    forall i :: 0 <= i < |ids| ==> ids[i] < |a| && ids[i] < |b| && a[ids[i]] == b[ids[i]]
  }

  lemma {:induction false} SameRides(a: seq<Ticket>, b: seq<Ticket>, ids: seq<nat>)
    requires SameFor(a, b, ids)
    ensures Riding(a, ids) == Riding(b, ids)
    ensures forall s: nat :: Arrivals(a, ids, s) == Arrivals(b, ids, s)
  {
    if ids != [] {
      SameRides(a, b, ids[..|ids| - 1]);
    }
  }

  predicate BeltLines(w: World, r: World, n: nat)
    requires n <= |w.inFlight|
  {
    && |r.stations| == |w.stations| && r.shipped == w.shipped
    && r.inFlight == Riding(w.tickets, w.inFlight[..n]) + w.inFlight[n..]
    && forall s :: 0 <= s < |w.stations| ==>
         r.stations[s].queue == w.stations[s].queue + Arrivals(w.tickets, w.inFlight[..n], s)
  }

  predicate OneBeltLine(w: World, next: World, n: nat)
    requires 1 <= n <= |w.inFlight|
  {
    var id := w.inFlight[n - 1];
    && |next.stations| == |w.stations| && next.shipped == w.shipped
    && SameFor(w.tickets, next.tickets, w.inFlight[..n - 1])
    && next.inFlight == w.inFlight[..n - 1] + (if Arrives(w.tickets, id) then [] else [id]) + w.inFlight[n..]
    && forall s :: 0 <= s < |w.stations| ==>
         next.stations[s].queue == w.stations[s].queue
           + if Arrives(w.tickets, id) && w.tickets[id].beltTo == Some(s) then [id] else []
  }

  lemma OneBeltLines(w: World, n: nat)
    requires Floor(w) && 1 <= n <= |w.inFlight|
    ensures OneBeltLine(w, BeltMoved(w, n - 1), n)
  {
    SixStations(w);
    var id := w.inFlight[n - 1];
    assert Rides(w, id);
    forall i | 0 <= i < n - 1 ensures w.inFlight[i] < |w.tickets| && w.inFlight[i] != id {
      assert Rides(w, w.inFlight[i]);
    }
    hide Floor;
    assert w.inFlight == w.inFlight[..n - 1] + [id] + w.inFlight[n..];
  }

  /** Belts keep their order, and those that arrive join the queue they were sent to, the last in flight first. */
  lemma {:induction false} BeltsInOrder(w: World, n: nat)
    requires Floor(w) && n <= |w.inFlight|
    ensures BeltLines(w, Belts(w, n), n)
    decreases n
  {
    hide *;
    if n == 0 {
      NoBeltLines(w);
    } else {
      var next := BeltMoved(w, n - 1);
      OneBeltLines(w, n);
      BeltsUnfold(w, n);
      BeltsInOrder(next, n - 1);
      TwoBeltLines(w, next, Belts(next, n - 1), n);
    }
  }

  lemma NoBeltLines(w: World)
    requires Floor(w)
    ensures BeltLines(w, Belts(w, 0), 0)
  {
    hide Floor;
  }

  lemma TwoBeltLines(w: World, next: World, r: World, n: nat)
    requires 1 <= n <= |w.inFlight| && n - 1 <= |next.inFlight|
    requires OneBeltLine(w, next, n) && BeltLines(next, r, n - 1)
    ensures BeltLines(w, r, n)
  {
    SameBefore(w, next, n);
    FlightLine(w, next, r, n);
    forall s | 0 <= s < |w.stations|
      ensures r.stations[s].queue == w.stations[s].queue + Arrivals(w.tickets, w.inFlight[..n], s)
    {
      QueueLine(w, next, r, n, s);
    }
    hide Arrives, SameFor, Riding, Arrivals;
  }

  lemma FlightLine(w: World, next: World, r: World, n: nat)
    requires 1 <= n <= |w.inFlight| && n - 1 <= |next.inFlight|
    requires r.inFlight == Riding(next.tickets, next.inFlight[..n - 1]) + next.inFlight[n - 1..]
    requires var id, before := w.inFlight[n - 1], w.inFlight[..n - 1];
             && next.inFlight[..n - 1] == before
             && next.inFlight[n - 1..] == (if Arrives(w.tickets, id) then [] else [id]) + w.inFlight[n..]
             && Riding(next.tickets, before) == Riding(w.tickets, before)
    ensures r.inFlight == Riding(w.tickets, w.inFlight[..n]) + w.inFlight[n..]
  {
    var id, before := w.inFlight[n - 1], w.inFlight[..n - 1];
    assert w.inFlight[..n] == before + [id];
    RidingLast(w.tickets, before, id);
    hide Riding, Arrives;
    var one := if Arrives(w.tickets, id) then [] else [id];
    Joined(Riding(w.tickets, before), Riding(w.tickets, w.inFlight[..n]), Riding(w.tickets, w.inFlight[..n])
           + w.inFlight[n..], one, w.inFlight[n..]);
  }

  lemma QueueLine(w: World, next: World, r: World, n: nat, s: nat)
    requires 1 <= n <= |w.inFlight| && n - 1 <= |next.inFlight|
    requires s < |w.stations| && s < |next.stations| && s < |r.stations|
    requires var id, before := w.inFlight[n - 1], w.inFlight[..n - 1];
             && next.inFlight[..n - 1] == before
             && Arrivals(next.tickets, before, s) == Arrivals(w.tickets, before, s)
             && r.stations[s].queue == next.stations[s].queue + Arrivals(next.tickets, next.inFlight[..n - 1], s)
             && next.stations[s].queue == w.stations[s].queue
                  + if Arrives(w.tickets, id) && w.tickets[id].beltTo == Some(s) then [id] else []
    ensures r.stations[s].queue == w.stations[s].queue + Arrivals(w.tickets, w.inFlight[..n], s)
  {
    var id, before := w.inFlight[n - 1], w.inFlight[..n - 1];
    assert w.inFlight[..n] == before + [id];
    ArrivalsLast(w.tickets, before, id, s);
    hide Arrivals;
    var one := if Arrives(w.tickets, id) && w.tickets[id].beltTo == Some(s) then [id] else [];
    Joined(w.stations[s].queue, next.stations[s].queue, r.stations[s].queue, one, Arrivals(w.tickets, before, s));
  }

  lemma SameBefore(w: World, next: World, n: nat)
    requires 1 <= n <= |w.inFlight| && n - 1 <= |next.inFlight| && OneBeltLine(w, next, n)
    ensures var id, before := w.inFlight[n - 1], w.inFlight[..n - 1];
            && next.inFlight[..n - 1] == before
            && next.inFlight[n - 1..] == (if Arrives(w.tickets, id) then [] else [id]) + w.inFlight[n..]
            && Riding(next.tickets, before) == Riding(w.tickets, before)
            && forall s: nat :: Arrivals(next.tickets, before, s) == Arrivals(w.tickets, before, s)
  {
    hide Arrives;
    SameRides(w.tickets, next.tickets, w.inFlight[..n - 1]);
  }

  lemma Joined(q: seq<nat>, next: seq<nat>, r: seq<nat>, one: seq<nat>, rest: seq<nat>)
    requires next == q + one && r == next + rest
    ensures r == q + (one + rest)
  {
  }

  lemma RidingLast(tickets: seq<Ticket>, ids: seq<nat>, id: nat)
    ensures Riding(tickets, ids + [id]) == Riding(tickets, ids) + if Arrives(tickets, id) then [] else [id]
  {
    assert (ids + [id])[..|ids|] == ids;
  }

  lemma ArrivalsLast(tickets: seq<Ticket>, ids: seq<nat>, id: nat, s: nat)
    ensures Arrivals(tickets, ids + [id], s)
            == (if Arrives(tickets, id) && tickets[id].beltTo == Some(s) then [id] else []) + Arrivals(tickets, ids, s)
  {
    assert (ids + [id])[..|ids|] == ids;
  }

  // ---- Stations -------------------------------------------------------------

  function FinishedBy(a: Agent): seq<nat> {
    if Finishing(a) then [a.ticket.value] else []
  }

  /** The tickets that agents from `k` on finish in this tick. */
  function Finished(agents: seq<Agent>, k: nat): seq<nat>
    requires k <= |agents|
    decreases |agents| - k
  {
    if k == |agents| then []
    else FinishedBy(agents[k]) + Finished(agents, k + 1)
  }

  lemma {:induction false} SameFinished(a: seq<Agent>, b: seq<Agent>, k: nat)
    requires |a| == |b| && k <= |a|
    requires forall j :: k <= j < |a| ==>
               Finishing(a[j]) == Finishing(b[j]) && (Finishing(a[j]) ==> a[j].ticket == b[j].ticket)
    ensures Finished(a, k) == Finished(b, k)
    decreases |a| - k
  {
    if k < |a| {
      SameFinished(a, b, k + 1);
    }
  }

  lemma {:induction false} AssignLines(w: World, s: nat, strategy: Strategy, luck: Luck)
    requires Floor(w) && s < STATIONS && Fair(luck)
    ensures var r := AssignAll(w, s, strategy, luck); r.inFlight == w.inFlight && r.shipped == w.shipped
    decreases |w.stations[s].queue|
  {
    hide Everywhere;
    var st := w.stations[s];
    if st.queue != [] && Choose(st, strategy).Chosen? {
      var c := Choose(st, strategy);
      AssignKeeps(w, s, c.agent, c.turn, strategy, luck);
      AssignLinesStep(w, s, c.agent, c.turn, strategy, luck);
      hide Floor, Choose, Assigned, Fair;
      AssignLines(Assigned(w, s, c.agent, c.turn, strategy, luck), s, strategy, luck);
    }
  }

  lemma AssignLinesStep(w: World, s: nat, k: nat, turn: nat, strategy: Strategy, luck: Luck)
    requires Floor(w) && s < STATIONS && w.stations[s].queue != [] && IsIdle(w.stations[s], k)
    ensures var r := Assigned(w, s, k, turn, strategy, luck);
            && r.inFlight == w.inFlight && r.shipped == w.shipped
  {
    hide Floor;
  }

  /** Finished tickets go behind those in flight, and behind the shipped ones from the last station. */
  predicate Gained(w: World, r: World, s: nat, done: seq<nat>) {
    && r.inFlight == w.inFlight + (if s < SHIP then done else [])
    && r.shipped == w.shipped + (if s < SHIP then [] else done)
  }

  lemma GainedTwice(w: World, next: World, r: World, s: nat, one: seq<nat>, rest: seq<nat>)
    requires Gained(w, next, s, one) && Gained(next, r, s, rest)
    ensures Gained(w, r, s, one + rest)
  {
  }

  lemma {:induction false} WorkLines(w: World, s: nat, k: nat, luck: Luck)
    requires Floor(w) && s < STATIONS && k <= |w.stations[s].agents|
    ensures Gained(w, WorkAll(w, s, k, luck), s, Finished(w.stations[s].agents, k))
    decreases |w.stations[s].agents| - k
  {
    hide *;
    SixStations(w);
    if k < |w.stations[s].agents| {
      WorkKeeps(w, s, k, luck);
      var next := Worked(w, s, k, luck);
      StillInOrder(w, next);
      OneWorked(w, s, k, luck);
      WorkLinesStep(w, s, k, luck);
      SameCrewSize(w, next, s, k, luck);
      WorkLines(next, s, k + 1, luck);
      WorkUnfold(w, s, k, luck);
      GainedTwice(w, next, WorkAll(next, s, k + 1, luck), s, FinishedBy(w.stations[s].agents[k]),
                  Finished(next.stations[s].agents, k + 1));
    } else {
      NoWork(w, s, luck);
    }
  }

  lemma SameCrewSize(w: World, next: World, s: nat, k: nat, luck: Luck)
    requires OneWorkShape(w, next, s, k, luck)
    ensures s < |next.stations| && s < |w.stations| && k < |w.stations[s].agents| == |next.stations[s].agents|
    ensures Finished(w.stations[s].agents, k)
            == FinishedBy(w.stations[s].agents[k]) + Finished(next.stations[s].agents, k + 1)
  {
    SameFinished(w.stations[s].agents, next.stations[s].agents, k + 1);
  }

  lemma NoWork(w: World, s: nat, luck: Luck)
    requires Floor(w) && s < STATIONS
    ensures var n := |w.stations[s].agents|;
            Gained(w, WorkAll(w, s, n, luck), s, Finished(w.stations[s].agents, n))
  {
    hide Floor;
    SixStations(w);
  }

  lemma WorkUnfold(w: World, s: nat, k: nat, luck: Luck)
    requires Floor(w) && s < STATIONS && k < |w.stations[s].agents|
    requires var next := Worked(w, s, k, luck);
             Floor(next) && s < |next.stations| && |next.stations[s].agents| == |w.stations[s].agents|
    ensures WorkAll(w, s, k, luck) == WorkAll(Worked(w, s, k, luck), s, k + 1, luck)
  {
    SixStations(w);
    hide Floor, Worked;
  }

  lemma WorkLinesStep(w: World, s: nat, k: nat, luck: Luck)
    requires Floor(w) && s < STATIONS && k < |w.stations[s].agents|
    ensures Gained(w, Worked(w, s, k, luck), s, FinishedBy(w.stations[s].agents[k]))
  {
    FloorAt(w, s);
    hide Floor;
    assert AgentOk(w, s, w.stations[s].agents[k]);
  }

  /** The tickets that leave stations `s` and later for a belt. */
  function Departing(stations: seq<Station>, s: nat): seq<nat>
    decreases SHIP - s
  {
    if s >= SHIP || s >= |stations| then [] else Finished(stations[s].agents, 0) + Departing(stations, s + 1)
  }

  lemma {:induction false} SameDeparting(a: seq<Station>, b: seq<Station>, s: nat)
    requires |a| == |b| && forall j :: s <= j < |a| ==> a[j].agents == b[j].agents
    ensures Departing(a, s) == Departing(b, s)
    decreases SHIP - s
  {
    if s < SHIP && s < |a| {
      SameDeparting(a, b, s + 1);
    }
  }

  predicate StationLines(w: World, r: World, s: nat) {
    && |w.stations| == STATIONS
    && r.inFlight == w.inFlight + Departing(w.stations, s)
    && r.shipped == w.shipped + if s <= SHIP then Finished(w.stations[SHIP].agents, 0) else []
  }

  lemma OneStationLines(w: World, s: nat, strategy: Strategy, luck: Luck)
    requires Floor(w) && s < STATIONS && Fair(luck)
    ensures var next := WorkAll(AssignAll(w, s, strategy, luck), s, 0, luck);
            && Gained(w, next, s, Finished(w.stations[s].agents, 0))
            && |next.stations| == |w.stations|
            && forall j :: 0 <= j < |w.stations| && j != s ==> next.stations[j] == w.stations[j]
  {
    hide *;
    var m := AssignAll(w, s, strategy, luck);
    AssignLines(w, s, strategy, luck);
    AssignMoves(w, s, strategy, luck);
    StillInOrder(w, m);
    SixStations(m);
    WorkLines(m, s, 0, luck);
    WorkMoves(m, s, 0, luck);
    SameWithAssigned(w, m, WorkAll(m, s, 0, luck), s, Finished(m.stations[s].agents, 0));
    OneStationParts(w, m, WorkAll(m, s, 0, luck), s, luck);
  }

  lemma SameWithAssigned(w: World, m: World, r: World, s: nat, done: seq<nat>)
    requires Gained(m, r, s, done) && m.inFlight == w.inFlight && m.shipped == w.shipped
    ensures Gained(w, r, s, done)
  {
  }

  lemma OneStationParts(w: World, m: World, next: World, s: nat, luck: Luck)
    requires AssignShape(w, m, s, luck) && WorkShape(m, next, s, 0, luck) && Fair(luck)
    ensures s < |w.stations| == |next.stations| && s < |m.stations|
    ensures Finished(m.stations[s].agents, 0) == Finished(w.stations[s].agents, 0)
    ensures forall j :: 0 <= j < |w.stations| && j != s ==> next.stations[j] == w.stations[j]
  {
    var a, b := w.stations[s].agents, m.stations[s].agents;
    forall j | 0 <= j < |a|
      ensures Finishing(a[j]) == Finishing(b[j]) && (Finishing(a[j]) ==> a[j].ticket == b[j].ticket)
    {
      assert Given(w, s, a[j], b[j], luck);
      if a[j] != b[j] {
        DrawnIsLong(luck, s, b[j].ticket.value);
      }
    }
    SameFinished(a, b, 0);
  }

  lemma {:induction false} StationsInOrder(w: World, s: nat, strategy: Strategy, luck: Luck)
    requires Floor(w) && s <= STATIONS && Fair(luck)
    ensures StationLines(w, StationsFrom(w, s, strategy, luck), s)
    decreases STATIONS - s
  {
    hide *;
    SixStations(w);
    if s < STATIONS {
      OneStationLines(w, s, strategy, luck);
      StationsUnfold(w, s, strategy, luck);
      var a := AssignAll(w, s, strategy, luck);
      StillInOrder(w, a);
      SixStations(a);
      var next := WorkAll(a, s, 0, luck);
      StationsInOrder(next, s + 1, strategy, luck);
      TwoStationLines(w, next, StationsFrom(next, s + 1, strategy, luck), s);
    } else {
      NoStations(w, strategy, luck);
    }
  }

  lemma TwoStationLines(w: World, next: World, r: World, s: nat)
    requires s < STATIONS == |w.stations| && StationLines(next, r, s + 1)
    requires forall j :: 0 <= j < |w.stations| && j != s ==> next.stations[j] == w.stations[j]
    requires Gained(w, next, s, Finished(w.stations[s].agents, 0))
    ensures StationLines(w, r, s)
  {
    SameDeparting(w.stations, next.stations, s + 1);
    DepartingFirst(w.stations, s);
    hide Finished, Departing;
    if s < SHIP {
      var done := Finished(w.stations[s].agents, 0);
      assert next.stations[SHIP] == w.stations[SHIP];
      Joined(w.inFlight, next.inFlight, r.inFlight, done, Departing(w.stations, s + 1));
    } else {
      assert r.shipped == next.shipped && r.inFlight == w.inFlight + Departing(w.stations, s + 1);
    }
  }

  lemma DepartingFirst(stations: seq<Station>, s: nat)
    requires s < STATIONS == |stations|
    ensures Departing(stations, s) == (if s < SHIP then Finished(stations[s].agents, 0) else [])
                                      + Departing(stations, s + 1)
  {
    hide Finished;
  }

  lemma NoStations(w: World, strategy: Strategy, luck: Luck)
    requires Floor(w) && Fair(luck)
    ensures StationLines(w, StationsFrom(w, STATIONS, strategy, luck), STATIONS)
  {
    SixStations(w);
    hide Floor;
  }

  lemma StationsUnfold(w: World, s: nat, strategy: Strategy, luck: Luck)
    requires Floor(w) && s < STATIONS && Fair(luck)
    ensures var next := WorkAll(AssignAll(w, s, strategy, luck), s, 0, luck);
            Floor(next) && StationsFrom(w, s, strategy, luck) == StationsFrom(next, s + 1, strategy, luck)
  {
    hide Floor, AssignAll, WorkAll;
  }

  // ---- The whole tick -------------------------------------------------------

  predicate TailOf(w: World, r: World, j: nat, m: nat) {
    && j < |w.stations| == |r.stations| && m <= |w.stations[j].queue|
    && r.stations[j].queue == w.stations[j].queue[m..]
  }

  lemma TailTwice(w: World, next: World, r: World, j: nat, m: nat, n: nat)
    requires TailOf(w, next, j, m) && TailOf(next, r, j, n)
    ensures TailOf(w, r, j, m + n)
  {
  }

  /** Without priority, every queue keeps its order and loses its head only. */
  lemma {:induction false} QueueLeft(w: World, s: nat, j: nat, strategy: Strategy, luck: Luck) returns (m: nat)
    requires Floor(w) && s <= STATIONS && j < STATIONS && Fair(luck) && !strategy.Priority?
    ensures TailOf(w, StationsFrom(w, s, strategy, luck), j, m) && (j < s ==> m == 0)
    decreases STATIONS - s
  {
    hide *;
    m := 0;
    if s < STATIONS {
      var a := AssignAll(w, s, strategy, luck);
      StillInOrder(w, a);
      SixStations(a);
      var next := WorkAll(a, s, 0, luck);
      var head := OneQueueLeft(w, s, j, strategy, luck);
      var rest := QueueLeft(next, s + 1, j, strategy, luck);
      TailTwice(w, next, StationsFrom(next, s + 1, strategy, luck), j, head, rest);
      StationsUnfold(w, s, strategy, luck);
      m := head + rest;
    } else {
      QueuesAfter(w, j, strategy, luck);
    }
  }

  lemma TailIs(w: World, r: World, j: nat, m: nat)
    requires TailOf(w, r, j, m)
    ensures j < |w.stations| == |r.stations| && m <= |w.stations[j].queue|
    ensures r.stations[j].queue == w.stations[j].queue[m..]
  {
  }

  lemma QueuesAfter(w: World, j: nat, strategy: Strategy, luck: Luck)
    requires Floor(w) && Fair(luck) && j < STATIONS
    ensures TailOf(w, StationsFrom(w, STATIONS, strategy, luck), j, 0)
  {
    SixStations(w);
    hide Floor;
  }

  lemma OneQueueLeft(w: World, s: nat, j: nat, strategy: Strategy, luck: Luck) returns (m: nat)
    requires Floor(w) && s < STATIONS && j < STATIONS && Fair(luck) && !strategy.Priority?
    ensures var next := WorkAll(AssignAll(w, s, strategy, luck), s, 0, luck);
            Floor(next) && TailOf(w, next, j, m) && (j != s ==> m == 0)
  {
    hide *;
    SixStations(w);
    var a := AssignAll(w, s, strategy, luck);
    StillInOrder(w, a);
    SixStations(a);
    var next := WorkAll(a, s, 0, luck);
    StillInOrder(a, next);
    SixStations(next);
    WorkMoves(a, s, 0, luck);
    WorkQueue(a, next, s, luck);
    OneStationLines(w, s, strategy, luck);
    m := 0;
    if j == s {
      m := ServedInOrder(w, s, strategy, luck);
    }
    assert TailOf(w, next, j, m) by {
      OneTail(w, next, j, m);
    }
  }

  lemma OneTail(w: World, r: World, j: nat, m: nat)
    requires j < |w.stations| == |r.stations| && m <= |w.stations[j].queue|
    requires r.stations[j].queue == w.stations[j].queue[m..]
    ensures TailOf(w, r, j, m)
  {
  }

  lemma WorkQueue(w: World, r: World, s: nat, luck: Luck)
    requires WorkShape(w, r, s, 0, luck)
    ensures s < |w.stations| && s < |r.stations| && r.stations[s].queue == w.stations[s].queue
  {
  }

  /** A tick keeps every order: belts and shipped tickets line up as they come, a new ticket and then the arrivals join
      the end of their queue, and without priority a queue is served from its head. */
  lemma StepInOrder(w: World, spawnEvery: int, strategy: Strategy, luck: Luck, s: nat) returns (m: nat)
    requires Floor(w) && Fair(luck) && s < STATIONS
    ensures var r := Step(w, spawnEvery, strategy, luck);
            && |w.stations| == STATIONS == |r.stations|
            && r.inFlight == Riding(w.tickets, w.inFlight) + Departing(w.stations, 0)
            && r.shipped == w.shipped + Finished(w.stations[SHIP].agents, 0)
    ensures var r := Step(w, spawnEvery, strategy, luck);
            var line := w.stations[s].queue
                        + (if s == 0 && w.tick + 1 - w.lastSpawn >= spawnEvery then [|w.tickets|] else [])
                        + Arrivals(w.tickets, w.inFlight, s);
            m <= |line| && (!strategy.Priority? ==> r.stations[s].queue == line[m..])
  {
    hide *;
    SixStations(w);
    SpawnKeeps(w, spawnEvery);
    var spawned := Spawned(w, spawnEvery);
    var n := |spawned.inFlight|;
    var rode := Belts(spawned, n);
    StillInOrder(spawned, rode);
    StillInOrder(rode, StationsFrom(rode, 0, strategy, luck));
    SixStations(rode);
    SixStations(spawned);
    BeltsInOrder(spawned, n);
    StationsInOrder(rode, 0, strategy, luck);
    SpawnInOrder(w, spawnEvery);
    BeltsMove(spawned, n);
    StepUnfold(w, spawnEvery, strategy, luck);
    m := 0;
    if !strategy.Priority? {
      m := QueueLeft(rode, 0, s, strategy, luck);
      TailIs(rode, StationsFrom(rode, 0, strategy, luck), s, m);
    }
    WholeLine(w, spawned, rode, spawnEvery);
    StepParts(w, rode, StationsFrom(rode, 0, strategy, luck), spawnEvery);
  }

  predicate SpawnLine(w: World, r: World, spawnEvery: int) {
    && |r.stations| == |w.stations| == STATIONS && r.inFlight == w.inFlight && r.shipped == w.shipped
    && SameFor(w.tickets, r.tickets, w.inFlight)
    && forall s :: 0 <= s < STATIONS ==>
         && r.stations[s].agents == w.stations[s].agents
         && r.stations[s].queue == w.stations[s].queue
              + if s == 0 && w.tick + 1 - w.lastSpawn >= spawnEvery then [|w.tickets|] else []
  }

  lemma SpawnInOrder(w: World, spawnEvery: int)
    requires Floor(w)
    ensures SpawnLine(w, Spawned(w, spawnEvery), spawnEvery)
  {
    SixStations(w);
    forall i | 0 <= i < |w.inFlight| ensures w.inFlight[i] < |w.tickets| {
      assert Rides(w, w.inFlight[i]);
    }
    hide Floor;
  }

  /** The floor after the belts have moved, told from the one before the tick. */
  predicate Lined(w: World, rode: World, spawnEvery: int) {
    && |rode.stations| == |w.stations| == STATIONS
    && rode.inFlight == Riding(w.tickets, w.inFlight) && rode.shipped == w.shipped
    && forall s :: 0 <= s < STATIONS ==>
         && rode.stations[s].agents == w.stations[s].agents
         && rode.stations[s].queue == w.stations[s].queue
              + (if s == 0 && w.tick + 1 - w.lastSpawn >= spawnEvery then [|w.tickets|] else [])
              + Arrivals(w.tickets, w.inFlight, s)
  }

  lemma WholeLine(w: World, spawned: World, rode: World, spawnEvery: int)
    requires SpawnLine(w, spawned, spawnEvery) && BeltLines(spawned, rode, |spawned.inFlight|)
    requires BeltsShape(spawned, rode, |spawned.inFlight|)
    ensures Lined(w, rode, spawnEvery)
    ensures |rode.stations| == |w.stations| == STATIONS
    ensures forall s :: 0 <= s < STATIONS ==>
              rode.stations[s].queue == w.stations[s].queue
                + (if s == 0 && w.tick + 1 - w.lastSpawn >= spawnEvery then [|w.tickets|] else [])
                + Arrivals(w.tickets, w.inFlight, s)
  {
    assert spawned.inFlight[..|spawned.inFlight|] == spawned.inFlight;
    SameRides(w.tickets, spawned.tickets, w.inFlight);
    hide Riding, Arrivals, Ridden, SameFor;
    forall s | 0 <= s < STATIONS ensures rode.stations[s].agents == w.stations[s].agents {
      assert SameCrew(spawned.stations[s], rode.stations[s]);
    }
  }

  lemma StepUnfold(w: World, spawnEvery: int, strategy: Strategy, luck: Luck)
    requires Floor(w) && Fair(luck)
    ensures var spawned := Spawned(w, spawnEvery);
            && Floor(spawned) && Floor(Belts(spawned, |spawned.inFlight|))
            && Step(w, spawnEvery, strategy, luck)
               == StationsFrom(Belts(spawned, |spawned.inFlight|), 0, strategy, luck)
  {
    SpawnKeeps(w, spawnEvery);
    hide Floor, Belts, StationsFrom;
  }

  lemma StepParts(w: World, rode: World, r: World, spawnEvery: int)
    requires StationLines(rode, r, 0) && Lined(w, rode, spawnEvery)
    ensures |w.stations| == STATIONS
    ensures r.inFlight == Riding(w.tickets, w.inFlight) + Departing(w.stations, 0)
    ensures r.shipped == w.shipped + Finished(w.stations[SHIP].agents, 0)
  {
    SameDeparting(w.stations, rode.stations, 0);
    hide Finished, Riding, Departing;
  }

  // ---- Reconfiguration ------------------------------------------------------

  /** The tickets of the agents from `k` on, in the order of the agents. */
  function Held(agents: seq<Agent>, k: nat): seq<nat>
    decreases |agents|
  {
    if |agents| <= k then []
    else
      var last := |agents| - 1;
      Held(agents[..last], k) + if agents[last].ticket.Some? then [agents[last].ticket.value] else []
  }

  /** Agents are hired idle and let go from the end; the tickets let go of stand before the queue in agent order. */
  predicate CrewResized(st: Station, st': Station, want: nat) {
    && st'.throughput == st.throughput && st'.turn == st.turn
    && st'.queue == Held(st.agents, want) + st.queue
    && |st'.agents| == want
    && forall k :: 0 <= k < want ==> st'.agents[k] == if k < |st.agents| then st.agents[k] else Agent(None, 0, 0, 0)
  }

  predicate FloorResized(w: World, r: World, s: nat, want: nat) {
    && s < |w.stations| == |r.stations| && CrewResized(w.stations[s], r.stations[s], want)
    && r == w.(tickets := r.tickets, stations := w.stations[s := r.stations[s]])
    && |r.tickets| == |w.tickets|
    && forall id :: 0 <= id < |w.tickets| ==>
         r.tickets[id] == if HeldFrom(w.stations[s].agents, want, id) then w.tickets[id].(pos := InQueue)
                          else w.tickets[id]
  }

  lemma {:induction false} ResizeMeans(w: World, s: nat, want: nat)
    requires Floor(w) && s < STATIONS
    ensures FloorResized(w, Resized(w, s, want), s, want)
    decreases if |w.stations[s].agents| < want then want - |w.stations[s].agents| else |w.stations[s].agents| - want
  {
    hide *;
    SixStations(w);
    var n := |w.stations[s].agents|;
    if n < want {
      HireKeeps(w, s);
      StillInOrder(w, Hired(w, s));
      HiredParts(w, s);
      ResizeMeans(Hired(w, s), s, want);
      ResizeUnfold(w, s, want);
      HiredFirst(w, Hired(w, s), Resized(Hired(w, s), s, want), s, want);
    } else if n > want {
      DismissKeeps(w, s);
      StillInOrder(w, Dismissed(w, s));
      DismissedParts(w, s);
      ResizeMeans(Dismissed(w, s), s, want);
      ResizeUnfold(w, s, want);
      DismissedFirst(w, Dismissed(w, s), Resized(Dismissed(w, s), s, want), s, want);
    } else {
      NoResize(w, s);
    }
  }

  lemma NoResize(w: World, s: nat)
    requires Floor(w) && s < STATIONS
    ensures var n := |w.stations[s].agents|; FloorResized(w, Resized(w, s, n), s, n)
  {
    SixStations(w);
    hide Floor;
  }

  lemma ResizeUnfold(w: World, s: nat, want: nat)
    requires Floor(w) && s < STATIONS
    ensures |w.stations[s].agents| < want ==>
              Floor(Hired(w, s)) && Resized(w, s, want) == Resized(Hired(w, s), s, want)
    ensures |w.stations[s].agents| > want ==>
              Floor(Dismissed(w, s)) && Resized(w, s, want) == Resized(Dismissed(w, s), s, want)
  {
    SixStations(w);
    if |w.stations[s].agents| < want {
      HireKeeps(w, s);
    } else if |w.stations[s].agents| > want {
      DismissKeeps(w, s);
    }
    hide Floor, Hired, Dismissed;
  }

  predicate OneHired(w: World, next: World, s: nat) {
    && s < |w.stations| == |next.stations|
    && next == w.(stations := w.stations[s := next.stations[s]])
    && next.stations[s] == w.stations[s].(agents := w.stations[s].agents + [Agent(None, 0, 0, 0)])
  }

  lemma HiredParts(w: World, s: nat)
    requires s < |w.stations|
    ensures OneHired(w, Hired(w, s), s)
    ensures |Hired(w, s).stations[s].agents| == |w.stations[s].agents| + 1
  {
  }

  lemma HiredFirst(w: World, next: World, r: World, s: nat, want: nat)
    requires OneHired(w, next, s) && FloorResized(next, r, s, want) && |w.stations[s].agents| < want
    ensures FloorResized(w, r, s, want)
  {
  }

  predicate OneDismissed(w: World, next: World, s: nat) {
    && s < |w.stations| == |next.stations| && w.stations[s].agents != [] && |next.tickets| == |w.tickets|
    && var last := |w.stations[s].agents| - 1;
    && var a := w.stations[s].agents[last];
    && next == w.(tickets := next.tickets, stations := w.stations[s := next.stations[s]])
    && next.stations[s] == w.stations[s].(agents := w.stations[s].agents[..last],
                                          queue := Held([a], 0) + w.stations[s].queue)
    && forall id :: 0 <= id < |w.tickets| ==>
         next.tickets[id] == if a.ticket == Some(id) then w.tickets[id].(pos := InQueue) else w.tickets[id]
  }

  lemma DismissedParts(w: World, s: nat)
    requires Floor(w) && s < STATIONS && w.stations[s].agents != []
    ensures OneDismissed(w, Dismissed(w, s), s)
    ensures |Dismissed(w, s).stations[s].agents| == |w.stations[s].agents| - 1
  {
    FloorAt(w, s);
    hide Floor;
    var a := w.stations[s].agents[|w.stations[s].agents| - 1];
    assert AgentOk(w, s, a);
    assert Held([a], 0) == if a.ticket.Some? then [a.ticket.value] else [];
  }

  lemma DismissedFirst(w: World, next: World, r: World, s: nat, want: nat)
    requires OneDismissed(w, next, s) && FloorResized(next, r, s, want) && |w.stations[s].agents| > want
    ensures FloorResized(w, r, s, want)
  {
    var agents := w.stations[s].agents;
    var last := |agents| - 1;
    assert Held(agents, want) == Held(agents[..last], want) + Held([agents[last]], 0);
    forall id | 0 <= id < |w.tickets|
      ensures HeldFrom(agents, want, id) <==> (HeldFrom(agents[..last], want, id) || agents[last].ticket == Some(id))
    {
      if HeldFrom(agents, want, id) {
        var j :| want <= j < |agents| && agents[j].ticket == Some(id);
        assert j < last ==> agents[..last][j].ticket == Some(id);
      }
      if HeldFrom(agents[..last], want, id) {
        var j :| want <= j < last && agents[..last][j].ticket == Some(id);
        assert agents[j].ticket == Some(id);
      }
    }
  }

  predicate LetGo(w: World, per: seq<int>, s: nat, id: nat) {
    exists j :: s <= j < |w.stations| && j < |per|
                && HeldFrom(w.stations[j].agents, if per[j] < 1 then 1 else per[j], id)
  }

  predicate Restaffed(w: World, r: World, per: seq<int>, s: nat) {
    && |w.stations| == |r.stations| == |per| && |r.tickets| == |w.tickets|
    && r == w.(tickets := r.tickets, stations := r.stations)
    && (forall j :: 0 <= j < s && j < |w.stations| ==> r.stations[j] == w.stations[j])
    && (forall j :: s <= j < |w.stations| ==>
          CrewResized(w.stations[j], r.stations[j], if per[j] < 1 then 1 else per[j]))
    && forall id :: 0 <= id < |w.tickets| ==>
         r.tickets[id] == if LetGo(w, per, s, id) then w.tickets[id].(pos := InQueue) else w.tickets[id]
  }

  /** A reconfiguration leaves every station with the agents asked for, at least one, and puts the tickets let go of
      before the queue of their station; nothing else changes. */
  lemma {:induction false} ReconfigureMeans(w: World, s: nat, per: seq<int>)
    requires Floor(w) && s <= STATIONS == |per|
    ensures Restaffed(w, Reconfigured(w, s, per), per, s)
    decreases STATIONS - s
  {
    hide *;
    SixStations(w);
    if s < STATIONS {
      var want := if per[s] < 1 then 1 else per[s];
      var next := Resized(w, s, want);
      StillInOrder(w, next);
      ResizeMeans(w, s, want);
      ReconfigureMeans(next, s + 1, per);
      ReconfigureUnfold(w, s, per);
      RestaffedFirst(w, next, Reconfigured(next, s + 1, per), per, s);
    } else {
      NoReconfigure(w, per);
    }
  }

  lemma NoReconfigure(w: World, per: seq<int>)
    requires Floor(w) && |per| == STATIONS
    ensures Restaffed(w, Reconfigured(w, STATIONS, per), per, STATIONS)
  {
    SixStations(w);
    hide Floor;
  }

  lemma ReconfigureUnfold(w: World, s: nat, per: seq<int>)
    requires Floor(w) && s < STATIONS == |per|
    ensures var next := Resized(w, s, if per[s] < 1 then 1 else per[s]);
            Floor(next) && Reconfigured(w, s, per) == Reconfigured(next, s + 1, per)
  {
    hide Floor, Resized;
  }

  lemma RestaffedFirst(w: World, next: World, r: World, per: seq<int>, s: nat)
    requires s < STATIONS == |per| == |w.stations|
    requires FloorResized(w, next, s, if per[s] < 1 then 1 else per[s]) && Restaffed(next, r, per, s + 1)
    ensures Restaffed(w, r, per, s)
  {
    hide CrewResized, HeldFrom;
    forall id | 0 <= id < |w.tickets|
      ensures LetGo(w, per, s, id)
              <==> (LetGo(next, per, s + 1, id)
                    || HeldFrom(w.stations[s].agents, if per[s] < 1 then 1 else per[s], id))
    {
    }
  }
}
