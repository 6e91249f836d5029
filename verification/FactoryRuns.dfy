/** Whole ticks and whole runs of the factory. */
module FactoryRuns {
  import opened Text
  import opened FactoryModel
  import opened FactoryMoves

  // ---- Choosing an agent ----------------------------------------------------

  function FirstIdle(agents: seq<Agent>, k: nat): (r: Option<nat>)
    requires k <= |agents|
    ensures r.Some? ==> k <= r.value < |agents| && agents[r.value].ticket.None?
    ensures r.Some? ==> forall j :: k <= j < r.value ==> agents[j].ticket.Some?
    ensures r.None? ==> forall j :: k <= j < |agents| ==> agents[j].ticket.Some?
    decreases |agents| - k
  {
    if k == |agents| then None else if agents[k].ticket.None? then Some(k) else FirstIdle(agents, k + 1)
  }

  /** The idle agent from `k` on that has completed the fewest tickets, the first of them on a tie. */
  function LeastLoaded(agents: seq<Agent>, k: nat): (r: Option<nat>)
    requires k <= |agents|
    ensures r.Some? ==> k <= r.value < |agents| && agents[r.value].ticket.None?
    ensures r.Some? ==> forall j :: k <= j < |agents| && agents[j].ticket.None? ==>
                          agents[r.value].completed < agents[j].completed
                          || (agents[r.value].completed == agents[j].completed && r.value <= j)
    ensures r.None? ==> forall j :: k <= j < |agents| ==> agents[j].ticket.Some?
    decreases |agents| - k
  {
    if k == |agents| then None
    else
      var rest := LeastLoaded(agents, k + 1);
      if agents[k].ticket.Some? then rest
      else if rest.Some? && agents[rest.value].completed < agents[k].completed then rest
      else Some(k)
  }

  /** The next agent in turn that is idle, going round from `turn`. */
  function NextInTurn(agents: seq<Agent>, turn: nat): (r: Option<nat>)
    requires turn < |agents|
    ensures r.Some? ==> r.value < |agents| && agents[r.value].ticket.None?
    ensures r.None? ==> forall j :: 0 <= j < |agents| ==> agents[j].ticket.Some?
  {
    var ahead := FirstIdle(agents, turn);
    if ahead.Some? then ahead else FirstIdle(agents, 0)
  }

  datatype Choice = Nobody | Chosen(agent: nat, turn: nat)

  function Choose(st: Station, strategy: Strategy): (c: Choice)
    ensures c.Chosen? ==> IsIdle(st, c.agent)
    ensures c.Nobody? <==> forall k :: 0 <= k < |st.agents| ==> st.agents[k].ticket.Some?
  {
    if FirstIdle(st.agents, 0).None? then Nobody
    else match strategy
      case Round =>
        var turn := (st.turn + 1) % |st.agents|;
        Chosen(NextInTurn(st.agents, turn).value, turn)
      case Priority => Chosen(FirstIdle(st.agents, 0).value, st.turn)
      case Load => Chosen(LeastLoaded(st.agents, 0).value, st.turn)
  }

  // ---- One tick -------------------------------------------------------------

  /** The belt positions below `n`, from the last one down. */
  function Belts(w: World, n: nat): (r: World)
    requires Floor(w) && n <= |w.inFlight|
    ensures Keeps(w, r)
    decreases n
  {
    if n == 0 then w
    else
      BeltKeeps(w, n - 1);
      Belts(BeltMoved(w, n - 1), n - 1)
  }

  function AssignAll(w: World, s: nat, strategy: Strategy, luck: Luck): (r: World)
    requires Floor(w) && s < STATIONS && Fair(luck)
    ensures Keeps(w, r)
    decreases |w.stations[s].queue|
  {
    if w.stations[s].queue == [] then w
    else match Choose(w.stations[s], strategy)
      case Nobody => w
      case Chosen(k, turn) =>
        AssignKeeps(w, s, k, turn, strategy, luck);
        AssignAll(Assigned(w, s, k, turn, strategy, luck), s, strategy, luck)
  }

  function WorkAll(w: World, s: nat, k: nat, luck: Luck): (r: World)
    requires Floor(w) && s < STATIONS && k <= |w.stations[s].agents|
    ensures Keeps(w, r)
    decreases |w.stations[s].agents| - k
  {
    if k == |w.stations[s].agents| then w
    else
      WorkKeeps(w, s, k, luck);
      WorkAll(Worked(w, s, k, luck), s, k + 1, luck)
  }

  function StationsFrom(w: World, s: nat, strategy: Strategy, luck: Luck): (r: World)
    requires Floor(w) && s <= STATIONS && Fair(luck)
    ensures Keeps(w, r)
    decreases STATIONS - s
  {
    if s == STATIONS then w
    else StationsFrom(WorkAll(AssignAll(w, s, strategy, luck), s, 0, luck), s + 1, strategy, luck)
  }

  function Step(w: World, spawnEvery: int, strategy: Strategy, luck: Luck): (r: World)
    requires Floor(w) && Fair(luck)
    ensures Floor(r) && Everywhere(r) - |r.tickets| == Everywhere(w) - |w.tickets|
  {
    SpawnKeeps(w, spawnEvery);
    var spawned := Spawned(w, spawnEvery);
    StationsFrom(Belts(spawned, |spawned.inFlight|), 0, strategy, luck)
  }

  // ---- Reconfiguration ------------------------------------------------------

  function Resized(w: World, s: nat, want: nat): (r: World)
    requires Floor(w) && s < STATIONS
    ensures Keeps(w, r)
    ensures |r.stations[s].agents| == want
    decreases if |w.stations[s].agents| < want then want - |w.stations[s].agents| else |w.stations[s].agents| - want
  {
    if |w.stations[s].agents| < want then
      HireKeeps(w, s);
      Resized(Hired(w, s), s, want)
    else if |w.stations[s].agents| > want then
      DismissKeeps(w, s);
      Resized(Dismissed(w, s), s, want)
    else w
  }

  /** At least one agent, and one where nothing was asked for. */
  function Wanted(per: int): nat {
    if per < 1 then 1 else per
  }

  function Reconfigured(w: World, s: nat, per: seq<int>): (r: World)
    requires Floor(w) && s <= STATIONS == |per|
    ensures Keeps(w, r)
    decreases STATIONS - s
  {
    if s == STATIONS then w else Reconfigured(Resized(w, s, Wanted(per[s])), s + 1, per)
  }

  // ---- Runs -----------------------------------------------------------------

  function Staff(per: int): nat {
    if per == 0 then 1 else if per < 0 then 0 else per
  }

  /** An empty floor; a negative head count gives a station without agents. */
  function Start(per: seq<int>): World
    requires |per| == STATIONS
  {
    World([], seq(STATIONS, s requires 0 <= s < STATIONS => Station([], seq(Staff(per[s]), _ => IDLE), 0, 0)),
              [], [], 0, 0)
  }

  datatype Event = Tick(strategy: Strategy, luck: Luck) | Reconfigure(per: seq<int>)

  ghost predicate Possible(e: Event) {
    match e case Tick(_, luck) => Fair(luck) case Reconfigure(per) => |per| == STATIONS
  }

  function Happen(w: World, spawnEvery: int, e: Event): (r: World)
    requires Floor(w) && Possible(e)
    ensures Floor(r) && Everywhere(r) - |r.tickets| == Everywhere(w) - |w.tickets|
  {
    match e
    case Tick(strategy, luck) => Step(w, spawnEvery, strategy, luck)
    case Reconfigure(per) => Reconfigured(w, 0, per)
  }

  ghost function RunOf(w: World, spawnEvery: int, events: seq<Event>): (r: World)
    requires Floor(w) && forall i :: 0 <= i < |events| ==> Possible(events[i])
    ensures Floor(r) && Everywhere(r) - |r.tickets| == Everywhere(w) - |w.tickets|
    decreases |events|
  {
    if events == [] then w
    else
      var last := |events| - 1;
      Happen(RunOf(w, spawnEvery, events[..last]), spawnEvery, events[last])
  }

  function Period(spawnEvery: int): nat {
    if spawnEvery < 1 then 1 else spawnEvery
  }

  function Ticks(events: seq<Event>): nat {
    if events == [] then 0 else Ticks(events[..|events| - 1]) + if events[|events| - 1].Tick? then 1 else 0
  }

  /** Tickets have come at a steady rate. */
  predicate OnTime(w: World, spawnEvery: int) {
    var p := Period(spawnEvery);
    w.lastSpawn == |w.tickets| * p && w.lastSpawn <= w.tick < w.lastSpawn + p
  }

  lemma StartIsFloor(per: seq<int>)
    requires |per| == STATIONS
    ensures Floor(Start(per)) && Everywhere(Start(per)) == 0
    ensures forall s :: 0 <= s < STATIONS ==>
              var st := Start(per).stations[s];
              && (per[s] == 0 ==> |st.agents| == 1) && (per[s] < 0 ==> st.agents == [])
              && (per[s] > 0 ==> |st.agents| == per[s]) && st.queue == [] && st.turn == st.throughput == 0
              && forall k :: 0 <= k < |st.agents| ==> st.agents[k] == Agent(None, 0, 0, 0)
  {
    var w := Start(per);
    forall s | 0 <= s < STATIONS ensures QueueOk(w, s) && AgentsOk(w, s) {
    }
    NobodyWorks(w.stations);
  }

  lemma NobodyWorks(stations: seq<Station>)
    requires forall s :: 0 <= s < |stations| ==>
               stations[s].queue == [] && forall k :: 0 <= k < |stations[s].agents| ==> stations[s].agents[k] == IDLE
    ensures Queued(stations) == 0 && Working(stations) == 0
  {
    if stations != [] {
      NobodyWorks(stations[..|stations| - 1]);
      NobodyBusy(stations[|stations| - 1].agents);
    }
  }

  lemma NobodyBusy(agents: seq<Agent>)
    requires forall k :: 0 <= k < |agents| ==> agents[k] == IDLE
    ensures Busy(agents) == 0
  {
  }

  lemma HappenOnTime(w: World, spawnEvery: int, e: Event)
    requires Floor(w) && Possible(e) && OnTime(w, spawnEvery)
    ensures var r := Happen(w, spawnEvery, e);
            OnTime(r, spawnEvery) && r.tick == w.tick + if e.Tick? then 1 else 0
  {
    hide Floor, Everywhere, Belts, StationsFrom;
    if e.Tick? {
      SpawnKeeps(w, spawnEvery);
      var p := Period(spawnEvery);
      assert (|w.tickets| + 1) * p == |w.tickets| * p + p;
    }
  }

  lemma {:induction false} RunOnTime(w: World, spawnEvery: int, events: seq<Event>)
    requires Floor(w) && OnTime(w, spawnEvery) && forall i :: 0 <= i < |events| ==> Possible(events[i])
    ensures var r := RunOf(w, spawnEvery, events);
            OnTime(r, spawnEvery) && r.tick == w.tick + Ticks(events)
  {
    hide Floor, Happen, OnTime, Everywhere;
    if events != [] {
      var last := |events| - 1;
      RunOnTime(w, spawnEvery, events[..last]);
      HappenOnTime(RunOf(w, spawnEvery, events[..last]), spawnEvery, events[last]);
    }
  }

  lemma AtLeastOnce(d: int, p: nat)
    requires d >= 1
    ensures d * p >= p
  {
    var less := d - 1;
    assert d * p == less * p + p;
    assert less * p >= 0;
  }

  lemma DivisionOf(n: nat, p: nat, total: nat)
    requires p >= 1 && n * p <= total < n * p + p
    ensures total / p == n
  {
    var q := total / p;
    var d, e := q - n, n - q;
    assert q * p <= total < q * p + p;
    assert q * p == n * p + d * p && n * p == q * p + e * p;
    if d >= 1 {
      AtLeastOnce(d, p);
    } else if e >= 1 {
      AtLeastOnce(e, p);
    }
  }

  /** Conservation: whatever happens, the tickets spawned so far are exactly those queued, worked on, on belts or
      shipped, every one of them where its record says. */
  lemma Conserved(per: seq<int>, spawnEvery: int, events: seq<Event>)
    requires |per| == STATIONS && forall i :: 0 <= i < |events| ==> Possible(events[i])
    ensures Floor(Start(per))
    ensures var w := RunOf(Start(per), spawnEvery, events);
            && Floor(w)
            && Ticks(events) / Period(spawnEvery) == |w.tickets|
            && |w.tickets| == Queued(w.stations) + Working(w.stations) + |w.inFlight| + |w.shipped|
  {
    hide Floor, RunOf, Happen;
    StartIsFloor(per);
    assert OnTime(Start(per), spawnEvery);
    RunOnTime(Start(per), spawnEvery, events);
    var w := RunOf(Start(per), spawnEvery, events);
    DivisionOf(|w.tickets|, Period(spawnEvery), Ticks(events));
  }
}
