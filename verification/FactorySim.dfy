/** The simulator object that `makeSim` returns, with its lists changed in place. */
module FactorySim {
  import opened Text
  import opened FactoryModel
  import opened FactoryMoves
  import opened FactoryRuns

  class Simulator {
    const spawnEvery: int
    var strategy: Strategy
    var tickets: seq<Ticket>
    var stations: seq<Station>
    var inFlight: seq<nat>
    var shipped: seq<nat>
    var tick: nat
    var lastSpawn: nat

    ghost function W(): World
      reads this
    {
      World(tickets, stations, inFlight, shipped, tick, lastSpawn)
    }

    /** An interval of 0 counts as not given. */
    constructor (per: seq<int>, spawnEvery: int, strategy: Strategy)
      requires |per| == STATIONS
      ensures W() == Start(per) && Floor(W()) && this.strategy == strategy
      ensures this.spawnEvery == (if spawnEvery == 0 then DEFAULT_SPAWN_EVERY else spawnEvery) && this.spawnEvery != 0
    {
      this.spawnEvery := if spawnEvery == 0 then DEFAULT_SPAWN_EVERY else spawnEvery;
      this.strategy := strategy;
      tickets, inFlight, shipped, tick, lastSpawn := [], [], [], 0, 0;
      stations := seq(STATIONS, s requires 0 <= s < STATIONS => Station([], seq(Staff(per[s]), _ => IDLE), 0, 0));
      new;
      StartIsFloor(per);
    }

    method Spawn()
      requires |stations| == STATIONS
      modifies this
      ensures W() == old(W()).(tickets := old(tickets) + [NewTicket(tick)], stations := stations)
      ensures stations == old(stations)[0 := old(stations)[0].(queue := old(stations)[0].queue + [|old(tickets)|])]
      ensures strategy == old(strategy)
    {
      tickets := tickets + [NewTicket(tick)];
      stations := stations[0 := stations[0].(queue := stations[0].queue + [|tickets| - 1])];
    }

    /** Rides every belt ticket one tick further, from the last one to the first. */
    method MoveBelts()
      requires Floor(W())
      modifies this
      ensures W() == Belts(old(W()), |old(inFlight)|) && Keeps(old(W()), W())
      ensures strategy == old(strategy)
    {
      hide Floor, Everywhere, BeltMoved;
      ghost var before := W();
      var i: nat := |inFlight|;
      while i > 0
        invariant i <= |inFlight|
        invariant Floor(W()) && strategy == old(strategy)
        invariant Belts(before, |before.inFlight|) == Belts(W(), i)
      {
        i := i - 1;
        BeltKeeps(W(), i);
        MoveOne(i);
      }
    }

    method MoveOne(i: nat)
      requires Floor(W()) && i < |inFlight|
      modifies this
      ensures W() == BeltMoved(old(W()), i) && |inFlight| >= |old(inFlight)| - 1
      ensures strategy == old(strategy)
    {
      var id := inFlight[i];
      assert BeltsOk(W()) && Rides(W(), id);
      var t := tickets[id];
      t := t.(beltProg := t.beltProg + 1);
      if t.beltProg >= BELT_TICKS {
        var dest := t.beltTo.value;
        stations := stations[dest := stations[dest].(queue := stations[dest].queue + [id])];
        t := t.(pos := InQueue, station := dest);
        t := t.(beltFrom := None, beltTo := None, beltProg := 0);
        inFlight := inFlight[..i] + inFlight[i + 1..];
      }
      tickets := tickets[id := t];
    }

    /** Idle agents of a station take tickets off its queue. */
    method AssignStation(s: nat, luck: Luck)
      requires Floor(W()) && s < STATIONS && Fair(luck)
      modifies this
      ensures W() == AssignAll(old(W()), s, strategy, luck) && Keeps(old(W()), W())
      ensures strategy == old(strategy)
    {
      SixStations(W());
      hide Floor, Everywhere, Choose, Assigned, Fair;
      ghost var before := W();
      while stations[s].queue != []
        invariant Floor(W()) && |stations| == STATIONS && strategy == old(strategy)
        invariant AssignAll(before, s, strategy, luck) == AssignAll(W(), s, strategy, luck)
        decreases |stations[s].queue|
      {
        var choice := Choose(stations[s], strategy);
        if choice.Nobody? {
          break;
        }
        AssignKeeps(W(), s, choice.agent, choice.turn, strategy, luck);
        AssignOne(s, choice.agent, choice.turn, luck);
        SixStations(W());
      }
    }

    /** The next in line goes to an idle agent. */
    method AssignOne(s: nat, k: nat, turn: nat, luck: Luck)
      requires Floor(W()) && s < STATIONS && |stations| == STATIONS && stations[s].queue != [] && IsIdle(stations[s], k)
      modifies this
      ensures W() == Assigned(old(W()), s, k, turn, strategy, luck)
      ensures |stations| == STATIONS && |stations[s].queue| < |old(stations)[s].queue|
      ensures strategy == old(strategy)
    {
      QueueInRange(W(), s);
      hide Floor, Everywhere;
      var st := stations[s];
      var line := st.queue;
      if strategy == Priority {
        line := ByAge(World(tickets, stations, inFlight, shipped, tick, lastSpawn), line);
      }
      var id := line[0];
      var agent := st.agents[k].(ticket := Some(id), progress := 0, total := luck.work(s, id));
      stations := stations[s := st.(queue := line[1..], turn := turn, agents := st.agents[k := agent])];
      tickets := tickets[id := tickets[id].(pos := AtWork)];
    }

    /** Every busy agent of a station works one tick; finished tickets leave. */
    method WorkStation(s: nat, luck: Luck)
      requires Floor(W()) && s < STATIONS
      modifies this
      ensures W() == WorkAll(old(W()), s, 0, luck) && Keeps(old(W()), W())
      ensures strategy == old(strategy)
    {
      SixStations(W());
      hide Floor, Everywhere, Worked;
      ghost var before := W();
      var k := 0;
      while k < |stations[s].agents|
        invariant Floor(W()) && |stations| == STATIONS && k <= |stations[s].agents| && strategy == old(strategy)
        invariant WorkAll(before, s, 0, luck) == WorkAll(W(), s, k, luck)
        decreases |stations[s].agents| - k
      {
        WorkKeeps(W(), s, k, luck);
        WorkOne(s, k, luck);
        SixStations(W());
        k := k + 1;
      }
    }

    method WorkOne(s: nat, k: nat, luck: Luck)
      requires Floor(W()) && s < STATIONS && k < |stations[s].agents|
      modifies this
      ensures W() == Worked(old(W()), s, k, luck) && |stations| == STATIONS
      ensures |stations[s].agents| == |old(stations)[s].agents|
      ensures strategy == old(strategy)
    {
      FloorAt(W(), s);
      assert AgentOk(W(), s, stations[s].agents[k]);
      hide Floor, Everywhere;
      var agent := stations[s].agents[k];
      if agent.ticket.None? {
        return;
      }
      var id := agent.ticket.value;
      agent := agent.(progress := agent.progress + 1);
      if agent.progress >= agent.total {
        agent := Agent(None, 0, 0, agent.completed + 1);
        stations := stations[s := stations[s].(throughput := stations[s].throughput + 1)];
        if s < SHIP {
          MoveBelt(id, s, Destination(s, id, luck));
        } else {
          tickets := tickets[id := tickets[id].(pos := Shipped, shippedAt := Some(tick))];
          shipped := shipped + [id];
        }
      }
      stations := stations[s := stations[s].(agents := stations[s].agents[k := agent])];
    }

    method MoveBelt(id: nat, from: nat, to: nat)
      requires id < |tickets|
      modifies this`tickets, this`inFlight
      ensures tickets == old(tickets)[id := old(tickets)[id].(pos := OnBelt, beltFrom := Some(from), beltTo := Some(to),
                                                             beltProg := 0)]
      ensures inFlight == old(inFlight) + [id]
    {
      var t := tickets[id].(pos := OnBelt);
      t := t.(beltFrom := Some(from), beltTo := Some(to), beltProg := 0);
      tickets := tickets[id := t];
      inFlight := inFlight + [id];
    }

    method AdvanceClock()
      requires Floor(W())
      modifies this
      ensures W() == Spawned(old(W()), spawnEvery) && Floor(W())
      ensures strategy == old(strategy)
    {
      SpawnKeeps(W(), spawnEvery);
      SixStations(W());
      hide Floor, Everywhere;
      tick := tick + 1;
      if tick - lastSpawn >= spawnEvery {
        lastSpawn := tick;
        Spawn();
      }
    }

    method RunStations(luck: Luck)
      requires Floor(W()) && Fair(luck)
      modifies this
      ensures W() == StationsFrom(old(W()), 0, strategy, luck) && Floor(W())
      ensures strategy == old(strategy)
    {
      hide Floor, Everywhere, AssignAll, WorkAll, Fair;
      for s := 0 to STATIONS
        invariant Floor(W()) && strategy == old(strategy)
        invariant StationsFrom(old(W()), 0, strategy, luck) == StationsFrom(W(), s, strategy, luck)
      {
        AssignStation(s, luck);
        WorkStation(s, luck);
      }
    }

    method Step(luck: Luck)
      requires Floor(W()) && Fair(luck)
      modifies this
      ensures W() == FactoryRuns.Step(old(W()), spawnEvery, strategy, luck) && Floor(W())
      ensures strategy == old(strategy)
    {
      hide Floor, Everywhere, Belts, StationsFrom, Fair, Spawned;
      AdvanceClock();
      MoveBelts();
      RunStations(luck);
    }

    method ReconfigureAgents(per: seq<int>)
      requires Floor(W()) && |per| == STATIONS
      modifies this
      ensures W() == Reconfigured(old(W()), 0, per) && Floor(W())
      ensures strategy == old(strategy)
    {
      hide Floor, Everywhere, Resized;
      ghost var before := W();
      for s := 0 to STATIONS
        invariant Floor(W()) && strategy == old(strategy)
        invariant Reconfigured(before, 0, per) == Reconfigured(W(), s, per)
      {
        var asked := if per[s] == 0 then 1 else per[s];
        Resize(s, if asked < 1 then 1 else asked);
      }
    }

    method Resize(s: nat, want: nat)
      requires Floor(W()) && s < STATIONS
      modifies this
      ensures W() == Resized(old(W()), s, want) && Keeps(old(W()), W())
      ensures strategy == old(strategy)
    {
      ghost var before := W();
      while |stations[s].agents| < want
        invariant Floor(W()) && strategy == old(strategy)
        invariant Resized(before, s, want) == Resized(W(), s, want)
        decreases want - |stations[s].agents|
      {
        HireKeeps(W(), s);
        stations := stations[s := stations[s].(agents := stations[s].agents + [IDLE])];
      }
      while |stations[s].agents| > want
        invariant Floor(W()) && strategy == old(strategy) && |stations[s].agents| >= want
        invariant Resized(before, s, want) == Resized(W(), s, want)
        decreases |stations[s].agents| - want
      {
        ghost var w := W();
        DismissKeeps(w, s);
        FloorAt(w, s);
        var st := stations[s];
        var agent := st.agents[|st.agents| - 1];
        assert AgentOk(w, s, agent);
        hide Floor, Everywhere;
        st := st.(agents := st.agents[..|st.agents| - 1]);
        if agent.ticket.Some? {
          st := st.(queue := [agent.ticket.value] + st.queue);
          tickets := tickets[agent.ticket.value := tickets[agent.ticket.value].(pos := InQueue)];
        }
        stations := stations[s := st];
        assert W() == Dismissed(w, s);
      }
    }
  }
}
