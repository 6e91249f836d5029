/** A floor that ships: the least age of a shipped ticket is met. */
module FactoryExample {
  import opened Text
  import opened FactoryModel
  import opened FactoryMoves
  import opened FactoryRuns
  import opened FactoryTicks

  /** Every draw is the shortest, and nothing is sent back. */
  ghost predicate Quick(luck: Luck) {
    && (forall s: nat, t: nat :: luck.work(s, t) == WorkMin(s))
    && forall t: nat :: !luck.again(t)
  }

  ghost predicate QuickTick(e: Event) {
    e.Tick? && Quick(e.luck)
  }

  predicate Staffed(w: World) {
    |w.stations| == STATIONS && forall s :: 0 <= s < STATIONS ==> w.stations[s].agents != []
  }

  predicate NearlyDone(agents: seq<Agent>, total: nat, progress: int) {
    exists k :: 0 <= k < |agents| && agents[k].ticket == Some(0)
                && agents[k].total == total && agents[k].progress == progress
  }

  /** The first ticket, `n` ticks after it came, when it never waited and every station worked as fast as it can. */
  predicate OnSchedule(w: World, n: nat) {
    && |w.tickets| == 1
    && var t := w.tickets[0];
    && t.station < |w.stations| && t.created + n == w.tick
    && match t.pos
       case InQueue => false
       case AtWork =>
         NearlyDone(w.stations[t.station].agents, WorkMin(t.station), n - Earliest(t.station) + 1)
       case OnBelt => t.beltTo == Some(t.station + 1) && n == Earliest(t.station) + WorkMin(t.station) - 1 + t.beltProg
       case Shipped => n == 386 && t.shippedAt == Some(w.tick)
  }

  predicate Along(w: World, spawnEvery: int, n: nat) {
    Staffed(w) && if n < spawnEvery then w.tickets == [] else OnSchedule(w, n - spawnEvery)
  }

  lemma StaffStays(w: World, r: World, luck: Luck)
    requires StepShape(w, r, luck) && Staffed(w)
    ensures Staffed(r)
  {
  }

  /** Nobody is at work on a ticket that is not, so whoever stands in the queue is taken up. */
  lemma TakenUp(w: World, r: World, luck: Luck)
    requires Floor(w) && Floor(r) && StepShape(w, r, luck) && Staffed(w) && Quick(luck)
    requires |r.tickets| == 1 && !r.tickets[0].pos.OnBelt? && !r.tickets[0].pos.Shipped?
    requires |w.tickets| == 0 || (|w.tickets| == 1 && !w.tickets[0].pos.AtWork?)
    ensures r.tickets[0].pos.AtWork? && r.tickets[0].station < |r.stations|
    ensures var s := r.tickets[0].station; NearlyDone(r.stations[s].agents, WorkMin(s), 1)
  {
    SixStations(w);
    SixStations(r);
    FloorFinds(r, 0);
    var s := r.tickets[0].station;
    FloorAt(w, s);
    FloorAt(r, s);
    hide Floor;
    forall k | 0 <= k < |w.stations[s].agents|
      ensures w.stations[s].agents[k].ticket.None?
    {
      assert AgentOk(w, s, w.stations[s].agents[k]);
    }
    assert TakesOn(w, r, s, w.stations[s].agents[0], r.stations[s].agents[0], luck);
    assert AgentOk(r, s, r.stations[s].agents[0]);
    var k :| 0 <= k < |r.stations[s].agents| && r.stations[s].agents[k].ticket == Some(0);
    assert TakesOn(w, r, s, w.stations[s].agents[k], r.stations[s].agents[k], luck);
  }

  lemma StationStarts(s: nat)
    requires s < SHIP
    ensures Earliest(s + 1) == Earliest(s) + WorkMin(s) + 35 && Earliest(SHIP) == 377
  {
    assert Earliest(0) == 0 && Earliest(1) == 47 && Earliest(2) == 122;
    assert Earliest(3) == 237 && Earliest(4) == 312 && Earliest(5) == 377;
  }

  lemma StaysOnSchedule(w: World, r: World, luck: Luck, n: nat)
    requires Floor(w) && Floor(r) && StepShape(w, r, luck) && Staffed(w) && Quick(luck)
    requires OnSchedule(w, n) && n < 386 && |r.tickets| == 1
    ensures OnSchedule(r, n + 1)
  {
    hide Earliest, Floor;
    var t, t' := w.tickets[0], r.tickets[0];
    assert TicketStep(t, t', r.tick, luck.again(0));
    if t.pos.OnBelt? {
      BeltRides(w, 0);
      StationStarts(t.station);
      if t.beltProg + 1 == BELT_TICKS {
        TakenUp(w, r, luck);
      }
    } else {
      AtWorkOnSchedule(w, r, luck, n);
    }
  }

  lemma AtWorkOnSchedule(w: World, r: World, luck: Luck, n: nat)
    requires Floor(w) && Floor(r) && StepShape(w, r, luck) && Staffed(w) && Quick(luck)
    requires OnSchedule(w, n) && |r.tickets| == 1 && w.tickets[0].pos.AtWork?
    ensures OnSchedule(r, n + 1)
  {
    var s := w.tickets[0].station;
    SixStations(w);
    FloorAt(w, s);
    StationStarts(0);
    hide Earliest, Floor;
    var agents, later := w.stations[s].agents, r.stations[s].agents;
    var k :| 0 <= k < |agents| && agents[k].ticket == Some(0)
             && agents[k].total == WorkMin(s) && agents[k].progress == n - Earliest(s) + 1;
    assert TakesOn(w, r, s, agents[k], later[k], luck) && AgentOk(w, s, agents[k]);
    assert TicketStep(w.tickets[0], r.tickets[0], r.tick, luck.again(0));
  }

  lemma {:induction false} QuickIsPossible(events: seq<Event>)
    requires forall i :: 0 <= i < |events| ==> QuickTick(events[i])
    ensures forall i :: 0 <= i < |events| ==> Possible(events[i])
    ensures Ticks(events) == |events|
  {
    if events != [] {
      QuickIsPossible(events[..|events| - 1]);
      assert QuickTick(events[|events| - 1]);
    }
  }

  lemma {:induction false} FirstTicket(per: seq<int>, spawnEvery: int, events: seq<Event>)
    requires |per| == STATIONS && (forall s :: 0 <= s < STATIONS ==> per[s] >= 0)
    requires forall i :: 0 <= i < |events| ==> QuickTick(events[i])
    requires spawnEvery >= 387 && |events| <= spawnEvery + 386
    ensures Floor(Start(per)) && forall i :: 0 <= i < |events| ==> Possible(events[i])
    ensures Along(RunOf(Start(per), spawnEvery, events), spawnEvery, |events|)
    decreases |events|
  {
    hide *;
    StartIsFloor(per);
    QuickIsPossible(events);
    if events == [] {
      StartStaffed(per, spawnEvery);
    } else {
      var last := |events| - 1;
      FirstTicket(per, spawnEvery, events[..last]);
      LastTick(Start(per), spawnEvery, events) by {
        assert QuickTick(events[last]);
      }
      TicketsSoFar(per, spawnEvery, events);
      NextTick(RunOf(Start(per), spawnEvery, events[..last]), RunOf(Start(per), spawnEvery, events), spawnEvery,
               events[last].luck, last);
    }
  }

  lemma StartStaffed(per: seq<int>, spawnEvery: int)
    requires |per| == STATIONS && (forall s :: 0 <= s < STATIONS ==> per[s] >= 0) && Floor(Start(per))
    requires spawnEvery >= 387
    ensures Along(RunOf(Start(per), spawnEvery, []), spawnEvery, 0)
  {
    hide Floor;
    forall s | 0 <= s < STATIONS ensures Start(per).stations[s].agents != [] {
      assert Staff(per[s]) >= 1;
      assert |Start(per).stations[s].agents| >= 1;
    }
  }

  lemma TicketsSoFar(per: seq<int>, spawnEvery: int, events: seq<Event>)
    requires |per| == STATIONS && Floor(Start(per)) && (forall i :: 0 <= i < |events| ==> Possible(events[i]))
    requires spawnEvery >= 387 && |events| <= spawnEvery + 386 && Ticks(events) == |events|
    ensures var w := RunOf(Start(per), spawnEvery, events);
            w.tick == |events| && |w.tickets| == if |events| < spawnEvery then 0 else 1
  {
    hide Floor, RunOf;
    RunOnTime(Start(per), spawnEvery, events);
    var w := RunOf(Start(per), spawnEvery, events);
    DivisionOf(|w.tickets|, spawnEvery, w.tick);
    DivisionOf(if w.tick < spawnEvery then 0 else 1, spawnEvery, w.tick);
  }

  lemma NextTick(w: World, r: World, spawnEvery: int, luck: Luck, n: nat)
    requires Floor(w) && Floor(r) && StepShape(w, r, luck) && Quick(luck) && Along(w, spawnEvery, n)
    requires |r.tickets| == (if n + 1 < spawnEvery then 0 else 1) && n < spawnEvery + 386
    ensures Along(r, spawnEvery, n + 1)
  {
    hide Floor, StepShape, OnSchedule, Quick, Staffed;
    StaffStays(w, r, luck);
    if n >= spawnEvery {
      StaysOnSchedule(w, r, luck, n - spawnEvery);
    } else if n + 1 == spawnEvery {
      FirstSteps(w, r, luck);
    }
  }

  lemma LastTick(start: World, spawnEvery: int, events: seq<Event>)
    requires Floor(start) && events != [] && QuickTick(events[|events| - 1])
    requires forall i :: 0 <= i < |events| ==> Possible(events[i])
    ensures events[|events| - 1].Tick? && Quick(events[|events| - 1].luck)
    ensures StepShape(RunOf(start, spawnEvery, events[..|events| - 1]), RunOf(start, spawnEvery, events),
                      events[|events| - 1].luck)
  {
    hide Floor, Step, StepShape, Fair;
    var last := events[|events| - 1];
    var w := RunOf(start, spawnEvery, events[..|events| - 1]);
    assert Possible(last);
    StepMoves(w, spawnEvery, last.strategy, last.luck);
  }

  lemma FirstSteps(w: World, r: World, luck: Luck)
    requires Floor(w) && Floor(r) && StepShape(w, r, luck) && Staffed(w) && Quick(luck)
    requires w.tickets == [] && |r.tickets| == 1
    ensures OnSchedule(r, 0)
  {
    assert IndoorStep(NewTicket(r.tick), r.tickets[0], r.tick, luck.again(0));
    TakenUp(w, r, luck);
  }

  /** With an agent at every station, no competing ticket, the shortest draws and nothing sent back, the first ticket is
      shipped in the 386th tick after it came, under any strategies: the bound on early shipping is met. */
  lemma ShipsOnTime(per: seq<int>, spawnEvery: int, events: seq<Event>)
    requires |per| == STATIONS && (forall s :: 0 <= s < STATIONS ==> per[s] >= 0)
    requires forall i :: 0 <= i < |events| ==> QuickTick(events[i])
    requires spawnEvery >= 387 && |events| == spawnEvery + 386
    ensures Floor(Start(per)) && forall i :: 0 <= i < |events| ==> Possible(events[i])
    ensures var w := RunOf(Start(per), spawnEvery, events);
            && |w.tickets| == 1 && w.shipped == [0]
            && w.tickets[0].created == spawnEvery && w.tickets[0].shippedAt == Some(spawnEvery + 386)
  {
    hide RunOf;
    StartIsFloor(per);
    FirstTicket(per, spawnEvery, events);
    TicketsSoFar(per, spawnEvery, events) by {
      QuickIsPossible(events);
    }
    var w := RunOf(Start(per), spawnEvery, events);
    ShippedOnSchedule(w);
  }

  lemma AtWorkEarly(w: World, n: nat)
    requires Floor(w) && OnSchedule(w, n) && w.tickets[0].pos.AtWork?
    ensures n < 386
  {
    var s := w.tickets[0].station;
    SixStations(w);
    FloorAt(w, s);
    assert Earliest(0) == 0 && Earliest(1) == 47 && Earliest(2) == 122;
    assert Earliest(3) == 237 && Earliest(4) == 312 && Earliest(5) == 377;
    var agents := w.stations[s].agents;
    var k :| 0 <= k < |agents| && agents[k].ticket == Some(0)
             && agents[k].total == WorkMin(s) && agents[k].progress == n - Earliest(s) + 1;
    assert AgentOk(w, s, agents[k]);
  }

  lemma FirstTwo(ids: seq<nat>)
    requires forall i :: 0 <= i < |ids| ==> ids[i] == 0
    ensures |ids| > 1 ==> ids[0] == ids[1]
  {
  }

  lemma ShippedOnSchedule(w: World)
    requires Floor(w) && OnSchedule(w, 386)
    ensures w.tickets[0].shippedAt == Some(w.tick) && w.shipped == [0]
  {
    var t := w.tickets[0];
    FloorFinds(w, 0);
    if t.pos.AtWork? {
      AtWorkEarly(w, 386);
    } else if t.pos.OnBelt? {
      BeltRides(w, 0);
      StationStarts(t.station);
      StationStarts(0);
    }
    forall i | 0 <= i < |w.shipped| ensures w.shipped[i] == 0 {
      assert Is(w, w.shipped[i], Shipped);
    }
    FirstTwo(w.shipped);
  }
}
