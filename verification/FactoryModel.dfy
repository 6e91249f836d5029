/** The factory floor: tickets wait in queues, are worked on by agents, ride belts and are shipped. */
module FactoryModel {
  import opened Text

  datatype Pos = InQueue | AtWork | OnBelt | Shipped

  datatype Ticket = Ticket(
    created: nat,
    station: nat,
    pos: Pos,
    beltFrom: Option<nat>,
    beltTo: Option<nat>,
    beltProg: nat,
    shippedAt: Option<nat>)

  datatype Agent = Agent(ticket: Option<nat>, progress: nat, total: nat, completed: nat)

  const IDLE := Agent(None, 0, 0, 0)

  datatype Station = Station(queue: seq<nat>, agents: seq<Agent>, throughput: nat, turn: nat)

  /** Tickets are named by their position in `tickets`; queues, agents and belts hold names. */
  datatype World = World(
    tickets: seq<Ticket>,
    stations: seq<Station>,
    inFlight: seq<nat>,
    shipped: seq<nat>,
    tick: nat,
    lastSpawn: nat)

  datatype Strategy = Round | Priority | Load

  /** What the random numbers of one step amount to. A ticket is assigned and finished at most once per step, so
      drawing by ticket loses nothing. */
  datatype Luck = Luck(work: (nat, nat) -> nat, again: nat -> bool)

  const STATIONS := 6
  const CODE := 2
  const TEST := 3
  const REVIEW := 4
  const SHIP := 5
  const BELT_TICKS := 36
  const DEFAULT_SPAWN_EVERY := 22

  function WorkMin(s: nat): nat {
    match s case 0 => 12 case 1 => 40 case 2 => 80 case 3 => 40 case 4 => 30 case _ => 10
  }

  function WorkMax(s: nat): nat {
    match s case 0 => 18 case 1 => 80 case 2 => 160 case 3 => 90 case 4 => 70 case _ => 20
  }

  ghost predicate Fair(luck: Luck) {
    forall s: nat, t: nat :: WorkMin(s) <= luck.work(s, t) <= WorkMax(s)
  }

  // ---- Where everything is --------------------------------------------------

  predicate NoDup(ids: seq<nat>) {
    forall i, j :: 0 <= i < j < |ids| ==> ids[i] != ids[j]
  }

  predicate Is(w: World, id: nat, pos: Pos) {
    id < |w.tickets| && w.tickets[id].pos == pos
  }

  predicate Waits(w: World, id: nat, s: nat) {
    Is(w, id, InQueue) && w.tickets[id].station == s
  }

  predicate QueueOk(w: World, s: nat)
    requires s < |w.stations|
  {
    && NoDup(w.stations[s].queue)
    && forall i :: 0 <= i < |w.stations[s].queue| ==> Waits(w, w.stations[s].queue[i], s)
  }

  /** A busy agent holds a ticket that knows it is being worked on here, and is not finished. */
  predicate AgentOk(w: World, s: nat, a: Agent) {
    match a.ticket
    case None => a.progress == a.total == 0
    case Some(id) =>
      && Is(w, id, AtWork) && w.tickets[id].station == s
      && a.progress < a.total && WorkMin(s) <= a.total <= WorkMax(s)
  }

  predicate AgentsOk(w: World, s: nat)
    requires s < |w.stations|
  {
    var agents := w.stations[s].agents;
    && (forall k :: 0 <= k < |agents| ==> AgentOk(w, s, agents[k]))
    && (forall j, k :: 0 <= j < k < |agents| && agents[j].ticket.Some? ==> agents[j].ticket != agents[k].ticket)
  }

  predicate Route(from: nat, to: nat) {
    from < SHIP && (to == from + 1 || (to == CODE && (from == TEST || from == REVIEW)))
  }

  predicate Rides(w: World, id: nat) {
    && Is(w, id, OnBelt)
    && var t := w.tickets[id];
    && t.beltFrom == Some(t.station) && t.beltTo.Some? && Route(t.station, t.beltTo.value) && t.beltProg < BELT_TICKS
  }

  predicate BeltsOk(w: World) {
    NoDup(w.inFlight) && forall i :: 0 <= i < |w.inFlight| ==> Rides(w, w.inFlight[i])
  }

  predicate ShippedOk(w: World) {
    && NoDup(w.shipped)
    && forall i :: 0 <= i < |w.shipped| ==>
         Is(w, w.shipped[i], Shipped) && w.tickets[w.shipped[i]].station == SHIP
         && w.tickets[w.shipped[i]].shippedAt.Some?
  }

  predicate HeldBy(agents: seq<Agent>, id: nat) {
    exists k :: 0 <= k < |agents| && agents[k].ticket == Some(id)
  }

  /** A ticket is where its record says it is. */
  predicate Found(w: World, id: nat)
    requires id < |w.tickets|
  {
    var t := w.tickets[id];
    && t.station < |w.stations|
    && match t.pos
       case InQueue => id in w.stations[t.station].queue
       case AtWork => HeldBy(w.stations[t.station].agents, id)
       case OnBelt => id in w.inFlight
       case Shipped => id in w.shipped
  }

  predicate AllFound(w: World) {
    forall id :: 0 <= id < |w.tickets| ==> Found(w, id)
  }

  predicate Floor(w: World) {
    && |w.stations| == STATIONS
    && (forall s :: 0 <= s < STATIONS ==> QueueOk(w, s) && AgentsOk(w, s))
    && BeltsOk(w) && ShippedOk(w) && AllFound(w)
  }

  // ---- Counting -------------------------------------------------------------

  function Busy(agents: seq<Agent>): nat {
    if agents == [] then 0
    else Busy(agents[..|agents| - 1]) + if agents[|agents| - 1].ticket.Some? then 1 else 0
  }

  function Queued(stations: seq<Station>): nat {
    if stations == [] then 0 else Queued(stations[..|stations| - 1]) + |stations[|stations| - 1].queue|
  }

  function Working(stations: seq<Station>): nat {
    if stations == [] then 0 else Working(stations[..|stations| - 1]) + Busy(stations[|stations| - 1].agents)
  }

  function Everywhere(w: World): nat {
    Queued(w.stations) + Working(w.stations) + |w.inFlight| + |w.shipped|
  }

  // ---- Moves ----------------------------------------------------------------

  function WithStation(w: World, s: nat, st: Station): World
    requires s < |w.stations|
  {
    w.(stations := w.stations[s := st])
  }

  function WithTicket(w: World, id: nat, t: Ticket): World
    requires id < |w.tickets|
  {
    w.(tickets := w.tickets[id := t])
  }

  function NewTicket(tick: nat): Ticket {
    Ticket(tick, 0, InQueue, None, None, 0, None)
  }

  /** The clock moves, and every so often a ticket appears at the first station. */
  function Spawned(w: World, spawnEvery: int): World
    requires |w.stations| == STATIONS
  {
    var next := w.(tick := w.tick + 1);
    if next.tick - next.lastSpawn < spawnEvery then next
    else
      var st := w.stations[0];
      WithStation(next.(lastSpawn := next.tick, tickets := w.tickets + [NewTicket(next.tick)]),
                  0, st.(queue := st.queue + [|w.tickets|]))
  }

  function Without(ids: seq<nat>, i: nat): seq<nat>
    requires i < |ids|
  {
    ids[..i] + ids[i + 1..]
  }

  /** One belt position: the ticket rides on, or joins the queue it was sent to. */
  function BeltMoved(w: World, i: nat): World
    requires Floor(w) && i < |w.inFlight|
  {
    var id := w.inFlight[i];
    assert Rides(w, id);
    var t := w.tickets[id];
    if t.beltProg + 1 < BELT_TICKS then WithTicket(w, id, t.(beltProg := t.beltProg + 1))
    else
      var to := t.beltTo.value;
      var st := w.stations[to];
      WithStation(
        WithTicket(w, id, t.(pos := InQueue, station := to, beltFrom := None, beltTo := None, beltProg := 0)),
        to, st.(queue := st.queue + [id])
      ).(inFlight := Without(w.inFlight, i))
  }

  predicate IsIdle(st: Station, k: nat) {
    k < |st.agents| && st.agents[k].ticket.None?
  }

  predicate Known(w: World, ids: seq<nat>) {
    forall i :: 0 <= i < |ids| ==> ids[i] < |w.tickets|
  }

  /** Places `id` behind every ticket that is not younger. */
  function Insert(w: World, ids: seq<nat>, id: nat): (r: seq<nat>)
    requires id < |w.tickets| && Known(w, ids)
    ensures multiset(r) == multiset(ids) + multiset{id} && |r| == |ids| + 1 && Known(w, r)
  {
    var last := |ids| - 1;
    if ids == [] || w.tickets[ids[last]].created <= w.tickets[id].created then ids + [id]
    else
      assert ids == ids[..last] + [ids[last]];
      Insert(w, ids[..last], id) + [ids[last]]
  }

  /** Oldest first; tickets of the same age keep their order. */
  function ByAge(w: World, ids: seq<nat>): (r: seq<nat>)
    requires Known(w, ids)
    ensures multiset(r) == multiset(ids) && |r| == |ids| && Known(w, r)
  {
    if ids == [] then []
    else
      var last := |ids| - 1;
      assert ids == ids[..last] + [ids[last]];
      Insert(w, ByAge(w, ids[..last]), ids[last])
  }

  /** The queue in the order the strategy serves it. */
  function Serving(w: World, s: nat, strategy: Strategy): (r: seq<nat>)
    requires Floor(w) && s < STATIONS
    ensures multiset(r) == multiset(w.stations[s].queue) && |r| == |w.stations[s].queue| && Known(w, r)
  {
    QueueInRange(w, s);
    if strategy.Priority? then ByAge(w, w.stations[s].queue) else w.stations[s].queue
  }

  lemma QueueInRange(w: World, s: nat)
    requires Floor(w) && s < STATIONS
    ensures Known(w, w.stations[s].queue)
  {
    assert QueueOk(w, s);
  }

  /** The next in line goes to agent `k`. */
  function Assigned(w: World, s: nat, k: nat, turn: nat, strategy: Strategy, luck: Luck): World
    requires Floor(w) && s < STATIONS && w.stations[s].queue != [] && IsIdle(w.stations[s], k)
  {
    var st, line := w.stations[s], Serving(w, s, strategy);
    var id := line[0];
    WithStation(WithTicket(w, id, w.tickets[id].(pos := AtWork)), s,
                st.(queue := line[1..], turn := turn,
                    agents := st.agents[k := Agent(Some(id), 0, luck.work(s, id), st.agents[k].completed)]))
  }

  function Destination(s: nat, id: nat, luck: Luck): nat {
    if (s == TEST || s == REVIEW) && luck.again(id) then CODE else s + 1
  }

  /** One tick of work by agent `k`; a finished ticket leaves by belt, or for good. */
  function Worked(w: World, s: nat, k: nat, luck: Luck): World
    requires Floor(w) && s < STATIONS && k < |w.stations[s].agents|
  {
    var st := w.stations[s];
    var a := st.agents[k];
    if a.ticket.None? then w
    else
      var id := a.ticket.value;
      assert AgentsOk(w, s) && AgentOk(w, s, a);
      var t := w.tickets[id];
      if a.progress + 1 < a.total then
        WithStation(w, s, st.(agents := st.agents[k := a.(progress := a.progress + 1)]))
      else
        var freed := WithStation(w, s, st.(agents := st.agents[k := Agent(None, 0, 0, a.completed + 1)],
                                           throughput := st.throughput + 1));
        if s < SHIP then
          WithTicket(freed, id, t.(pos := OnBelt, beltFrom := Some(s), beltTo := Some(Destination(s, id, luck)),
                                   beltProg := 0)).(inFlight := w.inFlight + [id])
        else
          WithTicket(freed, id, t.(pos := Shipped, shippedAt := Some(w.tick))).(shipped := w.shipped + [id])
  }

  /** The last agent of a station is let go; its ticket goes back to the head of the queue. */
  function Dismissed(w: World, s: nat): World
    requires Floor(w) && s < STATIONS && w.stations[s].agents != []
  {
    var st := w.stations[s];
    var last := |st.agents| - 1;
    var a := st.agents[last];
    if a.ticket.None? then WithStation(w, s, st.(agents := st.agents[..last]))
    else
      var id := a.ticket.value;
      assert AgentsOk(w, s) && AgentOk(w, s, a);
      WithStation(WithTicket(w, id, w.tickets[id].(pos := InQueue)), s,
                  st.(agents := st.agents[..last], queue := [id] + st.queue))
  }

  function Hired(w: World, s: nat): World
    requires s < |w.stations|
  {
    WithStation(w, s, w.stations[s].(agents := w.stations[s].agents + [IDLE]))
  }
}
