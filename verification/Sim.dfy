/** The simulation's Zone state and the Commands that move a body between Zones
    (server/sim: verbs.go, character.go, purge.go, linkdead.go, content.go).

    A handler changes only the Zone it runs in, so each is a function from that Zone
    (and, for Bind and Purge, a read of the others) to an `Effect`. Zone and Entity IDs
    wrap their names; ticks and handoff sequences are unbounded naturals. */
module Sim {
  import opened Options

  datatype ZoneId = ZoneId(name: string)
  datatype EntityId = EntityId(name: string)
  type RoomId = string
  type Direction = string

  // ----- topology --------------------------------------------------------

  datatype RoomRef = RoomRef(zone: ZoneId, room: RoomId)
  datatype Exit = Exit(dir: Direction, to: RoomRef, crossZone: bool)
  datatype Room = Room(exits: seq<Exit>)
  datatype ZoneDef = ZoneDef(rooms: map<RoomId, Room>, fallback: RoomId)
  type World = map<ZoneId, ZoneDef>

  const NO_ZONE := ZoneId("")

  /** What the loader guarantees: Zone IDs are not empty, every Zone's fallback is one of its Rooms, and an
      Exit leads to a Room there is, its crossZone flag computed from that. */
  ghost predicate ValidWorld(w: World) {
    && NO_ZONE !in w
    && (forall z | z in w :: w[z].fallback in w[z].rooms)
    && (forall z, r, i | z in w && r in w[z].rooms && 0 <= i < |w[z].rooms[r].exits| ::
          && Resolves(w, w[z].rooms[r].exits[i].to)
          && (w[z].rooms[r].exits[i].crossZone <==> w[z].rooms[r].exits[i].to.zone != z))
  }

  predicate Resolves(w: World, ref: RoomRef) {
    ref.zone in w && ref.room in w[ref.zone].rooms
  }

  // ----- bodies ----------------------------------------------------------

  /** The four linkdead ticks; a body is linkdead when its deadline is set. */
  datatype Linkdead = Linkdead(since: nat, deadline: nat, ceiling: nat, extension: nat)
  const NOT_LINKDEAD := Linkdead(0, 0, 0, 0)

  datatype Body = Body(
    template: string, contentVersion: string, name: string, components: string,
    room: RoomId, dormant: bool, dormantSince: nat, linkdead: Linkdead, seq_: nat)
  {
    predicate IsLinkdead() { linkdead.deadline != 0 }
    predicate Present() { room != "" && !dormant }
    predicate IsCharacter() { template == CHARACTER_TEMPLATE }
  }

  /** The Character Template in effect: the content version and Components a new body takes. */
  datatype Template = Template(contentVersion: string, components: string)
  const CHARACTER_TEMPLATE := "andara.core.Character"

  /** A body as a Command carries it: no Room, and none of the dormant or linkdead fields. */
  datatype Wire = Wire(id: EntityId, template: string, contentVersion: string, name: string,
                       components: string, seq_: nat)

  function ToWire(id: EntityId, b: Body): Wire {
    Wire(id, b.template, b.contentVersion, b.name, b.components, b.seq_)
  }

  function FromWire(w: Wire, room: RoomId): Body {
    Body(w.template, w.contentVersion, w.name, w.components, room, false, 0, NOT_LINKDEAD, w.seq_)
  }

  // ----- Zone state ------------------------------------------------------

  /** A body on its way out: as it will arrive (sequence already incremented), and where to. */
  datatype Transit = Transit(body: Body, to: ZoneId, room: RoomId, dir: Direction)

  /** The highest sequence a Zone has decided for an Entity, and whether it was a rejection. */
  datatype Mark = Mark(seq_: nat, rejected: bool)

  datatype Zone = Zone(entities: map<EntityId, Body>, transit: map<EntityId, Transit>,
                       placed: map<EntityId, Mark>)
  const EMPTY_ZONE := Zone(map[], map[], map[])

  type Zones = map<ZoneId, Zone>

  /** The mark, 0 when the Zone has none. */
  function MarkOf(z: Zone, id: EntityId): nat {
    if id in z.placed then z.placed[id].seq_ else 0
  }

  // ----- Commands --------------------------------------------------------

  datatype Command =
    | Look(actor: EntityId)
    | Move(actor: EntityId, dir: Direction)
    | Goto(actor: EntityId, target: RoomRef)
    | Arrive(entity: Wire, origin: RoomRef, room: RoomId, from: Direction, hseq: nat)
    | HandoffAck(id: EntityId, ackSeq: nat)
    | Bind(id: EntityId, name: string, spawnRoom: RoomId)
    | Unbind(id: EntityId)
    | MarkLinkdead(id: EntityId, grace: nat, extension: nat, max: nat)
    | Purge(id: EntityId)

  /** Only a tick produces these two; every other Command comes from the Gateway. */
  predicate TickProduced(c: Command) { c.Arrive? || c.HandoffAck? }

  datatype Logged = Logged(zone: ZoneId, command: Command)

  datatype Code =
    | Accepted | InTransit | ActorNotFound | ActorLinkdead | NoSuchExit | UnknownZone | UnknownRoom
    | InvalidArrival | EntityPresent | IdReused | TemplateMissing

  /** What a handler leaves: its own Zone, what it produces, and how it ended. */
  datatype Effect = Effect(zone: Zone, outbound: set<Logged>, code: Code)

  function Reject(z: Zone, code: Code): Effect { Effect(z, {}, code) }

  // ----- the actor's Commands --------------------------------------------

  function Locate(w: World, zid: ZoneId, z: Zone, actor: EntityId): (c: Code)
    ensures c == Accepted ==> actor in z.entities && actor !in z.transit && z.entities[actor].Present()
                              && Resolves(w, RoomRef(zid, z.entities[actor].room))
  {
    if actor in z.transit then InTransit
    else if actor !in z.entities || !z.entities[actor].Present() then ActorNotFound
    else if !Resolves(w, RoomRef(zid, z.entities[actor].room)) then ActorNotFound
    else Accepted
  }

  function FindExit(exits: seq<Exit>, dir: Direction): (r: Option<Exit>)
    ensures r.Some? ==> r.value in exits && r.value.dir == dir
    ensures r.None? ==> forall e | e in exits :: e.dir != dir
  {
    if exits == [] then None
    else if exits[0].dir == dir then Some(exits[0])
    else FindExit(exits[1..], dir)
  }

  function Stand(z: Zone, id: EntityId, room: RoomId): Zone
    requires id in z.entities
  {
    z.(entities := z.entities[id := z.entities[id].(room := room)])
  }

  function ApplyMove(w: World, zid: ZoneId, z: Zone, actor: EntityId, dir: Direction): Effect {
    var c := Locate(w, zid, z, actor);
    if c != Accepted then Reject(z, c)
    else if z.entities[actor].IsLinkdead() then Reject(z, ActorLinkdead)
    else
      var exit := FindExit(w[zid].rooms[z.entities[actor].room].exits, dir);
      if exit.None? then Reject(z, NoSuchExit)
      else if !exit.value.crossZone then Effect(Stand(z, actor, exit.value.to.room), {}, Accepted)
      else Depart(zid, z, actor, exit.value.to, dir)
  }

  function ApplyGoto(w: World, zid: ZoneId, z: Zone, actor: EntityId, target: RoomRef): Effect {
    var c := Locate(w, zid, z, actor);
    if c != Accepted then Reject(z, c)
    else if z.entities[actor].IsLinkdead() then Reject(z, ActorLinkdead)
    else if target.zone !in w then Reject(z, UnknownZone)
    else if !Resolves(w, target) then Reject(z, UnknownRoom)
    else if target == RoomRef(zid, z.entities[actor].room) then Effect(z, {}, Accepted)
    else if target.zone == zid then Effect(Stand(z, actor, target.room), {}, Accepted)
    else Depart(zid, z, actor, target, "")
  }

  // ----- the handoff -----------------------------------------------------

  function Depart(zid: ZoneId, z: Zone, id: EntityId, to: RoomRef, dir: Direction): Effect
    requires id in z.entities
  {
    var b := z.entities[id];
    var rec := Transit(b.(seq_ := b.seq_ + 1), to.zone, to.room, dir);
    Effect(z.(entities := z.entities - {id}, transit := z.transit[id := rec]),
           {Logged(to.zone, ArriveFor(zid, id, rec))}, Accepted)
  }

  /** The Arrive a transit record produces, the first time and on every retry. */
  function ArriveFor(origin: ZoneId, id: EntityId, rec: Transit): Command {
    Arrive(ToWire(id, rec.body), RoomRef(origin, rec.body.room), rec.room, Reverse(rec.dir), rec.body.seq_)
  }

  function Reverse(d: Direction): Direction {
    match d
    case "north" => "south" case "south" => "north" case "east" => "west" case "west" => "east"
    case "northeast" => "southwest" case "southwest" => "northeast"
    case "northwest" => "southeast" case "southeast" => "northwest"
    case "up" => "down" case "down" => "up" case "in" => "out" case "out" => "in"
    case _ => ""
  }

  /** What validateArrive decides, by this Zone's own state alone. */
  datatype Verdict = Invalid | Reissue | Retry | Stale | Refused | New(drop: bool)

  function Decide(z: Zone, a: Command): (v: Verdict)
    requires a.Arrive?
  {
    var id := a.entity.id;
    if id.name == "" || a.hseq == 0 || a.hseq != a.entity.seq_ then Invalid
    else if a.hseq <= MarkOf(z, id) then
      if a.hseq == MarkOf(z, id) && z.placed[id].rejected then Reissue
      else if id in z.entities && z.entities[id].seq_ == a.hseq then Retry
      else Stale
    else if id in z.entities then Refused
    else if id in z.transit then
      if z.transit[id].body.seq_ >= a.hseq then Refused else New(true)
    else New(false)
  }

  /** The acknowledgement, to the Zone the Arrive names; none for an Arrive that names none. */
  function Ack(a: Command): set<Logged>
    requires a.Arrive?
  {
    if a.origin.zone == NO_ZONE then {} else {Logged(a.origin.zone, HandoffAck(a.entity.id, a.hseq))}
  }

  function ApplyArrive(w: World, zid: ZoneId, z: Zone, a: Command): Effect
    requires a.Arrive?
  {
    var id := a.entity.id;
    match Decide(z, a)
    case Invalid => Reject(z, InvalidArrival)
    case Refused => Reject(z, EntityPresent)
    case Reissue => Effect(z, {}, Accepted)
    case Retry => Effect(z, Ack(a), Accepted)
    case Stale => Effect(z, Ack(a), Accepted)
    case New(drop) =>
      var z1 := if drop then z.(transit := z.transit - {id}) else z;
      if zid !in w then Reject(z1, UnknownRoom)
      else
        var room := if a.room in w[zid].rooms then a.room else w[zid].fallback;
        Effect(z1.(entities := z1.entities[id := FromWire(a.entity, room)],
                   placed := z1.placed[id := Mark(a.hseq, false)]),
               Ack(a), Accepted)
  }

  function ApplyHandoffAck(z: Zone, id: EntityId, ackSeq: nat): Effect {
    if id in z.transit && z.transit[id].body.seq_ == ackSeq
    then Effect(z.(transit := z.transit - {id}), {}, Accepted)
    else Effect(z, {}, Accepted)
  }

  // ----- the body's lifecycle --------------------------------------------

  function Sleep(b: Body, tick: nat): Body {
    b.(dormant := true, dormantSince := tick, linkdead := NOT_LINKDEAD)
  }

  function ApplyBind(w: World, zones: Zones, zid: ZoneId, template: Option<Template>,
                     id: EntityId, name: string, spawnRoom: RoomId): Effect
    requires zid in zones
  {
    var z := zones[zid];
    if id in z.entities then
      var b := z.entities[id];
      var b1 := if b.name == "" && name != "" then b.(name := name) else b;
      var b2 := if b1.IsLinkdead() then b1.(linkdead := NOT_LINKDEAD)
                else if !b1.dormant then b1
                else b1.(dormant := false, dormantSince := 0);
      Effect(z.(entities := z.entities[id := b2]), {}, Accepted)
    else if exists o :: o in zones && o != zid && id in zones[o].entities then
      // Present elsewhere: announced, nothing changes. Linkdead or dormant: re-routed there.
      Effect(z, set o | o in zones && o != zid && id in zones[o].entities
                        && (zones[o].entities[id].dormant || zones[o].entities[id].IsLinkdead())
                     :: Logged(o, Bind(id, name, "")), Accepted)
    else if exists o :: o in zones && id in zones[o].transit then Reject(z, InTransit)
    else if exists o :: o in zones && id in zones[o].placed then Reject(z, IdReused)
    else if !Resolves(w, RoomRef(zid, spawnRoom)) then Reject(z, UnknownRoom)
    else if template.None? then Reject(z, TemplateMissing)
    else
      var t := template.value;
      var b := Body(CHARACTER_TEMPLATE, t.contentVersion, name, t.components, spawnRoom, false, 0, NOT_LINKDEAD, 0);
      Effect(z.(entities := z.entities[id := b]), {}, Accepted)
  }

  function ApplyUnbind(z: Zone, id: EntityId, tick: nat): Effect {
    if id in z.transit then Reject(z, InTransit)
    else if id !in z.entities || !z.entities[id].Present() then Effect(z, {}, Accepted)
    else Effect(z.(entities := z.entities[id := Sleep(z.entities[id], tick)]), {}, Accepted)
  }

  function ApplyMarkLinkdead(z: Zone, id: EntityId, tick: nat, grace: nat, extension: nat, max: nat): Effect {
    if id in z.transit then Reject(z, InTransit)
    else if id !in z.entities || !z.entities[id].Present() || z.entities[id].IsLinkdead() then Effect(z, {}, Accepted)
    else
      var ceiling := tick + max;
      var deadline := if tick + grace > ceiling then ceiling else tick + grace;
      var b := z.entities[id].(linkdead := Linkdead(tick, deadline, ceiling, extension));
      Effect(z.(entities := z.entities[id := b]), {}, Accepted)
  }

  function ApplyPurge(zones: Zones, zid: ZoneId, id: EntityId): Effect
    requires zid in zones
  {
    var z := zones[zid];
    if id in z.entities && z.entities[id].IsCharacter() then
      Effect(z.(entities := z.entities - {id}), {}, Accepted)
    else if exists o :: o in zones && o != zid && id in zones[o].entities && zones[o].entities[id].IsCharacter() then
      Effect(z, set o | o in zones && o != zid && id in zones[o].entities && zones[o].entities[id].IsCharacter()
                     :: Logged(o, Purge(id)), Accepted)
    else if exists o :: o in zones && id in zones[o].transit then Reject(z, InTransit)
    else Effect(z, {}, Accepted)
  }

  /** One record applied to the Zone it names. */
  function Apply(w: World, zones: Zones, zid: ZoneId, c: Command, tick: nat, template: Option<Template>): Effect
    requires zid in zones
  {
    var z := zones[zid];
    match c
    case Look(actor) => Reject(z, Locate(w, zid, z, actor))
    case Move(actor, dir) => ApplyMove(w, zid, z, actor, dir)
    case Goto(actor, target) => ApplyGoto(w, zid, z, actor, target)
    case Arrive(_, _, _, _, _) => ApplyArrive(w, zid, z, c)
    case HandoffAck(id, k) => ApplyHandoffAck(z, id, k)
    case Bind(id, name, room) => ApplyBind(w, zones, zid, template, id, name, room)
    case Unbind(id) => ApplyUnbind(z, id, tick)
    case MarkLinkdead(id, g, x, m) => ApplyMarkLinkdead(z, id, tick, g, x, m)
    case Purge(id) => ApplyPurge(zones, zid, id)
  }

  // ----- what a tick does outside a record -------------------------------

  /** Grace expiry: every linkdead body whose deadline has come goes dormant where it stands. */
  function ExpireZone(z: Zone, tick: nat): Zone {
    z.(entities := map id | id in z.entities ::
         if z.entities[id].IsLinkdead() && tick >= z.entities[id].linkdead.deadline
         then Sleep(z.entities[id], tick) else z.entities[id])
  }

  /** A swap keeps every Zone of the World in effect; one that would not is refused. */
  predicate SwapAccepted(from: World, to: World) {
    from.Keys <= to.Keys && forall z | z in to :: to[z].fallback in to[z].rooms
  }

  function SwapZone(z: Zone, def: ZoneDef): Zone {
    z.(entities := map id | id in z.entities ::
         if z.entities[id].room == "" || z.entities[id].room in def.rooms
         then z.entities[id] else z.entities[id].(room := def.fallback))
  }
}
