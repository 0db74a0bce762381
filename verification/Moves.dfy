/** Where a Move or a Goto puts its actor, and where one that leaves its Zone ends up (server/sim: verbs.go,
    direction.go). */
module Moves {
  import opened Options
  import opened Sim
  import opened Handoff
  import Crossing
  import P = HandoffProtocol

  // ----- directions ------------------------------------------------------

  datatype Offset = Offset(north: int, east: int, up: int, within: int)

  /** The step a Direction is: the compass, a level, or through something's threshold. */
  function OffsetOf(d: Direction): Option<Offset> {
    match d
    case "north" => Some(Offset(1, 0, 0, 0)) case "northeast" => Some(Offset(1, 1, 0, 0))
    case "east" => Some(Offset(0, 1, 0, 0)) case "southeast" => Some(Offset(-1, 1, 0, 0))
    case "south" => Some(Offset(-1, 0, 0, 0)) case "southwest" => Some(Offset(-1, -1, 0, 0))
    case "west" => Some(Offset(0, -1, 0, 0)) case "northwest" => Some(Offset(1, -1, 0, 0))
    case "up" => Some(Offset(0, 0, 1, 0)) case "down" => Some(Offset(0, 0, -1, 0))
    case "in" => Some(Offset(0, 0, 0, 1)) case "out" => Some(Offset(0, 0, 0, -1))
    case _ => None
  }

  /** A Direction's reverse undoes its step; a Direction that is none of the twelve has none. */
  lemma ReverseUndoes(d: Direction)
    ensures Reverse(d) == "" <==> OffsetOf(d).None?
    ensures OffsetOf(d).Some? ==>
              && OffsetOf(Reverse(d)).Some? && Reverse(Reverse(d)) == d
              && var o, p := OffsetOf(d).value, OffsetOf(Reverse(d)).value;
                 p == Offset(-o.north, -o.east, -o.up, -o.within)
  {
  }

  // ----- one Command -----------------------------------------------------

  /** The actor is awake, in a Room the World has. */
  predicate Here(w: World, zid: ZoneId, z: Zone, actor: EntityId) {
    && actor in z.entities && z.entities[actor].room != "" && !z.entities[actor].dormant
    && zid in w && z.entities[actor].room in w[zid].rooms
  }

  predicate CanAct(w: World, zid: ZoneId, z: Zone, actor: EntityId) {
    actor !in z.transit && Here(w, zid, z, actor) && z.entities[actor].linkdead.deadline == 0
  }

  /** Exit i is the first in that Direction. */
  ghost predicate FirstExit(exits: seq<Exit>, dir: Direction, i: nat) {
    i < |exits| && exits[i].dir == dir && forall j | 0 <= j < i :: exits[j].dir != dir
  }

  /** The body is in another Room of its Zone and nothing else changed. */
  ghost predicate Stood(z: Zone, eff: Effect, id: EntityId, room: RoomId) {
    && id in z.entities && eff.zone.entities.Keys == z.entities.Keys
    && eff.zone.entities[id] == z.entities[id].(room := room)
    && (forall o | o in z.entities && o != id :: eff.zone.entities[o] == z.entities[o])
    && eff.zone.transit == z.transit && eff.zone.placed == z.placed && eff.outbound == {}
  }

  /** The Arrive that carries a body to `to`. */
  ghost predicate Carries(l: Logged, zid: ZoneId, id: EntityId, b: Body, to: RoomRef, dir: Direction) {
    && l.zone == to.zone && l.command.Arrive?
    && l.command.entity == Wire(id, b.template, b.contentVersion, b.name, b.components, b.seq_ + 1)
    && l.command.origin == RoomRef(zid, b.room) && l.command.room == to.room
    && l.command.hseq == b.seq_ + 1 && l.command.from == Reverse(dir)
  }

  /** The body is out of its Zone, one sequence higher in a record that names `to`, with the Arrive for it. */
  ghost predicate Left(zid: ZoneId, z: Zone, eff: Effect, id: EntityId, to: RoomRef, dir: Direction) {
    && id in z.entities && id in eff.zone.transit
    && eff.zone.transit[id] ==
       Transit(z.entities[id].(seq_ := z.entities[id].seq_ + 1), to.zone, to.room, dir)
    && eff.zone.entities.Keys == z.entities.Keys - {id}
    && (forall o | o in z.entities && o != id :: eff.zone.entities[o] == z.entities[o])
    && eff.zone.transit.Keys == z.transit.Keys + {id}
    && (forall o | o in z.transit && o != id :: eff.zone.transit[o] == z.transit[o])
    && eff.zone.placed == z.placed
    && exists l :: eff.outbound == {l} && Carries(l, zid, id, z.entities[id], to, dir)
  }

  lemma {:induction false} FirstExitIs(exits: seq<Exit>, dir: Direction, i: nat)
    requires FirstExit(exits, dir, i)
    ensures FindExit(exits, dir) == Some(exits[i])
  {
    if i > 0 {
      assert exits[0].dir != dir;
      FirstExitIs(exits[1..], dir, i - 1);
    }
  }

  lemma {:induction false} SomeFirstExit(exits: seq<Exit>, dir: Direction)
    requires exists e :: e in exits && e.dir == dir
    ensures exists i: nat :: FirstExit(exits, dir, i)
  {
    if exits[0].dir == dir {
      assert FirstExit(exits, dir, 0);
    } else {
      SomeFirstExit(exits[1..], dir);
      var i: nat :| FirstExit(exits[1..], dir, i);
      assert FirstExit(exits, dir, i + 1);
    }
  }

  lemma DepartLeaves(zid: ZoneId, z: Zone, id: EntityId, to: RoomRef, dir: Direction)
    requires id in z.entities
    ensures Left(zid, z, Depart(zid, z, id, to, dir), id, to, dir) && Depart(zid, z, id, to, dir).code == Accepted
  {
    hide Reverse;
    var rec := Depart(zid, z, id, to, dir).zone.transit[id];
    assert Carries(Logged(to.zone, ArriveFor(zid, id, rec)), zid, id, z.entities[id], to, dir);
  }

  /** A Look changes nothing, and is refused exactly where its actor is not there to look. */
  lemma LookIs(w: World, zones: Zones, zid: ZoneId, actor: EntityId, tick: nat, template: Option<Template>)
    requires zid in zones
    ensures var z, eff := zones[zid], Apply(w, zones, zid, Look(actor), tick, template);
            && eff.zone == z && eff.outbound == {}
            && eff.code == (if actor in z.transit then InTransit else if !Here(w, zid, z, actor) then ActorNotFound
                            else Accepted)
  {
  }

  /** A Move, whole: each refusal with its cause, in order; else the first Exit in the Direction, by its own
      flag within the Zone or out of it. */
  lemma MoveIs(w: World, zid: ZoneId, z: Zone, actor: EntityId, dir: Direction)
    ensures var eff := ApplyMove(w, zid, z, actor, dir);
            && (eff.code == InTransit <==> actor in z.transit)
            && (eff.code == ActorNotFound <==> actor !in z.transit && !Here(w, zid, z, actor))
            && (eff.code == ActorLinkdead <==>
                  actor !in z.transit && Here(w, zid, z, actor) && !CanAct(w, zid, z, actor))
            && (eff.code == NoSuchExit <==>
                  CanAct(w, zid, z, actor) &&
                  forall e | e in w[zid].rooms[z.entities[actor].room].exits :: e.dir != dir)
            && (eff.code == Accepted <==>
                  CanAct(w, zid, z, actor) &&
                  exists e :: e in w[zid].rooms[z.entities[actor].room].exits && e.dir == dir)
            && (eff.code != Accepted ==> eff.zone == z && eff.outbound == {})
    ensures CanAct(w, zid, z, actor) ==>
              var exits := w[zid].rooms[z.entities[actor].room].exits;
              forall i: nat | FirstExit(exits, dir, i) ::
                var eff := ApplyMove(w, zid, z, actor, dir);
                if exits[i].crossZone then Left(zid, z, eff, actor, exits[i].to, dir)
                else Stood(z, eff, actor, exits[i].to.room)
  {
    hide Depart; hide FindExit; hide Left;
    if CanAct(w, zid, z, actor) {
      var exits := w[zid].rooms[z.entities[actor].room].exits;
      forall i: nat | FirstExit(exits, dir, i)
        ensures var eff := ApplyMove(w, zid, z, actor, dir);
                if exits[i].crossZone then Left(zid, z, eff, actor, exits[i].to, dir)
                else Stood(z, eff, actor, exits[i].to.room)
      {
        FirstExitIs(exits, dir, i);
        DepartLeaves(zid, z, actor, exits[i].to, dir);
      }
      if exists e :: e in exits && e.dir == dir {
        SomeFirstExit(exits, dir);
        var i: nat :| FirstExit(exits, dir, i);
        FirstExitIs(exits, dir, i);
        DepartLeaves(zid, z, actor, exits[i].to, dir);
      }
    }
  }

  /** A Goto, whole: the Room it is in already changes nothing. */
  lemma GotoIs(w: World, zid: ZoneId, z: Zone, actor: EntityId, target: RoomRef)
    ensures var eff := ApplyGoto(w, zid, z, actor, target);
            && (eff.code == InTransit <==> actor in z.transit)
            && (eff.code == ActorNotFound <==> actor !in z.transit && !Here(w, zid, z, actor))
            && (eff.code == ActorLinkdead <==>
                  actor !in z.transit && Here(w, zid, z, actor) && !CanAct(w, zid, z, actor))
            && (eff.code == UnknownZone <==> CanAct(w, zid, z, actor) && target.zone !in w)
            && (eff.code == UnknownRoom <==>
                  CanAct(w, zid, z, actor) && target.zone in w && target.room !in w[target.zone].rooms)
            && (eff.code == Accepted <==>
                  CanAct(w, zid, z, actor) && target.zone in w && target.room in w[target.zone].rooms)
            && (eff.code != Accepted ==> eff.zone == z && eff.outbound == {})
            && (eff.code == Accepted ==>
                  if target.zone != zid then Left(zid, z, eff, actor, target, "")
                  else Stood(z, eff, actor, target.room))
  {
    hide Depart; hide Left;
    if CanAct(w, zid, z, actor) {
      DepartLeaves(zid, z, actor, target, "");
    }
  }

  // ----- an Arrive -------------------------------------------------------

  /** The one message that acknowledges an Arrive, if it names a Zone to. */
  ghost predicate Acknowledged(out: set<Logged>, a: Command)
    requires a.Arrive?
  {
    if a.origin.zone.name == "" then out == {} else out == {Logged(a.origin.zone, HandoffAck(a.entity.id, a.hseq))}
  }

  ghost predicate Malformed(a: Command)
    requires a.Arrive?
  {
    a.entity.id.name == "" || a.hseq == 0 || a.hseq != a.entity.seq_
  }

  /** An Arrive, whole: malformed ones are refused; one at or below the mark changes nothing and is acknowledged,
      unless that very one was rejected; one above it is refused where the Entity is, or has left at as high a
      sequence; any other places the body, moves the mark to it, forgets an older record and is acknowledged. */
  lemma ArriveIs(w: World, zid: ZoneId, z: Zone, a: Command)
    requires a.Arrive? && zid in w
    ensures var eff, id := ApplyArrive(w, zid, z, a), a.entity.id;
            var mark := if id in z.placed then z.placed[id].seq_ else 0;
            var held := id in z.entities || (id in z.transit && z.transit[id].body.seq_ >= a.hseq);
            var room := if a.room in w[zid].rooms then a.room else w[zid].fallback;
            if Malformed(a) then eff.code == InvalidArrival && eff.zone == z && eff.outbound == {}
            else if a.hseq <= mark then
              && eff.code == Accepted && eff.zone == z
              && (if z.placed[id].rejected && a.hseq == mark then eff.outbound == {} else Acknowledged(eff.outbound, a))
            else if held then eff.code == EntityPresent && eff.zone == z && eff.outbound == {}
            else
              && eff.code == Accepted && Acknowledged(eff.outbound, a)
              && eff.zone.entities == z.entities[id := Body(a.entity.template, a.entity.contentVersion, a.entity.name,
                                                            a.entity.components, room, false, 0,
                                                            Linkdead(0, 0, 0, 0), a.entity.seq_)]
              && eff.zone.placed == z.placed[id := Mark(a.hseq, false)]
              && eff.zone.transit.Keys == z.transit.Keys - {id}
              && forall o | o in z.transit && o != id :: eff.zone.transit[o] == z.transit[o]
  {
  }

  /** An ack drops the Entity's record exactly when it is of that record's sequence. */
  lemma AckIs(z: Zone, id: EntityId, ackSeq: nat)
    ensures var eff := ApplyHandoffAck(z, id, ackSeq);
            && eff.code == Accepted && eff.outbound == {}
            && eff.zone.entities == z.entities && eff.zone.placed == z.placed
            && (forall o | o != id :: o in eff.zone.transit <==> o in z.transit)
            && (forall o | o in eff.zone.transit :: o in z.transit && eff.zone.transit[o] == z.transit[o])
            && (id in z.transit ==> (id in eff.zone.transit <==> z.transit[id].body.seq_ != ackSeq))
  {
  }

  // ----- runs ------------------------------------------------------------

  /** The Command names `to`, from the Room the actor is in. */
  ghost predicate Names(w: World, zid: ZoneId, room: RoomId, c: Command, to: RoomRef) {
    || (c.Goto? && to == c.target)
    || (c.Move? && zid in w && room in w[zid].rooms
        && exists i: nat :: FirstExit(w[zid].rooms[room].exits, c.dir, i) && w[zid].rooms[room].exits[i].to == to)
  }

  function Way(c: Command): Direction { if c.Move? then c.dir else "" }

  /** This event takes the Entity out of a Zone by a Move or a Goto. */
  ghost predicate Departs(s: State, e: Event, id: EntityId)
    requires Enabled(s, e)
  {
    && e.Record? && e.zone in s.zones && (e.command.Move? || e.command.Goto?) && e.command.actor == id
    && id in s.zones[e.zone].entities && id !in Next(s, e).zones[e.zone].entities
  }

  /** A departure from Zone `zid` to `to`: what its record and its one Arrive name. */
  ghost predicate Departed(s: State, s': State, zid: ZoneId, id: EntityId, to: RoomRef, dir: Direction) {
    && zid in s.zones && s'.zones.Keys == s.zones.Keys
    && (forall z | z in s.zones && z != zid :: s'.zones[z] == s.zones[z])
    && id in s.zones[zid].entities && id !in s'.zones[zid].entities && id in s'.zones[zid].transit
    && var b := s.zones[zid].entities[id];
       && s'.zones[zid].transit[id] == Transit(b.(seq_ := b.seq_ + 1), to.zone, to.room, dir)
       && exists l :: s'.sent == s.sent + {l} && Carries(l, zid, id, b, to, dir)
  }

  lemma LeftMeansDeparted(s: State, e: Event, eff: Effect, id: EntityId, to: RoomRef, dir: Direction)
    requires Enabled(s, e) && e.Record? && e.zone in s.zones
    requires eff == Apply(s.world, s.zones, e.zone, e.command, e.tick, e.template)
    requires Left(e.zone, s.zones[e.zone], eff, id, to, dir)
    ensures Departed(s, Next(s, e), e.zone, id, to, dir)
  {
    hide Apply; hide Carries;
    var l :| eff.outbound == {l} && Carries(l, e.zone, id, s.zones[e.zone].entities[id], to, dir);
    assert Next(s, e).sent == s.sent + {l};
  }

  /** One that leaves leads out of the Zone: in a well-formed World an Exit's flag says so. */
  lemma MoveOut(s: State, e: Event, id: EntityId) returns (to: RoomRef)
    requires ValidWorld(s.world) && Enabled(s, e) && Departs(s, e, id) && e.command.Move?
    ensures Names(s.world, e.zone, s.zones[e.zone].entities[id].room, e.command, to) && to.zone != e.zone
    ensures Resolves(s.world, to) && Departed(s, Next(s, e), e.zone, id, to, e.command.dir)
  {
    var z := s.zones[e.zone];
    MoveIs(s.world, e.zone, z, id, e.command.dir);
    var eff := ApplyMove(s.world, e.zone, z, id, e.command.dir);
    hide ApplyMove; hide Left;
    var exits := s.world[e.zone].rooms[z.entities[id].room].exits;
    SomeFirstExit(exits, e.command.dir);
    var i: nat :| FirstExit(exits, e.command.dir, i);
    to := exits[i].to;
    LeftMeansDeparted(s, e, eff, id, to, e.command.dir);
  }

  lemma GotoOut(s: State, e: Event, id: EntityId)
    requires Enabled(s, e) && Departs(s, e, id) && e.command.Goto?
    ensures e.command.target.zone != e.zone && Resolves(s.world, e.command.target)
    ensures Departed(s, Next(s, e), e.zone, id, e.command.target, "")
  {
    var z := s.zones[e.zone];
    GotoIs(s.world, e.zone, z, id, e.command.target);
    var eff := ApplyGoto(s.world, e.zone, z, id, e.command.target);
    hide ApplyGoto; hide Left;
    LeftMeansDeparted(s, e, eff, id, e.command.target, "");
  }

  /** In every run, a Move or Goto that takes an Entity out of its Zone records and announces exactly the
      Room it names, one the World has in another Zone; and it left a body awake. */
  lemma DepartureNames(r: Run, n: nat, id: EntityId) returns (to: RoomRef)
    requires Valid(r) && n < |r.events| && Steps(r.states[n], r.events[n], r.states[n + 1])
    requires Departs(r.states[n], r.events[n], id)
    ensures var s, e := r.states[n], r.events[n];
            && to.zone != e.zone && Resolves(s.world, to)
            && Names(s.world, e.zone, s.zones[e.zone].entities[id].room, e.command, to)
            && Departed(s, r.states[n + 1], e.zone, id, to, Way(e.command))
            && Crossing.Awake(s.zones[e.zone].entities[id])
  {
    var s, e := r.states[n], r.events[n];
    RunInv(r, n, id);
    Crossing.RunCarries(r, n);
    LeavesAwake(s, e, id);
    hide Next; hide P.Inv; hide ViewOf; hide Departed; hide Crossing.Carried;
    if e.command.Move? {
      to := MoveOut(s, e, id);
    } else {
      GotoOut(s, e, id);
      to := e.command.target;
    }
  }

  lemma LeavesAwake(s: State, e: Event, id: EntityId)
    requires Enabled(s, e) && Departs(s, e, id) && Crossing.Carried(s)
    ensures Crossing.Awake(s.zones[e.zone].entities[id])
  {
    var z := s.zones[e.zone];
    assert Crossing.CleanZone(z) && Crossing.Clean(z.entities[id]);
    if e.command.Move? {
      MoveIs(s.world, e.zone, z, id, e.command.dir);
    } else {
      GotoIs(s.world, e.zone, z, id, e.command.target);
    }
  }

  lemma NamesOne(w: World, zid: ZoneId, room: RoomId, c: Command, to: RoomRef, to': RoomRef)
    requires Names(w, zid, room, c, to) && Names(w, zid, room, c, to')
    ensures to == to'
  {
    if c.Move? {
      var exits := w[zid].rooms[room].exits;
      var i: nat :| FirstExit(exits, c.dir, i) && exits[i].to == to;
      var j: nat :| FirstExit(exits, c.dir, j) && exits[j].to == to';
      assert i == j;
    }
  }

  lemma {:induction false} SentStays(r: Run, i: nat, j: nat)
    requires Valid(r) && i <= j < |r.states|
    ensures r.states[i].sent <= r.states[j].sent
    decreases j
  {
    if i < j {
      SentStays(r, i, j - 1);
      assert Steps(r.states[j - 1], r.events[j - 1], r.states[j]);
      hide Apply;
    }
  }

  /** Whatever a run does in between, a body that left by a Move or Goto is placed where that Command said:
      in the Zone it named and, if that Zone still has it, the Room it named, else the Zone's fallback;
      and nothing else of the body has changed but its sequence, one higher. */
  lemma LandsWhereItWent(r: Run, n: nat, m: nat, id: EntityId, to: RoomRef)
    requires Valid(r) && n < m < |r.events| && Steps(r.states[n], r.events[n], r.states[n + 1])
    requires Departs(r.states[n], r.events[n], id)
    requires var s, e := r.states[n], r.events[n];
             Names(s.world, e.zone, s.zones[e.zone].entities[id].room, e.command, to)
    requires Places(r.states[m], r.events[m], id, r.states[n].zones[r.events[n].zone].entities[id].seq_ + 1)
    ensures var b, s, s' := r.states[n].zones[r.events[n].zone].entities[id], r.states[m], r.states[m + 1];
            && r.events[m].zone == to.zone && to.zone in s.world && to.zone in s'.zones
            && id in s'.zones[to.zone].entities
            && s'.zones[to.zone].entities[id] ==
               b.(seq_ := b.seq_ + 1,
                  room := if to.room in s.world[to.zone].rooms then to.room else s.world[to.zone].fallback)
  {
    var b, dir := r.states[n].zones[r.events[n].zone].entities[id], Way(r.events[n].command);
    var to' := DepartureNames(r, n, id);
    NamesOne(r.states[n].world, r.events[n].zone, b.room, r.events[n].command, to, to');
    var l :| r.states[n + 1].sent == r.states[n].sent + {l} && Carries(l, r.events[n].zone, id, b, to, dir);
    SentStays(r, n + 1, m);
    RunInv(r, m, id);
    Crossing.RunCarries(r, m);
    var s, e := r.states[m], r.events[m];
    assert Steps(s, e, r.states[m + 1]);
    hide P.Inv; hide ViewOf; hide Next; hide Departed; hide Names; hide FirstExit;
    SameArrive(s, e, id, l);
    Crossing.PlacedIs(s, e, id);
  }

  lemma SameArrive(s: State, e: Event, id: EntityId, l: Logged)
    requires Enabled(s, e) && Crossing.Carried(s) && l in s.sent && l.command.Arrive? && l.command.entity.id == id
    requires Places(s, e, id, l.command.hseq)
    ensures l == Logged(e.zone, e.command)
  {
  }
}
