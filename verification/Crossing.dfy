/** What a crossing carries, and that it can always be finished: the body placed is the body that
    left, its Room aside, and one Arrive and one HandoffAck complete any handoff a run leaves open. */
module Crossing {
  import opened Options
  import opened Sim
  import opened Handoff
  import P = HandoffProtocol

  /** A body awake and not linkdead has none of the fields a message does not carry. */
  predicate Clean(b: Body) {
    (!b.dormant ==> b.dormantSince == 0) && (!b.IsLinkdead() ==> b.linkdead == NOT_LINKDEAD)
  }

  predicate Awake(b: Body) { !b.dormant && b.dormantSince == 0 && b.linkdead == NOT_LINKDEAD }

  ghost predicate CleanZone(z: Zone) {
    && (forall id | id in z.entities :: Clean(z.entities[id]))
    && (forall id | id in z.transit :: Awake(z.transit[id].body))
  }

  /** A record's own Arrive has been produced. */
  ghost predicate Announced(sent: set<Logged>, zid: ZoneId, z: Zone) {
    forall id | id in z.transit :: Logged(z.transit[id].to, ArriveFor(zid, id, z.transit[id])) in sent
  }

  /** One handoff of one Entity is one Arrive, whichever attempt produced it. */
  ghost predicate OneArrive(sent: set<Logged>) {
    forall l, m | l in sent && m in sent && l.command.Arrive? && m.command.Arrive?
                  && l.command.entity.id == m.command.entity.id && l.command.hseq == m.command.hseq :: l == m
  }

  ghost predicate Carried(s: State) {
    && (forall z | z in s.zones :: CleanZone(s.zones[z]) && Announced(s.sent, z, s.zones[z]))
    && OneArrive(s.sent)
  }

  ghost predicate Known(s: State, id: EntityId) { exists h :: P.Inv(ViewOf(s, id), h) }

  lemma CleanDepart(zid: ZoneId, z: Zone, id: EntityId, to: RoomRef, dir: Direction)
    requires CleanZone(z) && id in z.entities && z.entities[id].Present() && !z.entities[id].IsLinkdead()
    ensures CleanZone(Depart(zid, z, id, to, dir).zone)
  {
    hide ArriveFor;
  }

  lemma CleanMove(w: World, zid: ZoneId, z: Zone, actor: EntityId, dir: Direction)
    requires CleanZone(z)
    ensures CleanZone(ApplyMove(w, zid, z, actor, dir).zone)
  {
    hide Depart; hide FindExit;
    if Locate(w, zid, z, actor) == Accepted && !z.entities[actor].IsLinkdead() {
      var exit := FindExit(w[zid].rooms[z.entities[actor].room].exits, dir);
      if exit.Some? { CleanDepart(zid, z, actor, exit.value.to, dir); }
    }
  }

  lemma CleanGoto(w: World, zid: ZoneId, z: Zone, actor: EntityId, target: RoomRef)
    requires CleanZone(z)
    ensures CleanZone(ApplyGoto(w, zid, z, actor, target).zone)
  {
    hide Depart;
    if Locate(w, zid, z, actor) == Accepted && !z.entities[actor].IsLinkdead() {
      CleanDepart(zid, z, actor, target, "");
    }
  }

  lemma CleanArrive(w: World, zid: ZoneId, z: Zone, a: Command)
    requires CleanZone(z) && a.Arrive?
    ensures CleanZone(ApplyArrive(w, zid, z, a).zone)
  {
  }

  lemma CleanBind(w: World, zones: Zones, zid: ZoneId, template: Option<Template>, id: EntityId, name: string,
                  room: RoomId)
    requires zid in zones && CleanZone(zones[zid])
    ensures CleanZone(ApplyBind(w, zones, zid, template, id, name, room).zone)
  {
  }

  lemma CleanApply(w: World, zones: Zones, z: ZoneId, c: Command, tick: nat, template: Option<Template>)
    requires z in zones && CleanZone(zones[z]) && tick >= 1
    ensures CleanZone(Apply(w, zones, z, c, tick, template).zone)
  {
    hide ApplyMove; hide ApplyGoto; hide ApplyArrive; hide ApplyBind;
    match c
    case Look(_) =>
    case Move(actor, dir) => CleanMove(w, z, zones[z], actor, dir);
    case Goto(actor, target) => CleanGoto(w, z, zones[z], actor, target);
    case Arrive(_, _, _, _, _) => CleanArrive(w, z, zones[z], c);
    case Bind(id, name, room) => CleanBind(w, zones, z, template, id, name, room);
    case _ =>
  }

  lemma DepartAnnounces(zid: ZoneId, z: Zone, id: EntityId, to: RoomRef, dir: Direction, sent: set<Logged>)
    requires id in z.entities && Announced(sent, zid, z)
    ensures var eff := Depart(zid, z, id, to, dir); Announced(sent + eff.outbound, zid, eff.zone)
  {
    hide ArriveFor;
  }

  /** The handlers that depart no one add no record. */
  lemma SameRecords(zid: ZoneId, z: Zone, z': Zone, sent: set<Logged>, more: set<Logged>)
    requires Announced(sent, zid, z)
    requires forall id | id in z'.transit :: id in z.transit && z'.transit[id] == z.transit[id]
    ensures Announced(sent + more, zid, z')
  {
    hide ArriveFor;
  }

  lemma MoveAnnounces(w: World, zid: ZoneId, z: Zone, actor: EntityId, dir: Direction, sent: set<Logged>)
    requires Announced(sent, zid, z)
    ensures var eff := ApplyMove(w, zid, z, actor, dir); Announced(sent + eff.outbound, zid, eff.zone)
  {
    hide Depart; hide FindExit; hide Announced;
    var eff := ApplyMove(w, zid, z, actor, dir);
    if Locate(w, zid, z, actor) == Accepted && !z.entities[actor].IsLinkdead() {
      var exit := FindExit(w[zid].rooms[z.entities[actor].room].exits, dir);
      if exit.Some? && exit.value.crossZone {
        DepartAnnounces(zid, z, actor, exit.value.to, dir, sent);
      } else {
        SameRecords(zid, z, eff.zone, sent, eff.outbound);
      }
    } else {
      SameRecords(zid, z, eff.zone, sent, eff.outbound);
    }
  }

  lemma GotoAnnounces(w: World, zid: ZoneId, z: Zone, actor: EntityId, target: RoomRef, sent: set<Logged>)
    requires Announced(sent, zid, z)
    ensures var eff := ApplyGoto(w, zid, z, actor, target); Announced(sent + eff.outbound, zid, eff.zone)
  {
    hide Depart; hide Announced;
    var eff := ApplyGoto(w, zid, z, actor, target);
    if actor in z.entities && eff == Depart(zid, z, actor, target, "") {
      DepartAnnounces(zid, z, actor, target, "", sent);
    } else {
      SameRecords(zid, z, eff.zone, sent, eff.outbound);
    }
  }

  /** What a record adds to the log and to Transit go together. */
  lemma ApplyAnnounces(w: World, zones: Zones, z: ZoneId, c: Command, tick: nat, template: Option<Template>,
                       sent: set<Logged>)
    requires z in zones && Announced(sent, z, zones[z])
    ensures var eff := Apply(w, zones, z, c, tick, template); Announced(sent + eff.outbound, z, eff.zone)
  {
    hide ApplyMove; hide ApplyGoto; hide Announced;
    var eff := Apply(w, zones, z, c, tick, template);
    match c
    case Move(actor, dir) => MoveAnnounces(w, z, zones[z], actor, dir, sent);
    case Goto(actor, target) => GotoAnnounces(w, z, zones[z], actor, target, sent);
    case _ => SameRecords(z, zones[z], eff.zone, sent, eff.outbound);
  }

  /** Only a departure produces an Arrive. */
  lemma NewArriveIsDeparture(s: State, e: Event, id: EntityId, l: Logged)
    requires Good(s) && Enabled(s, e) && e.Record? && e.zone in s.zones
    requires l in Apply(s.world, s.zones, e.zone, e.command, e.tick, e.template).outbound
    requires l.command.Arrive? && l.command.entity.id == id
    ensures StepFor(s, e, id).Depart? && id in s.zones[e.zone].entities
    ensures l.command.hseq == s.zones[e.zone].entities[id].seq_ + 1
  {
    hide Apply; hide RecordStep;
    RecordLocal(s, e, id);
    var eff := Apply(s.world, s.zones, e.zone, e.command, e.tick, e.template);
    assert P.Arrival(l.command.origin.zone, l.zone, l.command.hseq) in Arrivals(eff.outbound, id);
  }

  /** It is at a sequence above every one produced before. */
  lemma NewArriveIsFresh(s: State, e: Event, id: EntityId, h: seq<ZoneId>, l: Logged, m: Logged)
    requires Good(s) && Enabled(s, e) && e.Record? && e.zone in s.zones && P.Inv(ViewOf(s, id), h)
    requires l in Apply(s.world, s.zones, e.zone, e.command, e.tick, e.template).outbound
    requires l.command.Arrive? && l.command.entity.id == id
    requires m in s.sent && m.command.Arrive? && m.command.entity.id == id
    ensures m.command.hseq < l.command.hseq
  {
    hide Apply; hide StepFor;
    NewArriveIsDeparture(s, e, id, l);
    var v := ViewOf(s, id);
    assert P.Arrival(m.command.origin.zone, m.zone, m.command.hseq) in v.arrives;
    assert e.zone in v.bodies && v.bodies[e.zone] == s.zones[e.zone].entities[id].seq_;
    assert P.Leg(h, m.command.hseq, m.command.origin.zone, m.zone);
  }

  lemma OneNewArrive(w: World, zones: Zones, z: ZoneId, c: Command, tick: nat, template: Option<Template>)
    requires z in zones
    ensures OneArrive(Apply(w, zones, z, c, tick, template).outbound)
  {
  }

  lemma RecordCarries(s: State, e: Event, s': State)
    requires Steps(s, e, s') && e.Record? && e.zone in s.zones && Good(s) && Carried(s)
    requires forall id :: Known(s, id)
    ensures Carried(s')
  {
    hide Apply; hide ViewOf; hide P.Inv;
    var eff := Apply(s.world, s.zones, e.zone, e.command, e.tick, e.template);
    CleanApply(s.world, s.zones, e.zone, e.command, e.tick, e.template);
    ApplyAnnounces(s.world, s.zones, e.zone, e.command, e.tick, e.template, s.sent);
    OneNewArrive(s.world, s.zones, e.zone, e.command, e.tick, e.template);
    forall l, m | l in eff.outbound && m in s.sent && l.command.Arrive? && m.command.Arrive?
                  && l.command.entity.id == m.command.entity.id
      ensures m.command.hseq < l.command.hseq
    {
      assert Known(s, l.command.entity.id);
      var h :| P.Inv(ViewOf(s, l.command.entity.id), h);
      NewArriveIsFresh(s, e, l.command.entity.id, h, l, m);
    }
  }

  lemma QuietCarries(s: State, e: Event, s': State)
    requires Steps(s, e, s') && !e.Record? && Carried(s)
    ensures Carried(s')
  {
    hide ArriveFor; hide Apply;
    if e.Retry? {
      assert s'.sent == s.sent;
    } else {
      forall z | z in s'.zones ensures CleanZone(s'.zones[z]) && Announced(s'.sent, z, s'.zones[z]) {
        if z in s.zones { assert s'.zones[z].transit == s.zones[z].transit; }
      }
    }
  }

  lemma {:induction false} RunCarries(r: Run, n: nat)
    requires Valid(r) && n < |r.states|
    ensures Carried(r.states[n])
  {
    hide Next; hide P.Inv; hide ViewOf;
    if n > 0 {
      var s, e := r.states[n - 1], r.events[n - 1];
      RunCarries(r, n - 1);
      forall id ensures Known(s, id) { RunInv(r, n - 1, id); }
      RunInv(r, n - 1, EntityId(""));
      assert Steps(s, e, r.states[n]);
      if !e.Record? {
        QuietCarries(s, e, r.states[n]);
      } else if e.zone in s.zones {
        RecordCarries(s, e, r.states[n]);
      } else {
        UnknownZone(s, e, r.states[n]);
      }
    }
  }

  lemma UnknownZone(s: State, e: Event, s': State)
    requires Steps(s, e, s') && e.Record? && e.zone !in s.zones
    ensures s' == s
  {
  }

  // ----- the body placed is the body that left ---------------------------

  /** A new handoff's record is still where it left from, and its Arrive is that record's. */
  lemma NewHandoffHasItsRecord(s: State, z: ZoneId, c: Command, h: seq<ZoneId>)
    requires c.Arrive? && Logged(z, c) in s.sent && z in s.zones && Decide(s.zones[z], c).New?
    requires P.Inv(ViewOf(s, c.entity.id), h) && Carried(s)
    ensures var o, id := c.origin.zone, c.entity.id;
            && o in s.zones && id in s.zones[o].transit
            && s.zones[o].transit[id].to == z && c == ArriveFor(o, id, s.zones[o].transit[id])
  {
    hide P.Inv;
    var id := c.entity.id;
    var v, m := ViewOf(s, id), P.Arrival(c.origin.zone, z, c.hseq);
    assert m in v.arrives;
    assert P.MarkAt(v, z) == MarkOf(s.zones[z], id);
    P.UndecidedHasItsRecord(v, h, m);
    RecordIsAnnounced(s, z, c);
  }

  lemma RecordIsAnnounced(s: State, z: ZoneId, c: Command)
    requires c.Arrive? && Logged(z, c) in s.sent && Carried(s)
    requires var o, id := c.origin.zone, c.entity.id;
             o in s.zones && id in s.zones[o].transit && HopOf(s.zones[o].transit[id]) == P.Hop(c.hseq, z)
    ensures c == ArriveFor(c.origin.zone, c.entity.id, s.zones[c.origin.zone].transit[c.entity.id])
  {
    var o, id := c.origin.zone, c.entity.id;
    var rec := s.zones[o].transit[id];
    assert Announced(s.sent, o, s.zones[o]);
    assert Logged(rec.to, ArriveFor(o, id, rec)) in s.sent;
  }

  /** Every placement of every run: the body put down is the one in its origin's Transit, every field
      but the Room, which is the one the record names or, that Room gone, the Zone's fallback. */
  lemma BodyCrossesIntact(r: Run, n: nat, id: EntityId, k: nat)
    requires Valid(r) && n < |r.events| && Places(r.states[n], r.events[n], id, k)
    ensures var s, s', e := r.states[n], r.states[n + 1], r.events[n];
            var o := e.command.origin.zone;
            && o in s.zones && id in s.zones[o].transit && id in s'.zones[e.zone].entities
            && var rec, placed := s.zones[o].transit[id], s'.zones[e.zone].entities[id];
               && rec.to == e.zone && rec.body.seq_ == k
               && placed == rec.body.(room := placed.room)
               && placed.room == (if rec.room in s.world[e.zone].rooms then rec.room else s.world[e.zone].fallback)
  {
    var s, e := r.states[n], r.events[n];
    assert Steps(s, e, r.states[n + 1]);
    hide P.Inv; hide ViewOf; hide Carried; hide Next; hide Journey; hide ArriveFor;
    RunInv(r, n, id);
    RunCarries(r, n);
    NewHandoffHasItsRecord(s, e.zone, e.command, Journey(r, n, id));
    RecordIsAwake(s, e.command.origin.zone, id);
    PlacedIs(s, e, id);
    hide Decide;
    AsItLeft(e.command.origin.zone, id, s.zones[e.command.origin.zone].transit[id], e.command);
  }

  /** What a new Arrive puts down. */
  lemma PlacedIs(s: State, e: Event, id: EntityId)
    requires Good(s) && Enabled(s, e) && e.Record? && e.zone in s.zones && e.command.Arrive?
    requires e.command.entity.id == id
    requires Decide(s.zones[e.zone], e.command).New?
    ensures var s' := Next(s, e);
            && e.zone in s.world && e.zone in s'.zones && id in s'.zones[e.zone].entities
            && var room := if e.command.room in s.world[e.zone].rooms then e.command.room else s.world[e.zone].fallback;
               s'.zones[e.zone].entities[id] == FromWire(e.command.entity, room)
  {
  }

  /** A body through a message and back: every field but the Room. */
  lemma AsItLeft(o: ZoneId, id: EntityId, rec: Transit, c: Command)
    requires c == ArriveFor(o, id, rec) && Awake(rec.body)
    ensures c.room == rec.room && c.hseq == rec.body.seq_
    ensures forall room :: FromWire(c.entity, room) == rec.body.(room := room)
  {
    hide Reverse;
  }

  lemma RecordIsAwake(s: State, o: ZoneId, id: EntityId)
    requires Carried(s) && o in s.zones && id in s.zones[o].transit
    ensures Awake(s.zones[o].transit[id].body)
  {
  }

  // ----- every record leads to a Zone ------------------------------------

  /** The state has the World's Zones, and every record's target is one of them. */
  ghost predicate Routed(s: State) {
    && s.zones.Keys == s.world.Keys
    && forall z, id | z in s.zones && id in s.zones[z].transit :: s.zones[z].transit[id].to in s.zones
  }

  lemma MoveRouted(w: World, zid: ZoneId, z: Zone, actor: EntityId, dir: Direction)
    requires ValidWorld(w) && forall id | id in z.transit :: z.transit[id].to in w
    ensures var z' := ApplyMove(w, zid, z, actor, dir).zone; forall id | id in z'.transit :: z'.transit[id].to in w
  {
    hide ArriveFor;
    if Locate(w, zid, z, actor) == Accepted {
      var exits := w[zid].rooms[z.entities[actor].room].exits;
      var exit := FindExit(exits, dir);
      if exit.Some? {
        var i :| 0 <= i < |exits| && exits[i] == exit.value;
        assert Resolves(w, exits[i].to);
      }
    }
  }

  lemma GotoRouted(w: World, zid: ZoneId, z: Zone, actor: EntityId, target: RoomRef)
    requires forall id | id in z.transit :: z.transit[id].to in w
    ensures var z' := ApplyGoto(w, zid, z, actor, target).zone; forall id | id in z'.transit :: z'.transit[id].to in w
  {
    hide ArriveFor;
  }

  lemma ApplyRouted(w: World, zones: Zones, z: ZoneId, c: Command, tick: nat, template: Option<Template>)
    requires ValidWorld(w) && z in zones && forall id | id in zones[z].transit :: zones[z].transit[id].to in w
    ensures var z' := Apply(w, zones, z, c, tick, template).zone; forall id | id in z'.transit :: z'.transit[id].to in w
  {
    hide ApplyMove; hide ApplyGoto; hide ValidWorld;
    match c
    case Move(actor, dir) => MoveRouted(w, z, zones[z], actor, dir);
    case Goto(actor, target) => GotoRouted(w, z, zones[z], actor, target);
    case _ =>
  }

  lemma StepRouted(s: State, e: Event, s': State)
    requires Steps(s, e, s') && Routed(s) && ValidWorld(s.world)
    ensures Routed(s') && ValidWorld(s'.world)
  {
    hide Apply; hide ArriveFor; hide ValidWorld;
    if e.Record? && e.zone in s.zones {
      ApplyRouted(s.world, s.zones, e.zone, e.command, e.tick, e.template);
    } else if e.Swap? {
      forall z | z in s'.zones ensures z in s.zones ==> s'.zones[z].transit == s.zones[z].transit
                               ensures z !in s.zones ==> s'.zones[z].transit == map[] {}
    }
  }

  /** In every state of every run. */
  lemma {:induction false} RunRouted(r: Run, n: nat)
    requires Valid(r) && n < |r.states|
    ensures Routed(r.states[n]) && ValidWorld(r.states[n].world)
  {
    hide Next; hide ValidWorld;
    if n > 0 {
      RunRouted(r, n - 1);
      assert Steps(r.states[n - 1], r.events[n - 1], r.states[n]);
      hide Steps;
      StepRouted(r.states[n - 1], r.events[n - 1], r.states[n]);
    }
  }

  // ----- a handoff can always be finished --------------------------------

  /** From any state of any run, an Entity on the way arrives by one Arrive and is settled by one
      HandoffAck, both of them deliverable. */
  lemma HandoffCompletes(r: Run, n: nat, z: ZoneId, id: EntityId)
    requires Valid(r) && n < |r.states| && z in r.states[n].zones && id in r.states[n].zones[z].transit
    requires Undecided(r.states[n], id, r.states[n].zones[z].transit[id]) && id.name != ""
    ensures var s := r.states[n];
            var rec := s.zones[z].transit[id];
            var arrive := Record(rec.to, ArriveFor(z, id, rec), 1, None);
            var ack := Record(z, HandoffAck(id, rec.body.seq_), 1, None);
            && rec.to in s.zones && Enabled(s, arrive)
            && Copies(Next(s, arrive), id) == {P.InZone(rec.to)}
            && Enabled(Next(s, arrive), ack)
            && var done := Next(Next(s, arrive), ack);
               Copies(done, id) == {P.InZone(rec.to)} && id !in done.zones[z].transit
  {
    var s := r.states[n];
    var rec := s.zones[z].transit[id];
    RunCarries(r, n);
    RunRouted(r, n);
    RunInv(r, n, id);
    var h := Journey(r, n, id);
    var arrive := Record(rec.to, ArriveFor(z, id, rec), 1, None);
    var ack := Record(z, HandoffAck(id, rec.body.seq_), 1, None);
    RecordAnnounced(s, z, id);
    hide P.Inv; hide ViewOf; hide Apply; hide Copies; hide ArriveFor; hide StepFor; hide Good; hide Valid; hide Carried;
    FirstLeg(s, z, id, rec, h);
    var s1 := Next(s, arrive);
    assert Steps(s, arrive, s1);
    StepInv(s, arrive, s1, id, h);
    hide Next;
    SecondLeg(s1, z, id, rec, P.Itinerary(h, StepFor(s, arrive, id)));
  }

  lemma RecordAnnounced(s: State, z: ZoneId, id: EntityId)
    requires Carried(s) && z in s.zones && id in s.zones[z].transit
    ensures Logged(s.zones[z].transit[id].to, ArriveFor(z, id, s.zones[z].transit[id])) in s.sent
  {
    assert Announced(s.sent, z, s.zones[z]);
  }

  lemma FirstLeg(s: State, z: ZoneId, id: EntityId, rec: Transit, h: seq<ZoneId>)
    requires Good(s) && P.Inv(ViewOf(s, id), h) && z in s.zones && id in s.zones[z].transit
    requires rec == s.zones[z].transit[id]
    requires Undecided(s, id, rec) && rec.to in s.zones && id.name != ""
    requires Logged(rec.to, ArriveFor(z, id, rec)) in s.sent
    ensures var e := Record(rec.to, ArriveFor(z, id, rec), 1, None);
            var s1 := Next(s, e);
            && StepFor(s, e, id) == P.Place(P.Arrival(z, rec.to, rec.body.seq_))
            && id in s1.zones[rec.to].entities && Copies(s1, id) == {P.InZone(rec.to)}
            && z in s1.zones && id in s1.zones[z].transit && s1.zones[z].transit[id] == rec
            && Logged(z, HandoffAck(id, rec.body.seq_)) in s1.sent
  {
    var c := ArriveFor(z, id, rec);
    var e := Record(rec.to, c, 1, None);
    var s1 := Next(s, e);
    FirstLegIsNew(s, z, id, rec, h);
    FirstLegEffect(s, z, id, rec);
    hide Next; hide Apply; hide P.Inv; hide ViewOf;
    assert Steps(s, e, s1);
    StepInv(s, e, s1, id, h);
    OneBodyOneCopy(s1, rec.to, id, P.Itinerary(h, StepFor(s, e, id)));
  }

  lemma FirstLegIsNew(s: State, z: ZoneId, id: EntityId, rec: Transit, h: seq<ZoneId>)
    requires Good(s) && P.Inv(ViewOf(s, id), h) && z in s.zones && id in s.zones[z].transit
    requires rec == s.zones[z].transit[id]
    requires Undecided(s, id, rec) && rec.to in s.zones && id.name != ""
    requires Logged(rec.to, ArriveFor(z, id, rec)) in s.sent
    ensures Decide(s.zones[rec.to], ArriveFor(z, id, rec)).New? && z != rec.to
  {
    hide P.Inv;
    var c, v := ArriveFor(z, id, rec), ViewOf(s, id);
    NeverPresent(s, rec.to, c, h);
    assert P.Arrival(z, rec.to, rec.body.seq_) in v.arrives by { assert Logged(rec.to, c) in s.sent; }
    assert P.MarkAt(v, rec.to) == MarkOf(s.zones[rec.to], id);
    P.UndecidedHasItsRecord(v, h, P.Arrival(z, rec.to, rec.body.seq_));
  }

  lemma FirstLegEffect(s: State, z: ZoneId, id: EntityId, rec: Transit)
    requires Good(s) && z in s.zones && id in s.zones[z].transit && rec == s.zones[z].transit[id]
    requires rec.to in s.zones && z != rec.to && Logged(rec.to, ArriveFor(z, id, rec)) in s.sent
    requires Decide(s.zones[rec.to], ArriveFor(z, id, rec)).New?
    ensures var e := Record(rec.to, ArriveFor(z, id, rec), 1, None);
            var s1 := Next(s, e);
            && StepFor(s, e, id) == P.Place(P.Arrival(z, rec.to, rec.body.seq_))
            && rec.to in s1.zones && id in s1.zones[rec.to].entities
            && z in s1.zones && id in s1.zones[z].transit && s1.zones[z].transit[id] == rec
            && Logged(z, HandoffAck(id, rec.body.seq_)) in s1.sent
  {
    assert z != NO_ZONE;
  }

  /** A body in a Zone is the Entity's one live copy. */
  lemma OneBodyOneCopy(s: State, z: ZoneId, id: EntityId, h: seq<ZoneId>)
    requires P.Inv(ViewOf(s, id), h) && z in s.zones && id in s.zones[z].entities
    ensures Copies(s, id) == {P.InZone(z)}
  {
    hide P.Inv;
    CopiesAre(s, id);
    P.LiveIs(ViewOf(s, id), h);
    assert P.InZone(z) in Copies(s, id);
  }

  lemma SecondLeg(s: State, z: ZoneId, id: EntityId, rec: Transit, h: seq<ZoneId>)
    requires Good(s) && P.Inv(ViewOf(s, id), h) && Copies(s, id) == {P.InZone(rec.to)}
    requires z in s.zones && id in s.zones[z].transit && s.zones[z].transit[id] == rec
    requires Logged(z, HandoffAck(id, rec.body.seq_)) in s.sent
    ensures var s' := Next(s, Record(z, HandoffAck(id, rec.body.seq_), 1, None));
            Copies(s', id) == {P.InZone(rec.to)} && id !in s'.zones[z].transit
  {
    hide P.Inv; hide ViewOf;
    var s' := Next(s, Record(z, HandoffAck(id, rec.body.seq_), 1, None));
    assert P.OnTheWay(z) !in Copies(s, id);
    SameCopies(s, s', z, id);
  }

  lemma SameCopies(s: State, s': State, z: ZoneId, id: EntityId)
    requires z in s.zones && id in s.zones[z].transit && P.OnTheWay(z) !in Copies(s, id)
    requires s' == s.(zones := s.zones[z := s.zones[z].(transit := s.zones[z].transit - {id})])
    ensures Copies(s', id) == Copies(s, id)
  {
    forall o | o in s.zones
      ensures s'.zones[o].entities == s.zones[o].entities && s'.zones[o].placed == s.zones[o].placed
      ensures o != z ==> s'.zones[o].transit == s.zones[o].transit
    {
    }
    assert s'.zones.Keys == s.zones.Keys;
    assert forall c :: c in Copies(s', id) <==> c in Copies(s, id);
  }
}
