/** Every run of the simulation, and what no run can do to an Entity crossing Zones.

    A run applies records in any order and any number of times: a produced Arrive or HandoffAck
    stays available for good, so lost, late, repeated and reordered deliveries are all runs. Each
    Entity's part of a run is a run of `HandoffProtocol`. */
module Handoff {
  import opened Options
  import opened Sim
  import P = HandoffProtocol

  datatype State = State(world: World, zones: Zones, sent: set<Logged>)

  datatype Event =
    | Record(zone: ZoneId, command: Command, tick: nat, template: Option<Template>)
    | Expire(zone: ZoneId, at: nat)
    | Swap(world: World)
    | Retry(zone: ZoneId, id: EntityId)

  ghost predicate Init(s: State) {
    ValidWorld(s.world) && s.zones == (map z | z in s.world :: EMPTY_ZONE) && s.sent == {}
  }

  ghost predicate Enabled(s: State, e: Event) {
    match e
    case Record(z, c, tick, _) => tick >= 1 && (TickProduced(c) ==> Logged(z, c) in s.sent)
    case Expire(_, _) => true
    case Swap(w) => SwapAccepted(s.world, w) && ValidWorld(w)
    case Retry(z, id) => z in s.zones && id in s.zones[z].transit
  }

  function Next(s: State, e: Event): State
    requires Enabled(s, e)
  {
    match e
    case Record(z, c, tick, template) =>
      // A record for a Zone the World does not have is consumed and rejected.
      if z !in s.zones then s
      else
        var eff := Apply(s.world, s.zones, z, c, tick, template);
        s.(zones := s.zones[z := eff.zone], sent := s.sent + eff.outbound)
    case Expire(z, tick) =>
      if z !in s.zones then s else s.(zones := s.zones[z := ExpireZone(s.zones[z], tick)])
    case Swap(w) =>
      s.(world := w,
         zones := map z | z in s.zones.Keys + w.Keys ::
                    if z in s.zones then (if z in w then SwapZone(s.zones[z], w[z]) else s.zones[z]) else EMPTY_ZONE)
    case Retry(z, id) =>
      var rec := s.zones[z].transit[id];
      s.(sent := s.sent + {Logged(rec.to, ArriveFor(z, id, rec))})
  }

  // ----- one Entity's view -----------------------------------------------

  function HopOf(t: Transit): P.Hop { P.Hop(t.body.seq_, t.to) }

  function Arrivals(sent: set<Logged>, id: EntityId): set<P.Arrival> {
    set l | l in sent && l.command.Arrive? && l.command.entity.id == id
      :: P.Arrival(l.command.origin.zone, l.zone, l.command.hseq)
  }

  function Acks(sent: set<Logged>, id: EntityId): set<P.Acked> {
    set l | l in sent && l.command.HandoffAck? && l.command.id == id :: P.Acked(l.zone, l.command.ackSeq)
  }

  function Bodies(zones: Zones, id: EntityId): map<ZoneId, nat> {
    map z | z in zones && id in zones[z].entities :: zones[z].entities[id].seq_
  }

  function Hops(zones: Zones, id: EntityId): map<ZoneId, P.Hop> {
    map z | z in zones && id in zones[z].transit :: HopOf(zones[z].transit[id])
  }

  function Marks(zones: Zones, id: EntityId): map<ZoneId, nat> {
    map z | z in zones && id in zones[z].placed :: zones[z].placed[id].seq_
  }

  function ViewOf(s: State, id: EntityId): P.View {
    P.View(Bodies(s.zones, id), Hops(s.zones, id), Marks(s.zones, id), Arrivals(s.sent, id), Acks(s.sent, id))
  }

  /** Well-formedness every step keeps: the World covers the state's Zones, no mark records a
      rejection, and every Arrive is well-formed and names a Zone to acknowledge to. */
  ghost predicate Good(s: State) {
    && ValidWorld(s.world)
    && s.zones.Keys <= s.world.Keys
    && (forall z, id | z in s.zones && id in s.zones[z].placed :: !s.zones[z].placed[id].rejected)
    && (forall l | l in s.sent && l.command.Arrive? ::
          l.command.hseq == l.command.entity.seq_ && l.command.origin.zone != NO_ZONE)
  }

  /** The protocol step an event is for an Entity. */
  ghost function StepFor(s: State, e: Event, id: EntityId): P.Step
    requires Enabled(s, e)
  {
    match e
    case Record(z, c, tick, template) =>
      if z !in s.zones then P.Stutter
      else RecordStep(z, s.zones[z], c, Apply(s.world, s.zones, z, c, tick, template), id)
    case Retry(z, i) => if i == id then P.Resend(z) else P.Stutter
    case _ => P.Stutter
  }

  function Subject(c: Command): EntityId {
    match c
    case Look(actor) => actor
    case Move(actor, _) => actor
    case Goto(actor, _) => actor
    case Arrive(w, _, _, _, _) => w.id
    case HandoffAck(id, _) => id
    case Bind(id, _, _) => id
    case Unbind(id) => id
    case MarkLinkdead(id, _, _, _) => id
    case Purge(id) => id
  }

  function RecordStep(z: ZoneId, old_: Zone, c: Command, eff: Effect, id: EntityId): P.Step {
    if id != Subject(c) then P.Stutter
    else if c.Arrive? then
      var m := P.Arrival(c.origin.zone, z, c.hseq);
      match Decide(old_, c)
      case New(_) => P.Place(m)
      case Retry => P.ReAck(m)
      case Stale => P.ReAck(m)
      case _ => P.Stutter
    else if c.HandoffAck? then
      if id in old_.transit && id !in eff.zone.transit then P.Drop(P.Acked(z, c.ackSeq)) else P.Stutter
    else if c.Bind? then
      if id !in old_.entities && id in eff.zone.entities then P.Spawn(z) else P.Stutter
    else if c.Purge? then
      if id in old_.entities && id !in eff.zone.entities then P.Purge(z) else P.Stutter
    else if id !in old_.transit && id in eff.zone.transit then P.Depart(z, eff.zone.transit[id].to)
    else P.Stutter
  }

  // ----- one Zone's part of the view -------------------------------------

  datatype Entry = Entry(body: Option<nat>, hop: Option<P.Hop>, mark: Option<nat>)

  function EntryOf(z: Zone, id: EntityId): Entry {
    Entry(if id in z.entities then Some(z.entities[id].seq_) else None,
          if id in z.transit then Some(HopOf(z.transit[id])) else None,
          if id in z.placed then Some(z.placed[id].seq_) else None)
  }

  datatype Change = Change(entry: Entry, arrives: set<P.Arrival>, acks: set<P.Acked>)

  function ChangeOf(eff: Effect, id: EntityId): Change {
    Change(EntryOf(eff.zone, id), Arrivals(eff.outbound, id), Acks(eff.outbound, id))
  }

  /** A step as its own Zone sees it. */
  predicate LocalStep(z: ZoneId, en: Entry, st: P.Step, ch: Change) {
    var mark := if en.mark.Some? then en.mark.value else 0;
    match st
    case Stutter => ch == Change(en, {}, {})
    case Spawn(zz) => zz == z && en == Entry(None, None, None) && ch == Change(Entry(Some(0), None, None), {}, {})
    case Depart(zz, to) =>
      && zz == z && to != z && en.body.Some? && en.hop.None?
      && var n := en.body.value + 1;
         ch == Change(Entry(None, Some(P.Hop(n, to)), en.mark), {P.Arrival(z, to, n)}, {})
    case Resend(zz) => false
    case ReAck(m) => m.to == z && m.seq_ <= mark && ch == Change(en, {}, {P.Acked(m.origin, m.seq_)})
    case Place(m) =>
      && m.to == z && m.seq_ > mark && en.body.None? && (en.hop.Some? ==> en.hop.value.seq_ < m.seq_)
      && ch == Change(Entry(Some(m.seq_), None, Some(m.seq_)), {}, {P.Acked(m.origin, m.seq_)})
    case Drop(a) =>
      a.origin == z && en.hop.Some? && en.hop.value.seq_ == a.seq_ && ch == Change(en.(hop := None), {}, {})
    case Purge(zz) => zz == z && en.body.Some? && ch == Change(en.(body := None), {}, {})
  }

  lemma BodiesAfter(zones: Zones, z: ZoneId, new_: Zone, id: EntityId)
    ensures Bodies(zones[z := new_], id) ==
            if id in new_.entities then Bodies(zones, id)[z := new_.entities[id].seq_] else Bodies(zones, id) - {z}
  {
  }

  lemma HopsAfter(zones: Zones, z: ZoneId, new_: Zone, id: EntityId)
    ensures Hops(zones[z := new_], id) ==
            if id in new_.transit then Hops(zones, id)[z := HopOf(new_.transit[id])] else Hops(zones, id) - {z}
  {
  }

  lemma MarksAfter(zones: Zones, z: ZoneId, new_: Zone, id: EntityId)
    ensures Marks(zones[z := new_], id) ==
            if id in new_.placed then Marks(zones, id)[z := new_.placed[id].seq_] else Marks(zones, id) - {z}
  {
  }

  function Put<T>(m: map<ZoneId, T>, z: ZoneId, v: Option<T>): map<ZoneId, T> {
    if v.Some? then m[z := v.value] else m - {z}
  }

  function PutView(v: P.View, z: ZoneId, ch: Change): P.View {
    P.View(Put(v.bodies, z, ch.entry.body), Put(v.hops, z, ch.entry.hop), Put(v.marks, z, ch.entry.mark),
           v.arrives + ch.arrives, v.acks + ch.acks)
  }

  predicate At(v: P.View, z: ZoneId, en: Entry) {
    && en.body == (if z in v.bodies then Some(v.bodies[z]) else None)
    && en.hop == (if z in v.hops then Some(v.hops[z]) else None)
    && en.mark == (if z in v.marks then Some(v.marks[z]) else None)
  }

  lemma PutIsStep(v: P.View, z: ZoneId, en: Entry, st: P.Step, ch: Change)
    requires At(v, z, en) && LocalStep(z, en, st, ch)
    requires st.ReAck? || st.Place? ==> st.m in v.arrives
    requires st.Drop? ==> st.a in v.acks
    requires st.Spawn? ==> v.bodies == map[] && v.hops == map[] && v.marks == map[]
    ensures P.Enabled(v, st) && PutView(v, z, ch) == P.Next(v, st)
  {
    PutBack(v.bodies, z, en.body);
    PutBack(v.hops, z, en.hop);
    PutBack(v.marks, z, en.mark);
  }

  lemma PutBack<T>(m: map<ZoneId, T>, z: ZoneId, v: Option<T>)
    requires v == if z in m then Some(m[z]) else None
    ensures Put(m, z, v) == m
  {
  }

  /** A record changes one Zone and adds messages: the view changes at that Zone alone. */
  lemma ViewAfter(s: State, s': State, z: ZoneId, eff: Effect, id: EntityId)
    requires z in s.zones && s' == s.(zones := s.zones[z := eff.zone], sent := s.sent + eff.outbound)
    ensures At(ViewOf(s, id), z, EntryOf(s.zones[z], id))
    ensures ViewOf(s', id) == PutView(ViewOf(s, id), z, ChangeOf(eff, id))
  {
    BodiesAfter(s.zones, z, eff.zone, id);
    HopsAfter(s.zones, z, eff.zone, id);
    MarksAfter(s.zones, z, eff.zone, id);
    assert Arrivals(s.sent + eff.outbound, id) == Arrivals(s.sent, id) + Arrivals(eff.outbound, id);
    assert Acks(s.sent + eff.outbound, id) == Acks(s.sent, id) + Acks(eff.outbound, id);
  }

  // ----- each handler, at its own Zone -----------------------------------

  lemma AckChange(a: Command, id: EntityId)
    requires a.Arrive? && a.origin.zone != NO_ZONE
    ensures Arrivals(Ack(a), id) == {}
    ensures Acks(Ack(a), id) == if id == a.entity.id then {P.Acked(a.origin.zone, a.hseq)} else {}
  {
    assert Logged(a.origin.zone, HandoffAck(a.entity.id, a.hseq)) in Ack(a);
  }

  lemma ArriveLocal(w: World, z: ZoneId, zone: Zone, c: Command, id: EntityId)
    requires c.Arrive? && c.origin.zone != NO_ZONE && z in w
    requires id in zone.placed ==> !zone.placed[id].rejected
    ensures var eff := ApplyArrive(w, z, zone, c);
            LocalStep(z, EntryOf(zone, id), RecordStep(z, zone, c, eff, id), ChangeOf(eff, id))
  {
    hide ApplyArrive; hide RecordStep; hide LocalStep; hide ChangeOf; hide EntryOf;
    if id != c.entity.id {
      ElsewhereLocal(w, z, zone, c, id);
    } else if Decide(zone, c).New? {
      NewLocal(w, z, zone, c);
    } else {
      KnownLocal(w, z, zone, c);
    }
  }

  lemma ElsewhereLocal(w: World, z: ZoneId, zone: Zone, c: Command, id: EntityId)
    requires c.Arrive? && c.origin.zone != NO_ZONE && id != c.entity.id
    ensures var eff := ApplyArrive(w, z, zone, c);
            LocalStep(z, EntryOf(zone, id), RecordStep(z, zone, c, eff, id), ChangeOf(eff, id))
  {
    AckChange(c, id);
    NothingSent(id);
    hide Arrivals; hide Acks; hide Ack; hide ApplyArrive; hide Decide;
    ArriveElsewhere(w, z, zone, c, id);
    ArriveSends(w, z, zone, c);
  }

  lemma NewLocal(w: World, z: ZoneId, zone: Zone, c: Command)
    requires c.Arrive? && c.origin.zone != NO_ZONE && z in w && Decide(zone, c).New?
    ensures var eff, id := ApplyArrive(w, z, zone, c), c.entity.id;
            LocalStep(z, EntryOf(zone, id), RecordStep(z, zone, c, eff, id), ChangeOf(eff, id))
  {
    AckChange(c, c.entity.id);
    hide Arrivals; hide Acks; hide Ack; hide ApplyArrive; hide Decide;
    ArrivePlaces(w, z, zone, c);
  }

  lemma KnownLocal(w: World, z: ZoneId, zone: Zone, c: Command)
    requires c.Arrive? && c.origin.zone != NO_ZONE && !Decide(zone, c).New?
    requires c.entity.id in zone.placed ==> !zone.placed[c.entity.id].rejected
    ensures var eff, id := ApplyArrive(w, z, zone, c), c.entity.id;
            LocalStep(z, EntryOf(zone, id), RecordStep(z, zone, c, eff, id), ChangeOf(eff, id))
  {
    AckChange(c, c.entity.id);
    NothingSent(c.entity.id);
    hide Arrivals; hide Acks; hide Ack;
  }

  lemma ArriveSends(w: World, z: ZoneId, zone: Zone, c: Command)
    requires c.Arrive?
    ensures ApplyArrive(w, z, zone, c).outbound == {} || ApplyArrive(w, z, zone, c).outbound == Ack(c)
  {
    hide Decide; hide Ack;
  }

  lemma ArrivePlaces(w: World, z: ZoneId, zone: Zone, c: Command)
    requires c.Arrive? && z in w && Decide(zone, c).New?
    ensures var eff, id := ApplyArrive(w, z, zone, c), c.entity.id;
            && eff.outbound == Ack(c) && EntryOf(eff.zone, id) == Entry(Some(c.hseq), None, Some(c.hseq))
            && id !in zone.entities && c.hseq > MarkOf(zone, id)
            && (id in zone.transit ==> zone.transit[id].body.seq_ < c.hseq)
  {
    hide Ack;
  }

  lemma NothingSent(id: EntityId)
    ensures Arrivals({}, id) == {} && Acks({}, id) == {}
  {
  }

  /** An Arrive changes nothing of another Entity. */
  lemma ArriveElsewhere(w: World, z: ZoneId, zone: Zone, c: Command, id: EntityId)
    requires c.Arrive? && id != c.entity.id
    ensures EntryOf(ApplyArrive(w, z, zone, c).zone, id) == EntryOf(zone, id)
  {
  }

  lemma DepartLocal(z: ZoneId, zone: Zone, actor: EntityId, to: RoomRef, dir: Direction, id: EntityId)
    requires actor in zone.entities && actor !in zone.transit && to.zone != z
    ensures var eff := Depart(z, zone, actor, to, dir);
            LocalStep(z, EntryOf(zone, id), if id == actor then P.Depart(z, to.zone) else P.Stutter, ChangeOf(eff, id))
  {
    var eff := Depart(z, zone, actor, to, dir);
    var rec := eff.zone.transit[actor];
    assert Logged(to.zone, ArriveFor(z, actor, rec)) in eff.outbound;
    assert Acks(eff.outbound, id) == {};
    assert Arrivals(eff.outbound, id) == if id == actor then {P.Arrival(z, to.zone, rec.body.seq_)} else {};
  }

  lemma MoveLocal(w: World, z: ZoneId, zone: Zone, c: Command, id: EntityId)
    requires ValidWorld(w) && c.Move?
    ensures var eff := ApplyMove(w, z, zone, c.actor, c.dir);
            LocalStep(z, EntryOf(zone, id), RecordStep(z, zone, c, eff, id), ChangeOf(eff, id))
  {
    if Locate(w, z, zone, c.actor) == Accepted && !zone.entities[c.actor].IsLinkdead() {
      var exit := FindExit(w[z].rooms[zone.entities[c.actor].room].exits, c.dir);
      if exit.Some? && exit.value.crossZone {
        DepartLocal(z, zone, c.actor, exit.value.to, c.dir, id);
      }
    }
  }

  lemma GotoLocal(w: World, z: ZoneId, zone: Zone, c: Command, id: EntityId)
    requires c.Goto?
    ensures var eff := ApplyGoto(w, z, zone, c.actor, c.target);
            LocalStep(z, EntryOf(zone, id), RecordStep(z, zone, c, eff, id), ChangeOf(eff, id))
  {
    if Locate(w, z, zone, c.actor) == Accepted && c.target.zone != z {
      DepartLocal(z, zone, c.actor, c.target, "", id);
    }
  }

  lemma BindLocal(w: World, zones: Zones, z: ZoneId, c: Command, template: Option<Template>, id: EntityId)
    requires z in zones && c.Bind?
    ensures var eff := ApplyBind(w, zones, z, template, c.id, c.name, c.spawnRoom);
            var st := RecordStep(z, zones[z], c, eff, id);
            && LocalStep(z, EntryOf(zones[z], id), st, ChangeOf(eff, id))
            && (st.Spawn? ==> Bodies(zones, id) == map[] && Hops(zones, id) == map[] && Marks(zones, id) == map[])
  {
    var eff := ApplyBind(w, zones, z, template, c.id, c.name, c.spawnRoom);
    assert Arrivals(eff.outbound, id) == {} && Acks(eff.outbound, id) == {};
  }

  lemma PurgeLocal(zones: Zones, z: ZoneId, c: Command, id: EntityId)
    requires z in zones && c.Purge?
    ensures var eff := ApplyPurge(zones, z, c.id);
            LocalStep(z, EntryOf(zones[z], id), RecordStep(z, zones[z], c, eff, id), ChangeOf(eff, id))
  {
    var eff := ApplyPurge(zones, z, c.id);
    assert Arrivals(eff.outbound, id) == {} && Acks(eff.outbound, id) == {};
  }

  lemma OtherLocal(w: World, zones: Zones, z: ZoneId, c: Command, tick: nat, template: Option<Template>, id: EntityId)
    requires z in zones && (c.HandoffAck? || c.Unbind? || c.MarkLinkdead? || c.Look?)
    ensures var eff := Apply(w, zones, z, c, tick, template);
            LocalStep(z, EntryOf(zones[z], id), RecordStep(z, zones[z], c, eff, id), ChangeOf(eff, id))
  {
  }

  lemma RecordLocal(s: State, e: Event, id: EntityId)
    requires Good(s) && Enabled(s, e) && e.Record? && e.zone in s.zones
    ensures var eff := Apply(s.world, s.zones, e.zone, e.command, e.tick, e.template);
            var st := StepFor(s, e, id);
            && LocalStep(e.zone, EntryOf(s.zones[e.zone], id), st, ChangeOf(eff, id))
            && (st.Spawn? ==> Bodies(s.zones, id) == map[] && Hops(s.zones, id) == map[] && Marks(s.zones, id) == map[])
  {
    match e.command {
      case Arrive(_, _, _, _, _) => ArriveLocal(s.world, e.zone, s.zones[e.zone], e.command, id);
      case Move(_, _) => MoveLocal(s.world, e.zone, s.zones[e.zone], e.command, id);
      case Goto(_, _) => GotoLocal(s.world, e.zone, s.zones[e.zone], e.command, id);
      case Bind(_, _, _) => BindLocal(s.world, s.zones, e.zone, e.command, e.template, id);
      case Purge(_) => PurgeLocal(s.zones, e.zone, e.command, id);
      case _ => OtherLocal(s.world, s.zones, e.zone, e.command, e.tick, e.template, id);
    }
  }

  lemma SameEntries(zones: Zones, zones': Zones, id: EntityId)
    requires zones.Keys <= zones'.Keys
    requires forall z | z in zones :: EntryOf(zones'[z], id) == EntryOf(zones[z], id)
    requires forall z | z in zones' && z !in zones :: EntryOf(zones'[z], id) == Entry(None, None, None)
    ensures Bodies(zones', id) == Bodies(zones, id) && Hops(zones', id) == Hops(zones, id)
    ensures Marks(zones', id) == Marks(zones, id)
  {
    EntriesInZones(zones, id);
    EntriesInZones(zones', id);
    hide Bodies; hide Hops; hide Marks; hide EntryOf;
    forall z | z in zones'
      ensures z in Bodies(zones', id) <==> z in Bodies(zones, id)
      ensures z in Bodies(zones, id) ==> Bodies(zones', id)[z] == Bodies(zones, id)[z]
      ensures z in Hops(zones', id) <==> z in Hops(zones, id)
      ensures z in Hops(zones, id) ==> Hops(zones', id)[z] == Hops(zones, id)[z]
      ensures z in Marks(zones', id) <==> z in Marks(zones, id)
      ensures z in Marks(zones, id) ==> Marks(zones', id)[z] == Marks(zones, id)[z]
    {
      SameEntry(zones, zones', id, z);
    }
    assert Bodies(zones', id) == Bodies(zones, id);
    assert Hops(zones', id) == Hops(zones, id);
  }

  lemma EntriesInZones(zones: Zones, id: EntityId)
    ensures Bodies(zones, id).Keys <= zones.Keys && Hops(zones, id).Keys <= zones.Keys
    ensures Marks(zones, id).Keys <= zones.Keys
  {
  }

  lemma SameEntry(zones: Zones, zones': Zones, id: EntityId, z: ZoneId)
    requires zones.Keys <= zones'.Keys && z in zones'
    requires z in zones ==> EntryOf(zones'[z], id) == EntryOf(zones[z], id)
    requires z !in zones ==> EntryOf(zones'[z], id) == Entry(None, None, None)
    ensures z in Bodies(zones', id) <==> z in Bodies(zones, id)
    ensures z in Hops(zones', id) <==> z in Hops(zones, id)
    ensures z in Marks(zones', id) <==> z in Marks(zones, id)
    ensures z in Bodies(zones, id) ==> Bodies(zones', id)[z] == Bodies(zones, id)[z]
    ensures z in Hops(zones, id) ==> Hops(zones', id)[z] == Hops(zones, id)[z]
    ensures z in Marks(zones, id) ==> Marks(zones', id)[z] == Marks(zones, id)[z]
  {
  }

  lemma QuietRefines(s: State, e: Event, id: EntityId)
    requires Enabled(s, e) && (e.Expire? || e.Swap?)
    ensures ViewOf(Next(s, e), id) == ViewOf(s, id)
  {
    var zones' := Next(s, e).zones;
    forall z | z in s.zones ensures EntryOf(zones'[z], id) == EntryOf(s.zones[z], id) {
    }
    SameEntries(s.zones, zones', id);
  }

  lemma RetryRefines(s: State, e: Event, id: EntityId)
    requires Enabled(s, e) && e.Retry?
    ensures var st := StepFor(s, e, id);
            P.Enabled(ViewOf(s, id), st) && ViewOf(Next(s, e), id) == P.Next(ViewOf(s, id), st)
  {
    var rec := s.zones[e.zone].transit[e.id];
    var l := Logged(rec.to, ArriveFor(e.zone, e.id, rec));
    assert Next(s, e).sent == s.sent + {l} && l in {l};
    assert Acks(Next(s, e).sent, id) == Acks(s.sent, id);
    assert Arrivals(Next(s, e).sent, id) == Arrivals(s.sent, id) + Arrivals({l}, id);
    assert Arrivals({l}, id) == if e.id == id then {P.Arrival(e.zone, rec.to, rec.body.seq_)} else {};
  }

  /** Every event is a protocol step of every Entity. */
  lemma Refines(s: State, e: Event, id: EntityId)
    requires Good(s) && Enabled(s, e)
    ensures var st := StepFor(s, e, id);
            P.Enabled(ViewOf(s, id), st) && ViewOf(Next(s, e), id) == P.Next(ViewOf(s, id), st)
  {
    if e.Expire? || e.Swap? {
      QuietRefines(s, e, id);
    } else if e.Retry? {
      RetryRefines(s, e, id);
    } else if e.zone in s.zones {
      RecordLocal(s, e, id);
      var st := StepFor(s, e, id);
      if st.ReAck? || st.Place? {
        assert Logged(e.zone, e.command) in s.sent;
        assert st.m in Arrivals(s.sent, id);
      } else if st.Drop? {
        assert Logged(e.zone, e.command) in s.sent;
        assert st.a in Acks(s.sent, id);
      }
      var eff := Apply(s.world, s.zones, e.zone, e.command, e.tick, e.template);
      ViewAfter(s, Next(s, e), e.zone, eff, id);
      PutIsStep(ViewOf(s, id), e.zone, EntryOf(s.zones[e.zone], id), st, ChangeOf(eff, id));
    }
  }

  lemma GoodStep(s: State, e: Event)
    requires Good(s) && Enabled(s, e)
    ensures Good(Next(s, e))
  {
    if e.Record? && e.zone in s.zones {
      GoodApply(s, e);
      hide Apply;
    }
  }

  /** What a Command's handler produces is well formed. */
  lemma GoodApply(s: State, e: Event)
    requires Good(s) && Enabled(s, e) && e.Record? && e.zone in s.zones
    ensures var eff := Apply(s.world, s.zones, e.zone, e.command, e.tick, e.template);
            && (forall l | l in eff.outbound && l.command.Arrive? ::
                  l.command.hseq == l.command.entity.seq_ && l.command.origin.zone == e.zone)
            && forall id | id in eff.zone.placed :: !eff.zone.placed[id].rejected
  {
    hide Reverse; hide FindExit; hide Resolves;
    assert forall id | id in s.zones[e.zone].placed :: !s.zones[e.zone].placed[id].rejected;
  }

  // ----- runs ------------------------------------------------------------

  datatype Run = Run(states: seq<State>, events: seq<Event>)

  ghost predicate Valid(r: Run) {
    && |r.states| == |r.events| + 1 && Init(r.states[0])
    && forall i | 0 <= i < |r.events| :: Steps(r.states[i], r.events[i], r.states[i + 1])
  }

  ghost predicate Steps(s: State, e: Event, s': State) { Enabled(s, e) && s' == Next(s, e) }

  /** The Zones of an Entity's life up to state n. */
  ghost function Journey(r: Run, n: nat, id: EntityId): seq<ZoneId>
    requires Valid(r) && n < |r.states|
  {
    if n == 0 then []
    else
      assert Steps(r.states[n - 1], r.events[n - 1], r.states[n]);
      P.Itinerary(Journey(r, n - 1, id), StepFor(r.states[n - 1], r.events[n - 1], id))
  }

  /** One step keeps what is known of an Entity's itinerary. */
  lemma StepInv(s: State, e: Event, s': State, id: EntityId, h: seq<ZoneId>)
    requires Steps(s, e, s') && Good(s) && P.Inv(ViewOf(s, id), h)
    ensures Good(s') && P.Inv(ViewOf(s', id), P.Itinerary(h, StepFor(s, e, id)))
  {
    hide Apply; hide StepFor;
    GoodStep(s, e);
    Refines(s, e, id);
    P.StepKeepsInv(ViewOf(s, id), h, StepFor(s, e, id));
  }

  lemma {:induction false} RunInv(r: Run, n: nat, id: EntityId)
    requires Valid(r) && n < |r.states|
    ensures Good(r.states[n]) && P.Inv(ViewOf(r.states[n], id), Journey(r, n, id))
  {
    hide Next; hide StepFor;
    if n == 0 {
      assert ViewOf(r.states[0], id) == P.NOWHERE;
    } else {
      RunInv(r, n - 1, id);
      assert Steps(r.states[n - 1], r.events[n - 1], r.states[n]);
      StepInv(r.states[n - 1], r.events[n - 1], r.states[n], id, Journey(r, n - 1, id));
    }
  }

  // ----- exactly once ----------------------------------------------------

  predicate Undecided(s: State, id: EntityId, rec: Transit) {
    rec.body.seq_ > if rec.to in s.zones then MarkOf(s.zones[rec.to], id) else 0
  }

  /** The live copies of an Entity: a body some Zone holds, or a transit record its target has not
      decided. */
  function Copies(s: State, id: EntityId): set<P.Copy> {
    (set z | z in s.zones && id in s.zones[z].entities :: P.InZone(z)) +
    (set z | z in s.zones && id in s.zones[z].transit && Undecided(s, id, s.zones[z].transit[id]) :: P.OnTheWay(z))
  }

  lemma CopiesAre(s: State, id: EntityId)
    ensures Copies(s, id) == P.Live(ViewOf(s, id))
  {
  }

  /** This event makes a body where there was none: a Bind that spawned. */
  ghost predicate Spawns(s: State, e: Event, id: EntityId)
    requires Enabled(s, e)
  {
    e.Record? && e.command.Bind? && e.command.id == id && e.zone in s.zones
    && id !in s.zones[e.zone].entities && id in Next(s, e).zones[e.zone].entities
  }

  /** This event removes a body for good: a Purge that found it. */
  ghost predicate Purges(s: State, e: Event, id: EntityId)
    requires Enabled(s, e)
  {
    e.Record? && e.command.Purge? && e.command.id == id && e.zone in s.zones
    && id in s.zones[e.zone].entities && id !in Next(s, e).zones[e.zone].entities
  }

  lemma SpawnOrPurge(s: State, e: Event, id: EntityId)
    requires Enabled(s, e)
    ensures StepFor(s, e, id).Spawn? <==> Spawns(s, e, id)
    ensures StepFor(s, e, id).Purge? <==> Purges(s, e, id)
  {
  }

  /** Spawns less purges, up to state n. */
  ghost function Balance(r: Run, n: nat, id: EntityId): int
    requires Valid(r) && n < |r.states|
  {
    if n == 0 then 0
    else
      var s, e := r.states[n - 1], r.events[n - 1];
      assert Steps(s, e, r.states[n]);
      Balance(r, n - 1, id) + if Spawns(s, e, id) then 1 else if Purges(s, e, id) then -1 else 0
  }

  lemma CopiesStep(s: State, e: Event, id: EntityId, h: seq<ZoneId>)
    requires Good(s) && Enabled(s, e) && P.Inv(ViewOf(s, id), h)
    ensures |Copies(Next(s, e), id)| ==
            |Copies(s, id)| + if Spawns(s, e, id) then 1 else if Purges(s, e, id) then -1 else 0
  {
    hide Next; hide StepFor; hide P.Inv; hide P.Enabled; hide P.Next;
    Refines(s, e, id);
    P.CopiesConserved(ViewOf(s, id), h, StepFor(s, e, id));
    SpawnOrPurge(s, e, id);
    CopiesAre(s, id);
    CopiesAre(Next(s, e), id);
  }

  lemma NoCopiesYet(r: Run, id: EntityId)
    requires Valid(r)
    ensures Copies(r.states[0], id) == {} && Balance(r, 0, id) == 0
  {
  }

  /** One event's share of the balance. */
  lemma CopiesAt(r: Run, n: nat, id: EntityId)
    requires Valid(r) && 0 < n < |r.states|
    ensures |Copies(r.states[n], id)| - |Copies(r.states[n - 1], id)| == Balance(r, n, id) - Balance(r, n - 1, id)
  {
    var s, e := r.states[n - 1], r.events[n - 1];
    assert Steps(s, e, r.states[n]);
    hide Next; hide StepFor; hide P.Inv; hide Copies; hide ViewOf; hide Spawns; hide Purges; hide Journey; hide Good;
    hide Enabled;
    RunInv(r, n - 1, id);
    CopiesStep(s, e, id, Journey(r, n - 1, id));
  }

  lemma AtMostOne(r: Run, n: nat, id: EntityId)
    requires Valid(r) && n < |r.states|
    ensures |Copies(r.states[n], id)| <= 1
  {
    hide *;
    RunInv(r, n, id);
    CopiesAre(r.states[n], id);
    P.AtMostOneCopy(ViewOf(r.states[n], id), Journey(r, n, id));
  }

  /** In every run, every Entity has exactly as many live copies as spawns less purges, and that is
      one or none: no crossing, however its messages are lost, repeated or delayed, loses or
      duplicates it. */
  lemma {:induction false} ExactlyOneCopy(r: Run, n: nat, id: EntityId)
    requires Valid(r) && n < |r.states|
    ensures |Copies(r.states[n], id)| == Balance(r, n, id)
    ensures 0 <= Balance(r, n, id) <= 1
  {
    hide *;
    AtMostOne(r, n, id);
    if n == 0 {
      NoCopiesYet(r, id);
    } else {
      ExactlyOneCopy(r, n - 1, id);
      CopiesAt(r, n, id);
    }
  }

  // ----- no handoff is placed twice --------------------------------------

  /** This event places handoff k of the Entity. */
  predicate Places(s: State, e: Event, id: EntityId, k: nat) {
    e.Record? && e.command.Arrive? && e.command.entity.id == id && e.command.hseq == k && e.zone in s.zones
    && Decide(s.zones[e.zone], e.command).New?
  }

  /** Some Zone has decided handoff k or a later one. */
  ghost predicate DecidedSomewhere(v: P.View, k: nat) { exists z :: z in v.marks && v.marks[z] >= k }

  lemma MarksOnlyGrow(v: P.View, st: P.Step, k: nat)
    requires P.Enabled(v, st) && DecidedSomewhere(v, k)
    ensures DecidedSomewhere(P.Next(v, st), k)
  {
    var z :| z in v.marks && v.marks[z] >= k;
    assert z in P.Next(v, st).marks && P.Next(v, st).marks[z] >= k;
  }

  lemma PlacingDecides(s: State, e: Event, id: EntityId, k: nat, h: seq<ZoneId>)
    requires Good(s) && Enabled(s, e) && P.Inv(ViewOf(s, id), h) && Places(s, e, id, k)
    ensures !DecidedSomewhere(ViewOf(s, id), k)
    ensures DecidedSomewhere(ViewOf(Next(s, e), id), k)
  {
    hide Next; hide P.Inv; hide ViewOf;
    Refines(s, e, id);
    var m := P.Arrival(e.command.origin.zone, e.zone, k);
    assert StepFor(s, e, id) == P.Place(m);
    P.PlacedOnlyOnce(ViewOf(s, id), h, m);
    assert e.zone in P.Next(ViewOf(s, id), P.Place(m)).marks;
  }

  lemma {:induction false} StaysDecided(r: Run, i: nat, j: nat, id: EntityId, k: nat)
    requires Valid(r) && i <= j < |r.states| && DecidedSomewhere(ViewOf(r.states[i], id), k)
    ensures DecidedSomewhere(ViewOf(r.states[j], id), k)
    decreases j
  {
    if i < j {
      StaysDecided(r, i, j - 1, id, k);
      RunInv(r, j - 1, id);
      assert Steps(r.states[j - 1], r.events[j - 1], r.states[j]);
      hide Next; hide P.Inv; hide ViewOf; hide StepFor; hide Good; hide P.Next; hide P.Enabled; hide DecidedSomewhere;
      hide Journey;
      Refines(r.states[j - 1], r.events[j - 1], id);
      MarksOnlyGrow(ViewOf(r.states[j - 1], id), StepFor(r.states[j - 1], r.events[j - 1], id), k);
    }
  }

  /** No run places the same handoff of an Entity twice, in any two Zones or the same one. */
  lemma NeverPlacedTwice(r: Run, i: nat, j: nat, id: EntityId, k: nat)
    requires Valid(r) && i < j < |r.events|
    requires Places(r.states[i], r.events[i], id, k)
    ensures !Places(r.states[j], r.events[j], id, k)
  {
    hide Next; hide P.Inv; hide ViewOf; hide Good; hide DecidedSomewhere; hide Places; hide Journey;
    RunInv(r, i, id);
    assert Steps(r.states[i], r.events[i], r.states[i + 1]);
    PlacingDecides(r.states[i], r.events[i], id, k, Journey(r, i, id));
    StaysDecided(r, i + 1, j, id, k);
    if Places(r.states[j], r.events[j], id, k) {
      RunInv(r, j, id);
      assert Steps(r.states[j], r.events[j], r.states[j + 1]);
      PlacingDecides(r.states[j], r.events[j], id, k, Journey(r, j, id));
    }
  }

  // ----- what a Zone may forget, and what it never refuses ---------------

  /** A transit record leaves its Zone, or is replaced there, only once its target has decided that
      very sequence. */
  lemma DroppedOnlyWhenDecided(r: Run, n: nat, z: ZoneId, id: EntityId)
    requires Valid(r) && n < |r.events| && z in r.states[n].zones && id in r.states[n].zones[z].transit
    requires var zones, zones' := r.states[n].zones, r.states[n + 1].zones;
             z in zones' && id in zones'[z].transit ==> HopOf(zones'[z].transit[id]) != HopOf(zones[z].transit[id])
    ensures !Undecided(r.states[n], id, r.states[n].zones[z].transit[id])
  {
    var s, e, s' := r.states[n], r.events[n], r.states[n + 1];
    RunInv(r, n, id);
    assert Steps(s, e, s');
    Refines(s, e, id);
    assert z in Hops(s.zones, id);
    assert z in Hops(s'.zones, id) ==> Hops(s'.zones, id)[z] == HopOf(s'.zones[z].transit[id]);
    P.DroppedOnlyWhenDecided(ViewOf(s, id), Journey(r, n, id), StepFor(s, e, id), z);
  }

  /** In a reachable state, an Arrive is a retry or stale, or finds no body and no record at or
      above its sequence. */
  lemma NeverPresent(s: State, z: ZoneId, c: Command, h: seq<ZoneId>)
    requires c.Arrive? && Logged(z, c) in s.sent && z in s.zones
    requires P.Inv(ViewOf(s, c.entity.id), h)
    ensures Decide(s.zones[z], c) != Refused
  {
    var id := c.entity.id;
    var v, m := ViewOf(s, id), P.Arrival(c.origin.zone, z, c.hseq);
    assert m in v.arrives;
    assert P.MarkAt(v, z) == MarkOf(s.zones[z], id);
    if m.seq_ > P.MarkAt(v, m.to) {
      P.AboveTheMarkIsLast(v, h, m);
      assert z !in Bodies(s.zones, id);
      assert id in s.zones[z].transit ==> z in Hops(s.zones, id);
    }
  }

  /** The entity_present refusal is unreachable: every Arrive a run can apply is acknowledged, new
      or not, unless it names no Entity. */
  lemma ArriveNeverRefused(r: Run, n: nat, e: Event)
    requires Valid(r) && n < |r.states| && Enabled(r.states[n], e)
    requires e.Record? && e.command.Arrive? && e.zone in r.states[n].zones
    ensures var s := r.states[n];
            var eff := ApplyArrive(s.world, e.zone, s.zones[e.zone], e.command);
            && eff.code != EntityPresent
            && (e.command.entity.id.name != "" && e.command.hseq > 0 ==>
                  eff.code == Accepted && eff.outbound == Ack(e.command) != {})
  {
    hide Next; hide P.Inv; hide ViewOf;
    RunInv(r, n, e.command.entity.id);
    NeverPresent(r.states[n], e.zone, e.command, Journey(r, n, e.command.entity.id));
  }
}
