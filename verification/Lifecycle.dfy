/** A Character's body between Sessions: what each lifecycle Command does, whole, and that a body left, lost or
    expired comes back as it was (server/sim: character.go, linkdead.go, purge.go, content.go). */
module Lifecycle {
  import opened Options
  import opened Sim

  /** One body is now `b` and nothing else of the Zone has changed. */
  ghost predicate OnlyBody(z: Zone, z': Zone, id: EntityId, b: Body) {
    && z'.entities.Keys == z.entities.Keys + {id} && z'.entities[id] == b
    && (forall o | o in z.entities && o != id :: z'.entities[o] == z.entities[o])
    && z'.transit == z.transit && z'.placed == z.placed
  }

  /** A body awake in a Room. */
  ghost predicate Standing(z: Zone, id: EntityId) {
    id in z.entities && z.entities[id].room != "" && !z.entities[id].dormant
  }

  ghost predicate Linkless(b: Body) {
    b.linkdead.since == 0 && b.linkdead.deadline == 0 && b.linkdead.ceiling == 0 && b.linkdead.extension == 0
  }

  /** As the other but asleep since a tick, with no link to lose. */
  ghost predicate Asleep(b: Body, was: Body, tick: nat) {
    && b.dormant && b.dormantSince == tick && Linkless(b)
    && b == was.(dormant := b.dormant, dormantSince := b.dormantSince, linkdead := b.linkdead)
  }

  /** Unbind: a body standing goes to sleep where it is, linkdead or not; one that is not is left. */
  lemma UnbindIs(z: Zone, id: EntityId, tick: nat)
    ensures var eff := ApplyUnbind(z, id, tick);
            && eff.outbound == {} && eff.code == (if id in z.transit then InTransit else Accepted)
            && (id in z.transit || !Standing(z, id) ==> eff.zone == z)
            && (id !in z.transit && Standing(z, id) ==>
                  exists b :: OnlyBody(z, eff.zone, id, b) && Asleep(b, z.entities[id], tick))
  {
    if id !in z.transit && Standing(z, id) {
      var z' := ApplyUnbind(z, id, tick).zone;
      assert OnlyBody(z, z', id, z'.entities[id]) && Asleep(z'.entities[id], z.entities[id], tick);
    }
  }

  /** MarkLinkdead: a body standing with its link has its deadline the grace away, or the longest a body may
      be linkdead if that is sooner. */
  lemma MarkIs(z: Zone, id: EntityId, tick: nat, grace: nat, extension: nat, max: nat)
    ensures var eff := ApplyMarkLinkdead(z, id, tick, grace, extension, max);
            var marks := id !in z.transit && Standing(z, id) && z.entities[id].linkdead.deadline == 0;
            && eff.outbound == {} && eff.code == (if id in z.transit then InTransit else Accepted)
            && (!marks ==> eff.zone == z)
            && (marks ==>
                  exists b ::
                    && OnlyBody(z, eff.zone, id, b) && b == z.entities[id].(linkdead := b.linkdead)
                    && b.linkdead.since == tick && b.linkdead.ceiling == tick + max
                    && b.linkdead.extension == extension
                    && b.linkdead.deadline <= tick + grace && b.linkdead.deadline <= tick + max
                    && (b.linkdead.deadline == tick + grace || b.linkdead.deadline == tick + max))
  {
    var z' := ApplyMarkLinkdead(z, id, tick, grace, extension, max).zone;
    if id !in z.transit && Standing(z, id) && z.entities[id].linkdead.deadline == 0 {
      assert OnlyBody(z, z', id, z'.entities[id]);
    }
  }

  /** Expiry: exactly the linkdead bodies whose deadline has come go to sleep. */
  lemma ExpireIs(z: Zone, tick: nat, id: EntityId)
    ensures var z' := ExpireZone(z, tick);
            && z'.entities.Keys == z.entities.Keys && z'.transit == z.transit && z'.placed == z.placed
            && (id in z.entities ==>
                  if 0 < z.entities[id].linkdead.deadline <= tick then Asleep(z'.entities[id], z.entities[id], tick)
                  else z'.entities[id] == z.entities[id])
  {
  }

  /** A content swap: exactly the bodies whose Room is gone are moved, to the Zone's fallback. */
  lemma SwapIs(z: Zone, def: ZoneDef, id: EntityId)
    ensures var z' := SwapZone(z, def);
            && z'.entities.Keys == z.entities.Keys && z'.transit == z.transit && z'.placed == z.placed
            && (id in z.entities ==>
                  var b, b' := z.entities[id], z'.entities[id];
                  && b' == b.(room := b'.room)
                  && b'.room == if b.room != "" && b.room !in def.rooms then def.fallback else b.room)
  {
  }

  /** Content swapped for the same content is accepted and moves no one. */
  lemma SwapSame(w: World, zid: ZoneId, z: Zone)
    requires ValidWorld(w) && zid in w && forall id | id in z.entities && z.entities[id].room != "" ::
               z.entities[id].room in w[zid].rooms
    ensures SwapAccepted(w, w) && SwapZone(z, w[zid]) == z
  {
    assert SwapZone(z, w[zid]).entities == z.entities;
  }

  /** The other Zones that hold the Entity's body. */
  ghost predicate Elsewhere(zones: Zones, zid: ZoneId, id: EntityId, o: ZoneId) {
    o in zones && o != zid && id in zones[o].entities
  }

  /** Bind, where the Zone holds the body: it is awake and linked, where it was, and named if it was not. */
  lemma BindHere(w: World, zones: Zones, zid: ZoneId, template: Option<Template>, id: EntityId, name: string,
                 spawnRoom: RoomId)
    requires zid in zones && id in zones[zid].entities
    ensures var z, eff := zones[zid], ApplyBind(w, zones, zid, template, id, name, spawnRoom);
            && eff.outbound == {} && eff.code == Accepted
            && exists b ::
                 && OnlyBody(z, eff.zone, id, b)
                 && b == z.entities[id].(name := b.name, dormant := b.dormant, dormantSince := b.dormantSince,
                                         linkdead := b.linkdead)
                 && b.name == (if z.entities[id].name == "" then name else z.entities[id].name)
                 && b.linkdead.deadline == 0 && (z.entities[id].linkdead.deadline > 0 ==> Linkless(b))
                 && (z.entities[id].linkdead.deadline == 0 ==> b.linkdead == z.entities[id].linkdead && !b.dormant)
                 && (z.entities[id].linkdead.deadline == 0 && z.entities[id].dormant ==> b.dormantSince == 0)
                 && (!z.entities[id].dormant || z.entities[id].linkdead.deadline > 0 ==>
                       b.dormant == z.entities[id].dormant && b.dormantSince == z.entities[id].dormantSince)
  {
    hide Resolves;
    var z, eff := zones[zid], ApplyBind(w, zones, zid, template, id, name, spawnRoom);
    assert OnlyBody(z, eff.zone, id, eff.zone.entities[id]);
  }

  /** Bind, where another Zone holds it: nothing changes here, and it is sent on to exactly the Zones where the
      body sleeps or is linkdead. */
  lemma BindElsewhere(w: World, zones: Zones, zid: ZoneId, template: Option<Template>, id: EntityId, name: string,
                      spawnRoom: RoomId)
    requires zid in zones && id !in zones[zid].entities && exists o :: Elsewhere(zones, zid, id, o)
    ensures var eff := ApplyBind(w, zones, zid, template, id, name, spawnRoom);
            && eff.zone == zones[zid] && eff.code == Accepted
            && forall l :: l in eff.outbound <==>
                 && l.command == Bind(id, name, "") && Elsewhere(zones, zid, id, l.zone)
                 && (zones[l.zone].entities[id].dormant || zones[l.zone].entities[id].linkdead.deadline > 0)
  {
    hide Resolves;
    var o :| Elsewhere(zones, zid, id, o);
    assert exists o :: o in zones && o != zid && id in zones[o].entities;
    var eff := ApplyBind(w, zones, zid, template, id, name, spawnRoom);
    forall l
      ensures l in eff.outbound <==>
              && l.command == Bind(id, name, "") && Elsewhere(zones, zid, id, l.zone)
              && (zones[l.zone].entities[id].dormant || zones[l.zone].entities[id].linkdead.deadline > 0)
    {
      if l.command == Bind(id, name, "") { assert l == Logged(l.zone, Bind(id, name, "")); }
    }
  }

  /** Bind of a body no Zone holds: refused while it is on the way or if its ID has been used, in that order;
      else a new body from the Template at the spawn Room, if there is such a Room and a Template. */
  lemma BindNew(w: World, zones: Zones, zid: ZoneId, template: Option<Template>, id: EntityId, name: string,
                spawnRoom: RoomId)
    requires zid in zones && forall o | o in zones :: id !in zones[o].entities
    ensures var eff := ApplyBind(w, zones, zid, template, id, name, spawnRoom);
            var moving := exists o :: o in zones && id in zones[o].transit;
            var used := exists o :: o in zones && id in zones[o].placed;
            var there := zid in w && spawnRoom in w[zid].rooms;
            && eff.outbound == {}
            && eff.code == (if moving then InTransit else if used then IdReused else if !there then UnknownRoom
                            else if template.None? then TemplateMissing else Accepted)
            && (eff.code != Accepted ==> eff.zone == zones[zid])
            && (eff.code == Accepted ==>
                  exists b ::
                    && OnlyBody(zones[zid], eff.zone, id, b) && b.template == "andara.core.Character"
                    && b.contentVersion == template.value.contentVersion && b.components == template.value.components
                    && b.name == name && b.room == spawnRoom && !b.dormant && b.dormantSince == 0 && Linkless(b)
                    && b.seq_ == 0)
  {
    var eff := ApplyBind(w, zones, zid, template, id, name, spawnRoom);
    if eff.code == Accepted { assert OnlyBody(zones[zid], eff.zone, id, eff.zone.entities[id]); }
  }

  /** Purge: a Character's body here is gone; one in another Zone has the Purge sent on to it; one on the way is
      refused; and where there is none nothing changes. A body that is no Character's is never touched. */
  lemma PurgeIs(zones: Zones, zid: ZoneId, id: EntityId)
    requires zid in zones
    ensures var z, eff := zones[zid], ApplyPurge(zones, zid, id);
            var here := Character(zones, zid, id);
            var other := exists o :: o != zid && Character(zones, o, id);
            var moving := exists o :: o in zones && id in zones[o].transit;
            && eff.code == (if !here && !other && moving then InTransit else Accepted)
            && (here ==> eff.zone == z.(entities := z.entities - {id}) && eff.outbound == {})
            && (!here ==> eff.zone == z)
            && (!here ==> forall l :: l in eff.outbound <==>
                            l.command == Purge(id) && l.zone != zid && Character(zones, l.zone, id))
  {
    var eff := ApplyPurge(zones, zid, id);
    if !Character(zones, zid, id) {
      if o :| o != zid && Character(zones, o, id) {
        assert o in zones && o != zid && id in zones[o].entities && zones[o].entities[id].IsCharacter();
      }
      if o :| o in zones && o != zid && id in zones[o].entities && zones[o].entities[id].IsCharacter() {
        assert Character(zones, o, id);
      }
      forall l ensures l in eff.outbound <==> l.command == Purge(id) && l.zone != zid && Character(zones, l.zone, id) {
        if l.command == Purge(id) { assert l == Logged(l.zone, Purge(id)); }
        if l.zone != zid && Character(zones, l.zone, id) {
          assert l.zone in zones && id in zones[l.zone].entities && zones[l.zone].entities[id].IsCharacter();
        }
      }
    }
  }

  ghost predicate Character(zones: Zones, o: ZoneId, id: EntityId) {
    o in zones && id in zones[o].entities && zones[o].entities[id].template == "andara.core.Character"
  }

  // ----- and back --------------------------------------------------------

  /** A named body, awake and linked, in a Room. */
  ghost predicate AtPlay(z: Zone, id: EntityId) {
    Standing(z, id) && z.entities[id].name != "" && z.entities[id].dormantSince == 0 && Linkless(z.entities[id])
  }

  function Rebind(w: World, zones: Zones, zid: ZoneId, z: Zone, id: EntityId, name: string, room: RoomId): Zone
  {
    ApplyBind(w, zones[zid := z], zid, None, id, name, room).zone
  }

  /** A Session's end and the next one's start leave the Zone as it was; so do a lost link and a reconnect, in
      time or after the grace has run out, for the body whose link it was. */
  lemma ComesBack(w: World, zones: Zones, zid: ZoneId, id: EntityId, name: string, room: RoomId, tick: nat,
                  later: nat, grace: nat, extension: nat, max: nat)
    requires zid in zones && AtPlay(zones[zid], id) && id !in zones[zid].transit && tick >= 1
    ensures var z := zones[zid];
            && Rebind(w, zones, zid, ApplyUnbind(z, id, tick).zone, id, name, room) == z
            && var lost := ApplyMarkLinkdead(z, id, tick, grace, extension, max).zone;
               && Rebind(w, zones, zid, lost, id, name, room) == z
               && Rebind(w, zones, zid, ApplyUnbind(lost, id, later).zone, id, name, room) == z
               && var expired := Rebind(w, zones, zid, ExpireZone(lost, later), id, name, room);
                  id in expired.entities && expired.entities[id] == z.entities[id]
  {
    hide Resolves;
    var z := zones[zid];
    var lost := ApplyMarkLinkdead(z, id, tick, grace, extension, max).zone;
    assert lost.entities[id].IsLinkdead();
    Restores(w, zones, zid, id, name, room, z, ApplyUnbind(z, id, tick).zone);
    Restores(w, zones, zid, id, name, room, z, lost);
    Restores(w, zones, zid, id, name, room, z, ApplyUnbind(lost, id, later).zone);
  }

  /** Bind undoes sleep and a lost link, whichever it finds. */
  lemma Restores(w: World, zones: Zones, zid: ZoneId, id: EntityId, name: string, room: RoomId, z: Zone, z': Zone)
    requires AtPlay(z, id) && id in z'.entities && OnlyBody(z, z', id, z'.entities[id])
    requires var b := z'.entities[id];
             && b == z.entities[id].(dormant := b.dormant, dormantSince := b.dormantSince, linkdead := b.linkdead)
             && (if b.IsLinkdead() then !b.dormant && b.dormantSince == 0 else b.dormant && Linkless(b))
    ensures Rebind(w, zones, zid, z', id, name, room) == z
  {
    hide Resolves;
    var back := Rebind(w, zones, zid, z', id, name, room);
    assert back.entities[id] == z.entities[id];
    assert back.entities == z.entities;
  }
}
