/** One Entity's handoffs, alone: which Zone holds its body, which Zones hold a transit record
    or a mark for it, and every Arrive and HandoffAck ever produced for it. Messages are never
    removed, so a run may apply one late, again, out of order, or never. */
module HandoffProtocol {

  import Sim

  type ZoneId = Sim.ZoneId

  datatype Hop = Hop(seq_: nat, to: ZoneId)
  datatype Arrival = Arrival(origin: ZoneId, to: ZoneId, seq_: nat)
  datatype Acked = Acked(origin: ZoneId, seq_: nat)

  datatype View = View(
    bodies: map<ZoneId, nat>,        // the sequence of the body each Zone holds
    hops: map<ZoneId, Hop>,          // transit records, by the Zone that holds them
    marks: map<ZoneId, nat>,         // decided high-water marks
    arrives: set<Arrival>,
    acks: set<Acked>)
  const NOWHERE := View(map[], map[], map[], {}, {})

  function MarkAt(v: View, z: ZoneId): nat { if z in v.marks then v.marks[z] else 0 }

  // ----- the steps -------------------------------------------------------

  datatype Step =
    | Stutter
    | Spawn(z: ZoneId)
    | Depart(z: ZoneId, to: ZoneId)
    | Resend(z: ZoneId)
    | ReAck(m: Arrival)
    | Place(m: Arrival)
    | Drop(a: Acked)
    | Purge(z: ZoneId)

  ghost predicate Enabled(v: View, s: Step) {
    match s
    case Stutter => true
    case Spawn(z) => v.bodies == map[] && v.hops == map[] && v.marks == map[]
    case Depart(z, to) => z in v.bodies && z !in v.hops && z != to
    case Resend(z) => z in v.hops
    case ReAck(m) => m in v.arrives && m.seq_ <= MarkAt(v, m.to)
    case Place(m) => m in v.arrives && m.seq_ > MarkAt(v, m.to) && m.to !in v.bodies
                     && (m.to in v.hops ==> v.hops[m.to].seq_ < m.seq_)
    case Drop(m) => m in v.acks && m.origin in v.hops && v.hops[m.origin].seq_ == m.seq_
    case Purge(z) => z in v.bodies
  }

  function Next(v: View, s: Step): View
    requires Enabled(v, s)
  {
    match s
    case Stutter => v
    case Spawn(z) => v.(bodies := v.bodies[z := 0])
    case Depart(z, to) =>
      var n := v.bodies[z] + 1;
      v.(bodies := v.bodies - {z}, hops := v.hops[z := Hop(n, to)], arrives := v.arrives + {Arrival(z, to, n)})
    case Resend(z) => v.(arrives := v.arrives + {Arrival(z, v.hops[z].to, v.hops[z].seq_)})
    case ReAck(m) => v.(acks := v.acks + {Acked(m.origin, m.seq_)})
    case Place(m) =>
      v.(bodies := v.bodies[m.to := m.seq_], hops := v.hops - {m.to}, marks := v.marks[m.to := m.seq_],
         acks := v.acks + {Acked(m.origin, m.seq_)})
    case Drop(m) => v.(hops := v.hops - {m.origin})
    case Purge(z) => v.(bodies := v.bodies - {z})
  }

  // ----- the invariant ---------------------------------------------------

  /** Sequence k of the itinerary has been decided by the Zone it leads to. */
  predicate Decided(v: View, h: seq<ZoneId>, k: nat)
    requires k < |h|
  {
    k <= MarkAt(v, h[k])
  }

  /** Every message and record agrees with the itinerary `h`: handoff k leads from h[k-1] to h[k]. */
  ghost predicate Chained(h: seq<ZoneId>) { forall i, j | 0 <= i < |h| - 1 && j == i + 1 :: h[i] != h[j] }

  predicate Leg(h: seq<ZoneId>, k: nat, from: ZoneId, to: ZoneId) { 1 <= k < |h| && h[k-1] == from && h[k] == to }

  ghost predicate ArrivesAgree(v: View, h: seq<ZoneId>) {
    forall m | m in v.arrives :: Leg(h, m.seq_, m.origin, m.to)
  }

  ghost predicate AcksAgree(v: View, h: seq<ZoneId>) {
    forall m | m in v.acks ::
      Leg(h, m.seq_, m.origin, if m.seq_ < |h| then h[m.seq_] else m.origin) && Decided(v, h, m.seq_)
  }

  ghost predicate HopsAgree(v: View, h: seq<ZoneId>) {
    forall z | z in v.hops :: Leg(h, v.hops[z].seq_, z, v.hops[z].to)
  }

  ghost predicate MarksAgree(v: View, h: seq<ZoneId>) {
    forall z | z in v.marks :: 1 <= v.marks[z] < |h| && h[v.marks[z]] == z
  }

  ghost predicate PastDecided(v: View, h: seq<ZoneId>) { forall k: nat | k < |h| - 1 :: Decided(v, h, k) }

  /** The body is in the itinerary's last Zone (or purged from it); or, the last handoff still
      undecided, nowhere but in the record it left by. */
  ghost predicate BodyAgrees(v: View, h: seq<ZoneId>)
    requires h != []
  {
    var n := |h| - 1;
    if Decided(v, h, n)
    then (n == 0 ==> v.bodies != map[])
         && (v.bodies != map[] ==> v.bodies == map[h[n] := n] && h[n] !in v.hops)
    else v.bodies == map[] && n >= 1 && h[n-1] in v.hops && v.hops[h[n-1]].seq_ == n
  }

  ghost predicate Inv(v: View, h: seq<ZoneId>) {
    if h == [] then v == NOWHERE
    else
      && Chained(h) && ArrivesAgree(v, h) && AcksAgree(v, h) && HopsAgree(v, h)
      && MarksAgree(v, h) && PastDecided(v, h) && BodyAgrees(v, h)
  }

  /** How the itinerary grows with a step; a life that ends before its first handoff leaves no trace. */
  function Itinerary(h: seq<ZoneId>, s: Step): seq<ZoneId> {
    match s
    case Spawn(z) => [z]
    case Depart(_, to) => h + [to]
    case Purge(_) => if |h| == 1 then [] else h
    case _ => h
  }

  lemma SpawnMeansFresh(v: View, h: seq<ZoneId>)
    requires Inv(v, h) && v.bodies == map[] && v.hops == map[] && v.marks == map[]
    ensures h == []
  {
  }

  lemma NothingMovedYet(v: View, h: seq<ZoneId>)
    requires Inv(v, h) && |h| == 1
    ensures v.hops == map[] && v.marks == map[] && v.arrives == {} && v.acks == {}
  {
  }

  /** An Arrive above its target's mark is the Entity's last handoff, still undecided. */
  lemma AboveTheMarkIsLast(v: View, h: seq<ZoneId>, m: Arrival)
    requires Inv(v, h) && m in v.arrives && m.seq_ > MarkAt(v, m.to)
    ensures h != [] && m.seq_ == |h| - 1 && m.to == h[m.seq_] && !Decided(v, h, m.seq_)
    ensures v.bodies == map[]
    ensures m.to in v.hops ==> v.hops[m.to].seq_ < m.seq_
  {
    assert Leg(h, m.seq_, m.origin, m.to);
    assert !Decided(v, h, m.seq_);
    assert m.to in v.hops ==> Leg(h, v.hops[m.to].seq_, m.to, v.hops[m.to].to);
  }

  /** Its record is still in the Zone it left. */
  lemma UndecidedHasItsRecord(v: View, h: seq<ZoneId>, m: Arrival)
    requires Inv(v, h) && m in v.arrives && m.seq_ > MarkAt(v, m.to)
    ensures m.origin in v.hops && v.hops[m.origin] == Hop(m.seq_, m.to) && m.origin != m.to
  {
    AboveTheMarkIsLast(v, h, m);
    assert Leg(h, m.seq_, m.origin, m.to);
  }

  lemma DepartMessages(v: View, h: seq<ZoneId>, z: ZoneId, to: ZoneId)
    requires h != [] && Inv(v, h) && Enabled(v, Depart(z, to)) && z == h[|h| - 1] && v.bodies[z] == |h| - 1
    ensures var h', v' := h + [to], Next(v, Depart(z, to));
            ArrivesAgree(v', h') && AcksAgree(v', h') && HopsAgree(v', h')
  {
    hide Chained; hide PastDecided; hide BodyAgrees; hide MarksAgree;
    var h', v' := h + [to], Next(v, Depart(z, to));
    assert forall k: nat | k < |h| :: Decided(v', h', k) == Decided(v, h, k);
    assert Leg(h', |h|, z, to);
    assert forall k: nat, f, t | Leg(h, k, f, t) :: Leg(h', k, f, t);
  }

  /** A body is at the end of its journey. */
  lemma BodyIsLast(v: View, h: seq<ZoneId>, z: ZoneId)
    requires Inv(v, h) && z in v.bodies
    ensures h != [] && z == h[|h| - 1] && Decided(v, h, |h| - 1) && v.bodies == map[z := |h| - 1] && z !in v.hops
  {
    hide ArrivesAgree; hide AcksAgree; hide HopsAgree; hide MarksAgree; hide PastDecided; hide Chained;
  }

  lemma DepartMarks(v: View, h: seq<ZoneId>, z: ZoneId, to: ZoneId)
    requires h != [] && Inv(v, h) && Enabled(v, Depart(z, to)) && z == h[|h| - 1] && Decided(v, h, |h| - 1)
    ensures var h', v' := h + [to], Next(v, Depart(z, to));
            Chained(h') && MarksAgree(v', h') && PastDecided(v', h') && MarkAt(v', to) < |h|
  {
    hide ArrivesAgree; hide AcksAgree; hide HopsAgree; hide BodyAgrees;
    var h', v' := h + [to], Next(v, Depart(z, to));
    assert forall k: nat | k < |h| :: Decided(v', h', k) == Decided(v, h, k);
  }

  lemma DepartKeepsInv(v: View, h: seq<ZoneId>, z: ZoneId, to: ZoneId)
    requires Inv(v, h) && Enabled(v, Depart(z, to))
    ensures Inv(Next(v, Depart(z, to)), h + [to])
  {
    BodyIsLast(v, h, z);
    DepartMessages(v, h, z, to);
    DepartMarks(v, h, z, to);
    hide ArrivesAgree; hide AcksAgree; hide HopsAgree; hide Leg; hide Chained; hide MarksAgree; hide PastDecided;
    var n, h', v' := |h| - 1, h + [to], Next(v, Depart(z, to));
    assert v'.bodies == map[] && v'.hops[z] == Hop(n + 1, to) && h'[n] == z && h'[n + 1] == to;
  }

  lemma PlaceMessages(v: View, h: seq<ZoneId>, m: Arrival)
    requires h != [] && Inv(v, h) && Enabled(v, Place(m)) && m.seq_ == |h| - 1 && m.to == h[m.seq_]
    ensures var v' := Next(v, Place(m));
            ArrivesAgree(v', h) && AcksAgree(v', h) && HopsAgree(v', h)
            && forall k: nat | k < |h| && Decided(v, h, k) :: Decided(v', h, k)
  {
    hide Chained; hide PastDecided; hide BodyAgrees; hide MarksAgree;
    var v' := Next(v, Place(m));
    assert Leg(h, m.seq_, m.origin, m.to);
    forall k: nat | k < |h| && Decided(v, h, k) ensures Decided(v', h, k) {
      assert MarkAt(v', h[k]) >= MarkAt(v, h[k]);
    }
    assert Decided(v', h, m.seq_);
  }

  lemma PlaceKeepsInv(v: View, h: seq<ZoneId>, m: Arrival)
    requires Inv(v, h) && Enabled(v, Place(m))
    ensures Inv(Next(v, Place(m)), h)
  {
    AboveTheMarkIsLast(v, h, m);
    PlaceMessages(v, h, m);
    hide ArrivesAgree; hide AcksAgree; hide HopsAgree; hide Leg;
    var n, v' := |h| - 1, Next(v, Place(m));
    assert v'.bodies == map[h[n] := n];
    assert Decided(v', h, n);
  }

  lemma PurgeKeepsInv(v: View, h: seq<ZoneId>, z: ZoneId)
    requires Inv(v, h) && Enabled(v, Purge(z))
    ensures Inv(Next(v, Purge(z)), Itinerary(h, Purge(z)))
  {
    if |h| == 1 { NothingMovedYet(v, h); }
    assert Next(v, Purge(z)).bodies == map[];
    SameMarks(v, Next(v, Purge(z)), h);
  }

  /** Messages may be added, and records dropped, as long as they were decided. */
  lemma MessagesKeepInv(v: View, h: seq<ZoneId>, v': View)
    requires Inv(v, h) && h != []
    requires v'.bodies == v.bodies && v'.marks == v.marks
    requires ArrivesAgree(v', h) && AcksAgree(v', h)
    requires forall z | z in v'.hops :: z in v.hops && v'.hops[z] == v.hops[z]
    requires forall z | z in v.hops && z !in v'.hops :: Decided(v, h, v.hops[z].seq_)
    ensures Inv(v', h)
  {
    SameMarks(v, v', h);
  }

  lemma StepKeepsInv(v: View, h: seq<ZoneId>, s: Step)
    requires Inv(v, h) && Enabled(v, s)
    ensures Inv(Next(v, s), Itinerary(h, s))
  {
    if s.Spawn? {
      SpawnMeansFresh(v, h);
      assert Next(v, s) == View(map[s.z := 0], map[], map[], {}, {});
    } else if s.Depart? {
      DepartKeepsInv(v, h, s.z, s.to);
    } else if s.Place? {
      PlaceKeepsInv(v, h, s.m);
    } else if s.Purge? {
      PurgeKeepsInv(v, h, s.z);
    } else if !s.Stutter? {
      SameMarks(v, Next(v, s), h);
      if s.ReAck? { assert Leg(h, s.m.seq_, s.m.origin, s.m.to); }
      MessagesKeepInv(v, h, Next(v, s));
    }
  }

  lemma SameMarks(v: View, v': View, h: seq<ZoneId>)
    requires v'.marks == v.marks
    ensures forall k: nat | k < |h| :: Decided(v', h, k) == Decided(v, h, k)
  {
  }

  // ----- live copies -----------------------------------------------------

  datatype Copy = InZone(z: ZoneId) | OnTheWay(z: ZoneId)

  /** The copies that count: a body in a Zone, or a transit record its target has not decided. */
  function Live(v: View): set<Copy> {
    (set z | z in v.bodies :: InZone(z)) +
    (set z | z in v.hops && v.hops[z].seq_ > MarkAt(v, v.hops[z].to) :: OnTheWay(z))
  }

  /** Where the one live copy is, by the itinerary. */
  lemma LiveIs(v: View, h: seq<ZoneId>)
    requires Inv(v, h)
    ensures h == [] ==> Live(v) == {}
    ensures h != [] && Decided(v, h, |h| - 1) ==> Live(v) == if v.bodies == map[] then {} else {InZone(h[|h| - 1])}
    ensures h != [] && !Decided(v, h, |h| - 1) ==> |h| >= 2 && Live(v) == {OnTheWay(h[|h| - 2])}
  {
    if h != [] {
      forall z | z in v.hops && v.hops[z].seq_ > MarkAt(v, v.hops[z].to)
        ensures v.hops[z].seq_ == |h| - 1 && z == h[|h| - 2]
      {
        assert !Decided(v, h, v.hops[z].seq_);
      }
    }
  }

  lemma AtMostOneCopy(v: View, h: seq<ZoneId>)
    requires Inv(v, h)
    ensures |Live(v)| <= 1
  {
    LiveIs(v, h);
  }

  function Count(v: View): nat { |Live(v)| }

  /** The Entity is in the World: on the way, or its last Zone still holds its body. */
  predicate Alive(v: View, h: seq<ZoneId>) {
    h != [] && (!Decided(v, h, |h| - 1) || v.bodies != map[])
  }

  lemma CountIs(v: View, h: seq<ZoneId>)
    requires Inv(v, h)
    ensures Count(v) == if Alive(v, h) then 1 else 0
  {
    LiveIs(v, h);
  }

  lemma AliveAfter(v: View, h: seq<ZoneId>, s: Step)
    requires Inv(v, h) && Enabled(v, s)
    ensures Alive(Next(v, s), Itinerary(h, s)) == ((Alive(v, h) || s.Spawn?) && !s.Purge?)
    ensures s.Spawn? ==> !Alive(v, h)
    ensures s.Purge? ==> Alive(v, h)
  {
    match s
    case Spawn(z) => SpawnAlive(v, h, z);
    case Depart(z, to) => DepartAlive(v, h, z, to);
    case Place(m) => PlaceAlive(v, h, m);
    case Purge(z) => PurgeAlive(v, h, z);
    case _ => SameMarks(v, Next(v, s), h);
  }

  lemma SpawnAlive(v: View, h: seq<ZoneId>, z: ZoneId)
    requires Inv(v, h) && Enabled(v, Spawn(z))
    ensures !Alive(v, h) && Alive(Next(v, Spawn(z)), [z])
  {
    SpawnMeansFresh(v, h);
    assert z in Next(v, Spawn(z)).bodies;
  }

  lemma DepartAlive(v: View, h: seq<ZoneId>, z: ZoneId, to: ZoneId)
    requires Inv(v, h) && Enabled(v, Depart(z, to))
    ensures Alive(v, h) && Alive(Next(v, Depart(z, to)), h + [to])
  {
    var v' := Next(v, Depart(z, to));
    assert z in v.bodies;
    DepartKeepsInv(v, h, z, to);
    hide ArrivesAgree; hide AcksAgree; hide HopsAgree; hide Leg;
    assert v'.bodies == map[];
  }

  lemma PlaceAlive(v: View, h: seq<ZoneId>, m: Arrival)
    requires Inv(v, h) && Enabled(v, Place(m))
    ensures Alive(v, h) && Alive(Next(v, Place(m)), h)
  {
    AboveTheMarkIsLast(v, h, m);
    hide ArrivesAgree; hide AcksAgree; hide HopsAgree; hide Leg;
    assert m.to in Next(v, Place(m)).bodies;
  }

  lemma PurgeAlive(v: View, h: seq<ZoneId>, z: ZoneId)
    requires Inv(v, h) && Enabled(v, Purge(z))
    ensures Alive(v, h) && !Alive(Next(v, Purge(z)), Itinerary(h, Purge(z)))
  {
    hide ArrivesAgree; hide AcksAgree; hide HopsAgree; hide Leg;
    assert z in v.bodies && Next(v, Purge(z)).bodies == map[];
    SameMarks(v, Next(v, Purge(z)), h);
  }

  /** Copies are conserved: only a spawn makes one and only a purge ends one. */
  lemma CopiesConserved(v: View, h: seq<ZoneId>, s: Step)
    requires Inv(v, h) && Enabled(v, s)
    ensures Count(Next(v, s)) == Count(v) + (if s.Spawn? then 1 else if s.Purge? then -1 else 0)
  {
    StepKeepsInv(v, h, s);
    CountIs(v, h);
    CountIs(Next(v, s), Itinerary(h, s));
    AliveAfter(v, h, s);
  }

  /** A sequence is placed only while no Zone anywhere has decided it or a later one. */
  lemma PlacedOnlyOnce(v: View, h: seq<ZoneId>, m: Arrival)
    requires Inv(v, h) && Enabled(v, Place(m))
    ensures forall z | z in v.marks :: v.marks[z] < m.seq_
  {
    AboveTheMarkIsLast(v, h, m);
  }

  /** A record leaves a Zone's Transit only once its target has decided that sequence. */
  lemma DroppedOnlyWhenDecided(v: View, h: seq<ZoneId>, s: Step, z: ZoneId)
    requires Inv(v, h) && Enabled(v, s) && z in v.hops
    requires z in Next(v, s).hops ==> Next(v, s).hops[z] != v.hops[z]
    ensures v.hops[z].seq_ <= MarkAt(v, v.hops[z].to)
  {
    var k := v.hops[z].seq_;
    if s.Place? { AboveTheMarkIsLast(v, h, s.m); }
    assert Decided(v, h, k);
  }
}
