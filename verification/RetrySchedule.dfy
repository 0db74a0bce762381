/** The live loop's retry schedule (server/sim/handoff.go): when each Arrive is due again, in what
    order, and at most how many at once. It is in memory only; replay never writes it. */
module RetrySchedule {
  import opened Sim
  import Moves
  import opened Strings

  // ----- the backoff -----------------------------------------------------

  const UINT64 := 0x1_0000_0000_0000_0000
  const MAX_SHIFT := 16

  function Pow2(n: nat): nat { if n == 0 then 1 else 2 * Pow2(n - 1) }

  function Min(a: int, b: int): int { if a < b then a else b }
  function Max(a: int, b: int): int { if a < b then b else a }

  /** `first << shift` on a uint64: the high bits are lost. */
  function ShiftLeft(x: nat, shift: nat): nat { (x * Pow2(shift)) % UINT64 }

  function Shift(attempts: int): nat { Min(Max(attempts - 1, 0), MAX_SHIFT) }

  /** The ticks to wait after the n-th Arrive. Whatever the configuration, it is at least the first
      interval and at most the longest, so no attempt count wraps it to zero. */
  function RetryInterval(first: nat, longest: nat, attempts: int): (t: nat)
    requires 0 < first < UINT64 && longest < UINT64
    ensures first <= t <= Max(first, longest)
  {
    var top := Max(first, longest);
    var interval := ShiftLeft(first, Shift(attempts));
    if interval > top || interval < first then top else interval
  }

  lemma {:induction false} Pow2Monotone(a: nat, b: nat)
    requires a <= b
    ensures 1 <= Pow2(a) <= Pow2(b)
    decreases b
  {
    if a < b { Pow2Monotone(a, b - 1); } else if a > 0 { Pow2Monotone(a - 1, a - 1); }
  }

  lemma TimesMonotone(x: nat, a: nat, b: nat)
    requires a <= b
    ensures x * a <= x * b
  {
  }

  /** The first interval doubled for each attempt after the first, up to 16 times, and capped. */
  function Doubling(first: nat, longest: nat, attempts: int): nat {
    Min(first * Pow2(Shift(attempts)), Max(first, longest))
  }

  /** A shift loses bits, and what is left of the interval passes for one: at least the first and below the
      longest. */
  predicate Slips(first: nat, longest: nat, shift: nat) {
    && first * Pow2(shift) >= UINT64
    && first <= first * Pow2(shift) % UINT64 < Max(first, longest)
  }

  lemma ModSmall(x: nat)
    requires x < UINT64
    ensures x % UINT64 == x
  {
  }

  /** At one attempt: the capped doubling, unless the shift slips, and then less. */
  lemma IntervalAt(first: nat, longest: nat, attempts: int)
    requires 0 < first < UINT64 && longest < UINT64
    ensures RetryInterval(first, longest, attempts) ==
            if Slips(first, longest, Shift(attempts)) then first * Pow2(Shift(attempts)) % UINT64
            else Doubling(first, longest, attempts)
    ensures Slips(first, longest, Shift(attempts)) ==>
              RetryInterval(first, longest, attempts) < Doubling(first, longest, attempts)
  {
    var p := Pow2(Shift(attempts));
    Pow2Monotone(0, Shift(attempts));
    TimesMonotone(first, 1, p);
    if first * p < UINT64 { ModSmall(first * p); }
  }

  lemma ShiftOf(s: nat)
    requires s <= MAX_SHIFT
    ensures Shift(s + 1) == s
  {
  }

  /** The interval is the capped doubling at every attempt exactly when no shift slips. */
  lemma BackoffDoublesIff(first: nat, longest: nat)
    requires 0 < first < UINT64 && longest < UINT64
    ensures (forall n: int :: RetryInterval(first, longest, n) == Doubling(first, longest, n)) <==>
            forall s: nat | s <= MAX_SHIFT :: !Slips(first, longest, s)
  {
    hide RetryInterval; hide Doubling; hide Slips;
    forall n: int
      ensures RetryInterval(first, longest, n) == Doubling(first, longest, n) <==> !Slips(first, longest, Shift(n))
    {
      IntervalAt(first, longest, n);
    }
    forall s: nat | s <= MAX_SHIFT
      ensures RetryInterval(first, longest, s + 1) == Doubling(first, longest, s + 1) <==> !Slips(first, longest, s)
    {
      ShiftOf(s);
    }
  }

  /** No shift slips when the largest loses no bits: a first interval below 2^48. */
  lemma SmallNeverSlips(first: nat, longest: nat, s: nat)
    requires first * Pow2(MAX_SHIFT) < UINT64 && s <= MAX_SHIFT
    ensures !Slips(first, longest, s)
  {
    Pow2Monotone(s, MAX_SHIFT);
    TimesMonotone(first, Pow2(s), Pow2(MAX_SHIFT));
  }

  /** A configuration whose third attempt waits less than the doubling says. */
  lemma LargeSlips()
    ensures var first, longest := 0x6000_0000_0000_0000, 0x8000_0000_0000_0001;
            && Slips(first, longest, 2)
            && RetryInterval(first, longest, 3) == 0x8000_0000_0000_0000 < Doubling(first, longest, 3) == longest
  {
    assert Pow2(2) == 4;
  }

  /** A shift that slips makes an attempt wait less than the one before it did. */
  lemma {:induction false} SlipShrinks(first: nat, longest: nat, s: nat) returns (n: int)
    requires 0 < first < UINT64 && longest < UINT64 && s <= MAX_SHIFT && Slips(first, longest, s)
    ensures RetryInterval(first, longest, n + 1) < RetryInterval(first, longest, n)
  {
    assert s > 0 by { assert Pow2(0) == 1; }
    var x := first * Pow2(s - 1);
    TwiceAsFar(first, s - 1);
    ShiftOf(s);
    ShiftOf(s - 1);
    IntervalAt(first, longest, s + 1);
    IntervalAt(first, longest, s);
    hide RetryInterval; hide Pow2; hide Shift;
    if Slips(first, longest, s - 1) {
      n := SlipShrinks(first, longest, s - 1);
    } else {
      n := s;
      HalfAgain(x);
    }
  }

  lemma HalfAgain(x: nat)
    ensures x < UINT64 <= 2 * x ==> 2 * x % UINT64 == 2 * x - UINT64
  {
  }

  /** No attempt waits less than the one before it exactly when no shift slips. */
  lemma BackoffNeverShrinksIff(first: nat, longest: nat)
    requires 0 < first < UINT64 && longest < UINT64
    ensures (forall n: int :: RetryInterval(first, longest, n) <= RetryInterval(first, longest, n + 1)) <==>
            forall s: nat | s <= MAX_SHIFT :: !Slips(first, longest, s)
  {
    hide RetryInterval; hide Slips;
    if s: nat :| s <= MAX_SHIFT && Slips(first, longest, s) {
      var n := SlipShrinks(first, longest, s);
    } else {
      forall n: int ensures RetryInterval(first, longest, n) <= RetryInterval(first, longest, n + 1) {
        IntervalAt(first, longest, n);
        IntervalAt(first, longest, n + 1);
        Pow2Monotone(Shift(n), Shift(n + 1));
        TimesMonotone(first, Pow2(Shift(n)), Pow2(Shift(n + 1)));
      }
    }
  }

  lemma Pow2Of16()
    ensures Pow2(MAX_SHIFT) == 65536
  {
    assert Pow2(4) == 16;
    assert Pow2(8) == 256;
    assert Pow2(12) == 4096;
  }

  /** The longest interval is waited at some attempt exactly when some shift up to 16 that does not slip takes the
      first interval that far. */
  lemma LongestReachedIff(first: nat, longest: nat)
    requires 0 < first < UINT64 && longest < UINT64
    ensures (exists n: int :: RetryInterval(first, longest, n) == Max(first, longest)) <==>
            exists s: nat | s <= MAX_SHIFT :: !Slips(first, longest, s) && first * Pow2(s) >= Max(first, longest)
  {
    hide Pow2;
    forall n: int
      ensures RetryInterval(first, longest, n) == Max(first, longest) <==>
              !Slips(first, longest, Shift(n)) && first * Pow2(Shift(n)) >= Max(first, longest)
    {
      IntervalAt(first, longest, n);
    }
    hide RetryInterval; hide Slips;
    if s: nat :| s <= MAX_SHIFT && !Slips(first, longest, s) && first * Pow2(s) >= Max(first, longest) {
      ShiftOf(s);
      assert RetryInterval(first, longest, s + 1) == Max(first, longest);
    }
    if n: int :| RetryInterval(first, longest, n) == Max(first, longest) {
      assert Shift(n) <= MAX_SHIFT;
    }
  }

  /** For a first interval below 2^48, exactly when it is at most 65536 first intervals: the exponent stops at 16,
      though the README says the interval doubles up to the maximum. */
  lemma SmallReachesIff(first: nat, longest: nat)
    requires 0 < first && first * 65536 < UINT64 && longest < UINT64
    ensures (exists n: int :: RetryInterval(first, longest, n) == Max(first, longest)) <==> longest <= first * 65536
  {
    Pow2Of16();
    LongestReachedIff(first, longest);
    hide RetryInterval; hide Pow2;
    if longest <= first * 65536 {
      SmallNeverSlips(first, longest, MAX_SHIFT);
    } else {
      forall s: nat | s <= MAX_SHIFT ensures first * Pow2(s) < Max(first, longest) {
        Pow2Monotone(s, MAX_SHIFT);
        TimesMonotone(first, Pow2(s), Pow2(MAX_SHIFT));
      }
    }
  }

  /** A maximum that is never waited. */
  lemma LongestNeedNotBeReached(attempts: int)
    ensures RetryInterval(1, 100000, attempts) < 100000
  {
    hide RetryInterval;
    SmallReachesIff(1, 100000);
    assert RetryInterval(1, 100000, attempts) != Max(1, 100000);
  }

  /** Each wait is twice the one before it, up to the longest, for sixteen retries; then it stays. */
  lemma NextWait(first: nat, longest: nat, n: int)
    requires 0 < first < UINT64 && longest < UINT64 && n >= 1
    requires forall s: nat | s <= MAX_SHIFT :: !Slips(first, longest, s)
    ensures RetryInterval(first, longest, n + 1) ==
            if n <= MAX_SHIFT then Min(2 * RetryInterval(first, longest, n), Max(first, longest))
            else RetryInterval(first, longest, n)
  {
    IntervalAt(first, longest, n);
    IntervalAt(first, longest, n + 1);
    if n <= MAX_SHIFT { TwiceAsFar(first, Shift(n)); }
    hide RetryInterval; hide Slips; hide Pow2;
  }

  lemma TwiceAsFar(first: nat, s: nat)
    ensures first * Pow2(s + 1) == 2 * (first * Pow2(s))
  {
  }

  // ----- what is due -----------------------------------------------------

  datatype Key = Key(id: EntityId, seq_: nat)
  datatype Sched = Sched(attempts: int, last: nat)
  datatype Place = Place(zone: ZoneId, id: EntityId)
  datatype Due = Due(at: nat, place: Place)

  /** Earliest first, then by Entity, then by Zone. */
  predicate Before(a: Due, b: Due) {
    a.at < b.at || (a.at == b.at && (Less(a.place.id.name, b.place.id.name)
    || (a.place.id == b.place.id && Less(a.place.zone.name, b.place.zone.name))))
  }

  lemma BeforeTotal(a: Due, b: Due)
    ensures Before(a, b) || a == b || Before(b, a)
    ensures !(Before(a, b) && Before(b, a)) && (Before(a, b) ==> a != b)
  {
    LessTrichotomy(a.place.id.name, b.place.id.name);
    LessTrichotomy(a.place.zone.name, b.place.zone.name);
  }

  lemma BeforeTransitive(a: Due, b: Due, c: Due)
    requires Before(a, b) && Before(b, c)
    ensures Before(a, c)
  {
    LessTrichotomy(a.place.id.name, b.place.id.name);
    LessTrichotomy(b.place.id.name, c.place.id.name);
    if Less(a.place.id.name, b.place.id.name) && Less(b.place.id.name, c.place.id.name) {
      LessTransitive(a.place.id.name, b.place.id.name, c.place.id.name);
    }
    if Less(a.place.zone.name, b.place.zone.name) && Less(b.place.zone.name, c.place.zone.name) {
      LessTransitive(a.place.zone.name, b.place.zone.name, c.place.zone.name);
    }
  }

  ghost predicate Ascending(s: seq<Due>) { forall i, j | 0 <= i < j < |s| :: Before(s[i], s[j]) }

  /** The first `limit` of a set in order: the one answer a retry pass may give. */
  ghost predicate FirstOf(s: seq<Due>, limit: nat, all: set<Due>) {
    && Ascending(s) && |s| <= limit
    && (forall d | d in s :: d in all)
    && (forall d | d in all && d !in s :: |s| == limit && forall x | x in s :: Before(x, d))
  }

  /** Earliest due first, then in Entity order, then in Zone order; what is left out is due no earlier. */
  lemma FirstOfOrder(s: seq<Due>, limit: nat, all: set<Due>)
    requires FirstOf(s, limit, all)
    ensures forall i, j | 0 <= i < j < |s| :: NotAfter(s[i], s[j])
    ensures forall x, d | x in s && d in all && d !in s :: NotAfter(x, d)
  {
    forall a, b | Before(a, b) ensures NotAfter(a, b) { LessTrichotomy(a.place.id.name, a.place.id.name); }
  }

  predicate NotAfter(a: Due, b: Due) {
    && a.at <= b.at && (a.at == b.at ==> a.place.id == b.place.id || Less(a.place.id.name, b.place.id.name))
    && (a.at == b.at && a.place.id == b.place.id ==> Less(a.place.zone.name, b.place.zone.name))
  }

  /** There is one answer only, so a pass does not depend on the order it meets the records in. */
  lemma FirstOfUnique(s: seq<Due>, t: seq<Due>, limit: nat, all: set<Due>)
    requires FirstOf(s, limit, all) && FirstOf(t, limit, all)
    ensures s == t
  {
    SameHeads(s, t, limit, all, Min(|s|, |t|));
    NoneMissing(s, t, limit, all);
    NoneMissing(t, s, limit, all);
  }

  lemma IndexUnique(s: seq<Due>, i: nat, j: nat)
    requires Ascending(s) && i < |s| && j < |s| && s[i] == s[j]
    ensures i == j
  {
    BeforeTotal(s[i], s[j]);
  }

  lemma NoneMissing(s: seq<Due>, t: seq<Due>, limit: nat, all: set<Due>)
    requires FirstOf(s, limit, all) && FirstOf(t, limit, all) && s[..Min(|s|, |t|)] == t[..Min(|s|, |t|)]
    ensures |t| <= |s|
  {
    if |s| < |t| && t[|s|] in s {
      var i :| 0 <= i < |s| && s[i] == t[|s|];
      assert t[..|s|][i] == s[i];
      IndexUnique(t, i, |s|);
    }
  }

  lemma {:induction false} SameHeads(s: seq<Due>, t: seq<Due>, limit: nat, all: set<Due>, n: nat)
    requires FirstOf(s, limit, all) && FirstOf(t, limit, all) && n <= |s| && n <= |t|
    ensures s[..n] == t[..n]
  {
    if n > 0 {
      SameHeads(s, t, limit, all, n - 1);
      NotEarlier(s, t, limit, all, n - 1);
      NotEarlier(t, s, limit, all, n - 1);
      BeforeTotal(s[n - 1], t[n - 1]);
      assert s[..n] == s[..n - 1] + [s[n - 1]] && t[..n] == t[..n - 1] + [t[n - 1]];
    }
  }

  lemma NotEarlier(s: seq<Due>, t: seq<Due>, limit: nat, all: set<Due>, n: nat)
    requires FirstOf(s, limit, all) && FirstOf(t, limit, all) && n < |s| && n < |t| && s[..n] == t[..n]
    ensures t[n] == s[n] || Before(t[n], s[n])
  {
    if s[n] in t {
      var i :| 0 <= i < |t| && t[i] == s[n];
      assert i >= n by {
        if i < n {
          assert s[..n][i] == t[i];
          IndexUnique(s, i, n);
        }
      }
    } else {
      assert t[n] in t;
    }
  }

  // ----- the engine's part -----------------------------------------------

  /** The engine's mutable state as the handoff reads and writes it. `frozen` is the Zones that are
      faulted or whose Partition a fault froze. */
  class Engine {
    const first: nat
    const longest: nat
    const batch: nat
    var zones: Zones
    var frozen: set<ZoneId>
    var handoffs: map<Key, Sched>
    var replaying: bool

    constructor (first: nat, longest: nat, batch: nat)
      requires 0 < first < UINT64 && longest < UINT64 && 0 < batch
      ensures this.first == first && this.longest == longest && this.batch == batch
      ensures zones == map[] && frozen == {} && handoffs == map[] && !replaying
      ensures Valid()
    {
      this.first, this.longest, this.batch := first, longest, batch;
      zones, frozen, handoffs, replaying := map[], {}, map[], false;
    }

    /** The schedule names records in transit only, each tried at least once: an entry goes when its record
        does. */
    ghost predicate Valid()
      reads this
    {
      && 0 < first < UINT64 && longest < UINT64 && 0 < batch
      && forall k | k in handoffs :: OnRecord(zones, k) && handoffs[k].attempts >= 1
    }

    /** When a record's next Arrive is due; a record with no entry is due at once. */
    function DueAt(id: EntityId, rec: Transit): nat
      requires 0 < first < UINT64 && longest < UINT64
      reads this
    {
      var k := Key(id, rec.body.seq_);
      if k in handoffs then handoffs[k].last + RetryInterval(first, longest, handoffs[k].attempts) else 0
    }

    /** Every record due at a tick. */
    function AllDue(tick: nat): set<Due>
      requires 0 < first < UINT64 && longest < UINT64
      reads this
    {
      set z, id | z in zones && z !in frozen && id in zones[z].transit && DueAt(id, zones[z].transit[id]) <= tick
        :: Due(DueAt(id, zones[z].transit[id]), Place(z, id))
    }

    /** depart: the body moves to its Zone's Transit one sequence higher and its Arrive is produced;
        the schedule has that as the first attempt, unless this is a replay. */
    method Depart(zid: ZoneId, id: EntityId, to: RoomRef, dir: Direction, tick: nat) returns (arrive: Logged)
      requires Valid() && zid in zones && id in zones[zid].entities && id !in zones[zid].transit
      modifies this
      ensures var eff := Sim.Depart(zid, old(zones[zid]), id, to, dir);
              zones == old(zones)[zid := eff.zone] && eff.outbound == {arrive}
      ensures Moves.Left(zid, old(zones[zid]), Effect(zones[zid], {arrive}, Accepted), id, to, dir)
      ensures handoffs == if replaying then old(handoffs)
                          else old(handoffs)[Key(id, old(zones[zid].entities[id].seq_) + 1) := Sched(1, tick)]
      ensures frozen == old(frozen) && replaying == old(replaying)
      ensures Valid()
    {
      Moves.DepartLeaves(zid, zones[zid], id, to, dir);
      var actor := zones[zid].entities[id];
      actor := actor.(seq_ := actor.seq_ + 1);
      var rec := Transit(actor, to.zone, to.room, dir);
      var z := zones[zid];
      z := z.(entities := z.entities - {id});
      z := z.(transit := z.transit[id := rec]);
      ghost var before := zones;
      zones := zones[zid := z];
      if !replaying {
        handoffs := handoffs[Key(id, actor.seq_) := Sched(1, tick)];
      }
      forall k | k in handoffs ensures OnRecord(zones, k) {
        if k in old(handoffs) {
          KeptElsewhere(before, zones, zid, k);
        } else {
          assert k == Key(id, actor.seq_) && zones[zid].transit[id] == rec;
        }
      }
      arrive := Logged(to.zone, ArriveFor(zid, id, rec));
    }

    /** dropTransit: the record and its schedule entry go together. */
    method DropTransit(zid: ZoneId, id: EntityId)
      requires Valid() && zid in zones
      modifies this
      ensures zones == old(zones)[zid := old(zones[zid]).(transit := old(zones[zid]).transit - {id})]
      ensures handoffs == if id in old(zones[zid].transit)
                          then old(handoffs) - {Key(id, old(zones[zid].transit[id].body.seq_))} else old(handoffs)
      ensures frozen == old(frozen) && replaying == old(replaying)
      ensures Valid()
    {
      var z := zones[zid];
      ghost var before := zones;
      zones := zones[zid := z.(transit := z.transit - {id})];
      if id in z.transit {
        handoffs := handoffs - {Key(id, z.transit[id].body.seq_)};
      } else {
        assert z.transit - {id} == z.transit;
      }
      forall k | k in handoffs ensures OnRecord(zones, k) {
        KeptElsewhere(before, zones, zid, k);
      }
    }

    /** applyHandoffAck: a record is dropped by an ack of its Entity and its sequence both. */
    method ApplyHandoffAck(zid: ZoneId, id: EntityId, ackSeq: nat)
      requires Valid() && zid in zones
      modifies this
      ensures zones == old(zones)[zid := Sim.ApplyHandoffAck(old(zones[zid]), id, ackSeq).zone]
      ensures handoffs == if id in old(zones[zid].transit) && old(zones[zid].transit[id].body.seq_) == ackSeq
                          then old(handoffs) - {Key(id, ackSeq)} else old(handoffs)
      ensures frozen == old(frozen) && replaying == old(replaying)
      ensures Valid()
    {
      if id in zones[zid].transit && zones[zid].transit[id].body.seq_ == ackSeq {
        DropTransit(zid, id);
      } else {
        assert zones[zid := zones[zid]] == zones;
      }
    }

    /** applyArrive: drop what the arrival acknowledges, place the body, set the mark, acknowledge. */
    method ApplyArrive(w: World, zid: ZoneId, a: Command) returns (outbound: set<Logged>, code: Code)
      requires Valid() && zid in zones && a.Arrive?
      modifies this
      ensures var eff := Sim.ApplyArrive(w, zid, old(zones[zid]), a);
              zones == old(zones)[zid := eff.zone] && outbound == eff.outbound && code == eff.code
      ensures handoffs == if Decide(old(zones[zid]), a) == New(true) && a.entity.id in old(zones[zid].transit)
                          then old(handoffs) - {Key(a.entity.id, old(zones[zid].transit[a.entity.id].body.seq_))}
                          else old(handoffs)
      ensures frozen == old(frozen) && replaying == old(replaying)
      ensures Valid()
    {
      outbound, code := {}, Accepted;
      var id := a.entity.id;
      var v := Decide(zones[zid], a);
      assert zones[zid := zones[zid]] == zones;
      match v {
        case Invalid => code := InvalidArrival;
        case Refused => code := EntityPresent;
        case Reissue =>
        case Retry => outbound := Ack(a);
        case Stale => outbound := Ack(a);
        case New(drop) =>
          if drop {
            DropTransit(zid, id);
          }
          if zid !in w {
            code := UnknownRoom;
            return;
          }
          var room := if a.room in w[zid].rooms then a.room else w[zid].fallback;
          var z := zones[zid];
          z := z.(entities := z.entities[id := FromWire(a.entity, room)]);
          z := z.(placed := z.placed[id := Mark(a.hseq, false)]);
          ghost var before := zones;
          zones := zones[zid := z];
          outbound := Ack(a);
          forall k | k in handoffs ensures OnRecord(zones, k) {
            KeptElsewhere(before, zones, zid, k);
          }
      }
    }

    /** What is due: the records of the Zones no fault froze, each an interval after its last Arrive or, with
        no schedule entry, at once. */
    lemma AllDueAre(tick: nat, d: Due)
      requires Valid()
      ensures d in AllDue(tick) <==>
              && d.place.zone in zones && d.place.zone !in frozen && d.place.id in zones[d.place.zone].transit
              && var k := Key(d.place.id, zones[d.place.zone].transit[d.place.id].body.seq_);
                 if k !in handoffs then d.at == 0
                 else d.at == handoffs[k].last + RetryInterval(first, longest, handoffs[k].attempts) && d.at <= tick
    {
      hide RetryInterval;
      if d in AllDue(tick) {
        var z, id :| z in zones && z !in frozen && id in zones[z].transit
                     && d == Due(DueAt(id, zones[z].transit[id]), Place(z, id));
      }
    }

    /** The records due at a tick, in order, whatever order the maps are met in. */
    method CollectDue(tick: nat) returns (dues: seq<Due>)
      requires Valid()
      ensures Ascending(dues) && forall d :: d in dues <==> d in AllDue(tick)
    {
      var todo := AllDue(tick);
      dues := [];
      while todo != {}
        invariant todo <= AllDue(tick) && Ascending(dues)
        invariant forall d :: d in dues <==> d in AllDue(tick) && d !in todo
      {
        var d :| d in todo;          // a map's records come in any order
        InsertKeeps(dues, d);
        dues := InsertDue(dues, d);
        todo := todo - {d};
      }
    }

    /** Produce an Arrive for each place, in order. */
    method Resend(places: seq<Place>, tick: nat) returns (arrives: seq<Logged>)
      requires Valid() && forall i | 0 <= i < |places| :: HasRecord(zones, places[i])
      modifies this`handoffs
      ensures Retried(zones, places, arrives, old(handoffs), handoffs, tick) && Valid()
    {
      hide Retried;
      arrives := [];
      RetriedNone(zones, handoffs, tick);
      assert places[..0] == [];
      for i := 0 to |places|
        invariant Retried(zones, places[..i], arrives, old(handoffs), handoffs, tick) && Valid()
      {
        var key := KeyAt(zones, places[i]);
        var attempt := if key in handoffs then handoffs[key].attempts + 1 else 1;
        RetriedMore(zones, places[..i], places[i], arrives, old(handoffs), handoffs, tick);
        assert places[..i + 1] == places[..i] + [places[i]];
        handoffs := handoffs[key := Sched(attempt, tick)];
        arrives := arrives + [ArriveAt(zones, places[i])];
        assert OnRecord(zones, key);
      }
      assert places[..|places|] == places;
    }

    /** DueHandoffs: the first `batch` due records in order, each with its Arrive; their schedule
        entries move on to this tick and no other entry changes. */
    method DueHandoffs(tick: nat) returns (out: seq<Due>, arrives: seq<Logged>)
      requires Valid()
      modifies this`handoffs
      ensures FirstOf(out, batch, old(AllDue(tick)))
      ensures Retried(zones, Places(out), arrives, old(handoffs), handoffs, tick) && Valid()
    {
      var dues := CollectDue(tick);
      out := if |dues| > batch then dues[..batch] else dues;
      FirstOfPrefix(dues, out, batch, AllDue(tick));
      assert forall i | 0 <= i < |out| :: out[i] in AllDue(tick);
      arrives := Resend(Places(out), tick);
    }
  }

  predicate HasRecord(zones: Zones, p: Place) { p.zone in zones && p.id in zones[p.zone].transit }

  function KeyAt(zones: Zones, p: Place): Key
    requires HasRecord(zones, p)
  {
    Key(p.id, zones[p.zone].transit[p.id].body.seq_)
  }

  function ArriveAt(zones: Zones, p: Place): Logged
    requires HasRecord(zones, p)
  {
    var rec := zones[p.zone].transit[p.id];
    Logged(rec.to, ArriveFor(p.zone, p.id, rec))
  }

  /** How many of the places hold a record under a key: one, where keys are not shared. */
  function Tries(zones: Zones, places: seq<Place>, k: Key): nat {
    if places == [] then 0
    else
      var p := places[|places| - 1];
      Tries(zones, places[..|places| - 1], k) + if HasRecord(zones, p) && KeyAt(zones, p) == k then 1 else 0
  }

  function Attempts(s: map<Key, Sched>, k: Key): int { if k in s then s[k].attempts else 0 }

  /** Retried at `tick`: the Arrive of each place, its schedule entry at this tick with the attempt counted,
      and no other entry changed. */
  ghost predicate Retried(zones: Zones, places: seq<Place>, arrives: seq<Logged>,
                          before: map<Key, Sched>, after: map<Key, Sched>, tick: nat)
  {
    && |arrives| == |places|
    && (forall i | 0 <= i < |places| :: HasRecord(zones, places[i]))
    && (forall i | 0 <= i < |places| :: arrives[i] == ArriveAt(zones, places[i]))
    && forall k :: Rescheduled(before, after, k, Tries(zones, places, k), tick)
  }

  ghost predicate Rescheduled(before: map<Key, Sched>, after: map<Key, Sched>, k: Key, tries: nat, tick: nat) {
    if tries == 0 then (k in after <==> k in before) && (k in before ==> after[k] == before[k])
    else k in after && after[k] == Sched(Attempts(before, k) + tries, tick)
  }

  lemma RetriedNone(zones: Zones, before: map<Key, Sched>, tick: nat)
    ensures Retried(zones, [], [], before, before, tick)
  {
  }

  lemma RetriedMore(zones: Zones, places: seq<Place>, p: Place, arrives: seq<Logged>,
                    before: map<Key, Sched>, after: map<Key, Sched>, tick: nat)
    requires HasRecord(zones, p) && Retried(zones, places, arrives, before, after, tick)
    ensures var k := KeyAt(zones, p);
            Retried(zones, places + [p], arrives + [ArriveAt(zones, p)], before,
                    after[k := Sched(Attempts(after, k) + 1, tick)], tick)
  {
    var more := places + [p];
    assert more[..|places|] == places;
    var key := KeyAt(zones, p);
    var after' := after[key := Sched(Attempts(after, key) + 1, tick)];
    forall k ensures Rescheduled(before, after', k, Tries(zones, more, k), tick) {
      assert Rescheduled(before, after, k, Tries(zones, places, k), tick);
    }
  }

  /** The record at a place is scheduled under its Entity and its own sequence: retried, its entry is at this
      tick with more attempts; and an entry of no place's record is as it was. */
  lemma RetriedEntries(zones: Zones, places: seq<Place>, arrives: seq<Logged>, before: map<Key, Sched>,
                       after: map<Key, Sched>, tick: nat, k: Key)
    requires Retried(zones, places, arrives, before, after, tick)
    ensures (exists i | 0 <= i < |places| :: places[i].id == k.id &&
                          zones[places[i].zone].transit[k.id].body.seq_ == k.seq_) ==>
              k in after && after[k].last == tick && after[k].attempts > (if k in before then before[k].attempts else 0)
    ensures (forall i | 0 <= i < |places| && places[i].id == k.id ::
               zones[places[i].zone].transit[k.id].body.seq_ != k.seq_) ==>
              (k in after <==> k in before) && (k in before ==> after[k] == before[k])
  {
    hide Tries;
    assert Rescheduled(before, after, k, Tries(zones, places, k), tick);
    if i :| 0 <= i < |places| && places[i].id == k.id && zones[places[i].zone].transit[k.id].body.seq_ == k.seq_ {
      IsTried(zones, places, i);
    } else {
      NotTried(zones, places, k);
    }
  }

  lemma {:induction false} IsTried(zones: Zones, places: seq<Place>, i: nat)
    requires i < |places| && HasRecord(zones, places[i])
    ensures Tries(zones, places, KeyAt(zones, places[i])) > 0
  {
    if i < |places| - 1 { IsTried(zones, places[..|places| - 1], i); }
  }

  /** A key none shares is tried once. */
  lemma {:induction false} TriedOnce(zones: Zones, places: seq<Place>, i: nat)
    requires i < |places| && forall j | 0 <= j < |places| :: HasRecord(zones, places[j])
    requires forall j | 0 <= j < |places| && j != i :: KeyAt(zones, places[j]) != KeyAt(zones, places[i])
    ensures Tries(zones, places, KeyAt(zones, places[i])) == 1
  {
    var k := KeyAt(zones, places[i]);
    if i < |places| - 1 {
      TriedOnce(zones, places[..|places| - 1], i);
    } else {
      NotTried(zones, places[..i], k);
    }
  }

  lemma {:induction false} NotTried(zones: Zones, places: seq<Place>, k: Key)
    requires forall j | 0 <= j < |places| && HasRecord(zones, places[j]) :: KeyAt(zones, places[j]) != k
    ensures Tries(zones, places, k) == 0
  {
    if places != [] { NotTried(zones, places[..|places| - 1], k); }
  }

  /** A handoff retried waits twice as long as before it, up to the longest; a record no schedule knew waits
      the first interval. */
  lemma RetryBacksOff(zones: Zones, places: seq<Place>, arrives: seq<Logged>, before: map<Key, Sched>,
                      after: map<Key, Sched>, tick: nat, i: nat, first: nat, longest: nat)
    requires Retried(zones, places, arrives, before, after, tick) && i < |places|
    requires forall j | 0 <= j < |places| && j != i :: KeyAt(zones, places[j]) != KeyAt(zones, places[i])
    requires 0 < first < UINT64 && longest < UINT64 && forall s: nat | s <= MAX_SHIFT :: !Slips(first, longest, s)
    requires forall k | k in before :: before[k].attempts >= 1
    ensures var k := KeyAt(zones, places[i]);
            && k in after && after[k].last == tick
            && RetryInterval(first, longest, after[k].attempts) ==
               if k !in before then first
               else if before[k].attempts <= MAX_SHIFT
               then Min(2 * RetryInterval(first, longest, before[k].attempts), Max(first, longest))
               else RetryInterval(first, longest, before[k].attempts)
  {
    hide RetryInterval; hide Slips; hide Tries;
    var k := KeyAt(zones, places[i]);
    TriedOnce(zones, places, i);
    assert Rescheduled(before, after, k, Tries(zones, places, k), tick);
    if k in before {
      NextWait(first, longest, before[k].attempts);
    } else {
      FirstWait(first, longest);
    }
  }

  /** After n passes that each retry a handoff once, it waits what the doubling says of n + 1 attempts. */
  lemma {:induction false} WaitAfterPasses(passes: seq<map<Key, Sched>>, ticks: seq<nat>, k: Key, first: nat,
                                           longest: nat, n: nat)
    requires n < |passes| && |ticks| == |passes| && k in passes[0] && passes[0][k].attempts == 1
    requires forall i | 0 <= i < |passes| - 1 :: Rescheduled(passes[i], passes[i + 1], k, 1, ticks[i + 1])
    requires 0 < first < UINT64 && longest < UINT64 && forall s: nat | s <= MAX_SHIFT :: !Slips(first, longest, s)
    ensures k in passes[n] && passes[n][k].attempts == n + 1 && (n > 0 ==> passes[n][k].last == ticks[n])
    ensures RetryInterval(first, longest, passes[n][k].attempts) == Doubling(first, longest, n + 1)
  {
    hide RetryInterval; hide Slips; hide Doubling;
    if n > 0 { WaitAfterPasses(passes, ticks, k, first, longest, n - 1); }
    IntervalAt(first, longest, n + 1);
  }

  lemma FirstWait(first: nat, longest: nat)
    requires 0 < first < UINT64 && longest < UINT64
    ensures RetryInterval(first, longest, 1) == first
  {
    assert Pow2(0) == 1;
    ModSmall(first);
  }

  function Places(s: seq<Due>): (r: seq<Place>)
    ensures |r| == |s| && forall i | 0 <= i < |s| :: r[i] == s[i].place
  {
    seq(|s|, i requires 0 <= i < |s| => s[i].place)
  }

  ghost predicate OnRecord(zones: Zones, k: Key) {
    exists z :: z in zones && k.id in zones[z].transit && zones[z].transit[k.id].body.seq_ == k.seq_
  }

  /** A record another Zone holds, or one this Zone still holds, stays in transit. */
  lemma KeptElsewhere(zones: Zones, zones': Zones, zid: ZoneId, k: Key)
    requires OnRecord(zones, k) && zid in zones && zid in zones' && zones' == zones[zid := zones'[zid]]
    requires k.id in zones[zid].transit && zones[zid].transit[k.id].body.seq_ == k.seq_ ==>
               k.id in zones'[zid].transit && zones'[zid].transit[k.id].body.seq_ == k.seq_
    ensures OnRecord(zones', k)
  {
    var z :| z in zones && k.id in zones[z].transit && zones[z].transit[k.id].body.seq_ == k.seq_;
    assert z in zones' && k.id in zones'[z].transit && zones'[z].transit[k.id].body.seq_ == k.seq_;
  }

  function InsertDue(s: seq<Due>, d: Due): seq<Due> {
    if s == [] || Before(d, s[0]) then [d] + s else [s[0]] + InsertDue(s[1..], d)
  }

  lemma {:induction false} InsertKeeps(s: seq<Due>, d: Due)
    requires Ascending(s) && d !in s
    ensures Ascending(InsertDue(s, d)) && (forall x :: x in InsertDue(s, d) <==> x in s || x == d)
  {
    if s != [] && !Before(d, s[0]) {
      BeforeTotal(d, s[0]);
      InsertKeeps(s[1..], d);
      assert s == [s[0]] + s[1..];
      var r := InsertDue(s[1..], d);
      forall i | 0 <= i < |r| ensures Before(s[0], r[i]) {
        assert r[i] in r;
      }
    } else if s != [] {
      forall i | 0 <= i < |s| ensures Before(d, s[i]) {
        if i > 0 { BeforeTransitive(d, s[0], s[i]); }
      }
    }
  }

  lemma FirstOfPrefix(dues: seq<Due>, out: seq<Due>, limit: nat, all: set<Due>)
    requires Ascending(dues) && (forall d :: d in dues <==> d in all)
    requires out == if |dues| > limit then dues[..limit] else dues
    ensures FirstOf(out, limit, all)
  {
    assert forall j | 0 <= j < |out| :: out[j] == dues[j] && out[j] in out;
    forall d | d in all && d !in out ensures |out| == limit && forall x | x in out :: Before(x, d) {
      var i :| 0 <= i < |dues| && dues[i] == d;
    }
  }
}
