/** apply_action and rollback as they run against a registry whose calls may fail (scripts/schemas.py). */
module SchemaApply {
  import opened Options
  import opened Schemas

  /** A version rollback could not remove: still there, or only hidden. */
  datatype Left = Left(key: Key, hidden: bool)

  datatype Outcome =
    | RefusedEarly(refused: seq<string>)
    | AskFailed(subject: string)
    | PutFailed(subject: string, created: seq<Key>)
    | RefusedLate(refused: seq<string>, undone: seq<Key>, left: seq<Left>)
    | AskFailedLate(subject: string, undone: seq<Key>, left: seq<Left>)
    | ModeFailed(created: seq<Key>)
    | Applied(created: seq<Key>)

  function LeftKeys(left: seq<Left>): set<Key> { set l | l in left :: l.key }

  ghost predicate Distinct(s: seq<Key>) { forall i, j | 0 <= i < j < |s| :: s[i] != s[j] }

  /** The run's own versions, all in view. */
  ghost predicate Own(found: Cells, now: Cells, created: seq<Key>) {
    Grown(found, now, Keys(created)) && Distinct(created) && forall k | k in created :: k in now && now[k].live
  }

  /** The last call, when it failed, is one that failed. */
  lemma LastFailed(calls: seq<Call>, from: nat, subject: string)
    requires from < |calls| && calls[|calls| - 1].Failed()
    ensures calls[|calls| - 1].Read? ==> LostRead(calls, from) && BadPut(calls, from, subject)
    ensures calls[|calls| - 1].Posted? && calls[|calls| - 1].subject == subject ==> BadPut(calls, from, subject)
    ensures calls[|calls| - 1].Moded? ==> BadMode(calls, from)
  {
    var last := calls[|calls| - 1];
    assert last.Posted? && last.subject == subject ==> last == Posted(subject, last.fate);
  }

  // ----- questions -------------------------------------------------------

  method ReferenceList(reg: Registry, d: Declaration, file: string) returns (r: Option<seq<Ref>>)
    modifies reg`calls
    ensures old(reg.calls) <= reg.calls
    ensures r.Some? ==> r.value == RefsOf(reg.cells, d, file) && Went(reg.calls, |old(reg.calls)|)
    ensures r.None? ==> LostRead(reg.calls, |old(reg.calls)|)
  {
    hide Latest;
    var deps := d.Deps(file);
    var refs: seq<Ref> := [];
    var i := 0;
    while i < |deps|
      invariant 0 <= i <= |deps| && refs == RefsTo(reg.cells, d, deps[..i])
      invariant old(reg.calls) <= reg.calls && Went(reg.calls, |old(reg.calls)|)
    {
      var latest := reg.GetLatest(d.Name(deps[i]));
      if latest.None? { LastFailed(reg.calls, |old(reg.calls)|, ""); return None; }
      assert deps[..i + 1][..i] == deps[..i];
      if latest.value.Some? { refs := refs + [Ref(deps[i], d.Name(deps[i]), latest.value.value)]; }
      i := i + 1;
    }
    assert deps[..i] == deps;
    return Some(refs);
  }

  /** Whether every import is registered as declared; a lost answer is a no. */
  method RefsReady(reg: Registry, d: Declaration, file: string) returns (ready: bool)
    modifies reg`calls
    ensures old(reg.calls) <= reg.calls
    ensures (ready ==> Ready(reg.cells, d, file)) && (d.Deps(file) == [] ==> ready)
    ensures !ready ==> !Ready(reg.cells, d, file) || LostRead(reg.calls, |old(reg.calls)|)
  {
    hide Found; hide RefsOf; hide Went; hide LostRead;
    var deps := d.Deps(file);
    ghost var from := |reg.calls|;
    for i := 0 to |deps|
      invariant old(reg.calls) <= reg.calls
      invariant forall j | 0 <= j < i ::
                  Found(reg.cells, d.Name(deps[j]), d.Source(deps[j]), RefsOf(reg.cells, d, deps[j]))
    {
      ghost var before := reg.calls;
      var refs := ReferenceList(reg, d, deps[i]);
      LogGrows(before, reg.calls, from, "");
      if refs.None? { return false; }
      before := reg.calls;
      var held := reg.Lookup(d.Name(deps[i]), d.Source(deps[i]), refs.value);
      if held.None? { LastFailed(reg.calls, from, ""); return false; }
      if !held.value { return false; }
    }
    return true;
  }

  /** Whether the registry refuses the source; None when it did not answer. */
  method Incompatible(reg: Registry, subject: string, source: string, refs: seq<Ref>) returns (r: Option<bool>)
    modifies reg`calls
    ensures old(reg.calls) <= reg.calls
    ensures r.Some? ==> r.value == !reg.Accepts(reg.cells, subject, source, refs) && Went(reg.calls, |old(reg.calls)|)
    ensures r.None? ==> LostRead(reg.calls, |old(reg.calls)|)
  {
    var latest := reg.GetLatest(subject);
    if latest.None? { LastFailed(reg.calls, |old(reg.calls)|, ""); return None; }
    if latest.value.None? { return Some(false); }
    var fits := reg.Verdict(Key(subject, latest.value.value), source, refs);
    if fits.None? { LastFailed(reg.calls, |old(reg.calls)|, ""); return None; }
    return Some(!fits.value);
  }

  /** One item's question: None when it failed, else whether it was refused. */
  method Ask(reg: Registry, d: Declaration, x: Item) returns (r: Option<bool>)
    modifies reg`calls
    ensures old(reg.calls) <= reg.calls
    ensures r.Some? ==> r.value == !AcceptsItem(reg, reg.cells, d, x) && Went(reg.calls, |old(reg.calls)|)
    ensures r.None? ==> LostRead(reg.calls, |old(reg.calls)|)
  {
    hide RefsOf; hide Registry.Accepts; hide Went; hide LostRead;
    ghost var before := reg.calls;
    var refs := ReferenceList(reg, d, x.file);
    if refs.None? { return None; }
    ghost var mid := reg.calls;
    r := Incompatible(reg, d.Name(x.subject), d.Source(x.file), refs.value);
    LogGrows(mid, reg.calls, |before|, "");
  }

  ghost predicate AcceptsItem(reg: Registry, held: Cells, d: Declaration, x: Item) {
    reg.Accepts(held, d.Name(x.subject), d.Source(x.file), RefsOf(held, d, x.file))
  }

  /** A subject the registry refuses, for what some item declares. */
  ghost predicate RefusesItem(reg: Registry, held: Cells, d: Declaration, items: seq<Item>, name: string) {
    exists x | x in items :: d.Name(x.subject) == name && !AcceptsItem(reg, held, d, x)
  }

  /** Some item among the first `n` waits for its imports under that name; or is ready and refused. */
  ghost predicate Waits(held: Cells, d: Declaration, items: seq<Item>, name: string) {
    exists x | x in items :: d.Name(x.subject) == name && !Ready(held, d, x.file)
  }

  ghost predicate ReadyRefused(reg: Registry, held: Cells, d: Declaration, items: seq<Item>, name: string) {
    exists x | x in items :: d.Name(x.subject) == name && Ready(held, d, x.file) && !AcceptsItem(reg, held, d, x)
  }

  /** Phase 1: every item whose imports are registered as declared is asked; the others wait. With no answer
      lost, those that wait and those refused are exactly those. */
  method AskReady(reg: Registry, d: Declaration, items: seq<Item>)
    returns (failed: Option<string>, refused: seq<string>, deferred: set<string>)
    modifies reg`calls
    ensures old(reg.calls) <= reg.calls
    ensures failed.None? && refused == [] ==>
              forall x | x in items && d.Name(x.subject) !in deferred ::
                Ready(reg.cells, d, x.file) && AcceptsItem(reg, reg.cells, d, x)
    ensures forall name | name in deferred :: exists x | x in items :: d.Name(x.subject) == name && d.Deps(x.file) != []
    ensures forall name | name in refused :: ReadyRefused(reg, reg.cells, d, items, name)
    ensures failed.Some? ==> LostRead(reg.calls, |old(reg.calls)|)
    ensures !LostRead(reg.calls, |old(reg.calls)|) ==>
              && (forall name :: name in deferred <==> Waits(reg.cells, d, items, name))
              && (forall name :: name in refused <==> ReadyRefused(reg, reg.cells, d, items, name))
  {
    hide Ready; hide AcceptsItem; hide LostRead; hide Went;
    failed, refused, deferred := None, [], {};
    ghost var from := |reg.calls|;
    for i := 0 to |items|
      invariant old(reg.calls) <= reg.calls
      invariant refused == [] ==> forall j | 0 <= j < i && d.Name(items[j].subject) !in deferred ::
                  Ready(reg.cells, d, items[j].file) && AcceptsItem(reg, reg.cells, d, items[j])
      invariant forall name | name in deferred ::
                  exists x | x in items :: d.Name(x.subject) == name && d.Deps(x.file) != []
      invariant forall name | name in refused :: ReadyRefused(reg, reg.cells, d, items, name)
      invariant !LostRead(reg.calls, from) ==> forall name | name in deferred :: Waits(reg.cells, d, items, name)
      invariant !LostRead(reg.calls, from) ==>
                  forall j | 0 <= j < i ::
                    if !Ready(reg.cells, d, items[j].file) then d.Name(items[j].subject) in deferred
                    else AcceptsItem(reg, reg.cells, d, items[j]) || d.Name(items[j].subject) in refused
    {
      var x := items[i];
      assert x in items;
      ghost var before := reg.calls;
      var ready := RefsReady(reg, d, x.file);
      LogGrows(before, reg.calls, from, "");
      if !ready {
        deferred := deferred + {d.Name(x.subject)};
      } else {
        before := reg.calls;
        var no := Ask(reg, d, x);
        LogGrows(before, reg.calls, from, "");
        if no.None? { failed := Some(d.Name(x.subject)); return; }
        if no.value { refused := refused + [d.Name(x.subject)]; }
      }
    }
  }

  // ----- registering -----------------------------------------------------

  /** register: None when it failed, else the version added, or none where the source was there already. */
  method Register(reg: Registry, name: string, source: string, refs: seq<Ref>)
    returns (version: Option<Option<nat>>, ghost added: set<Key>)
    modifies reg`cells, reg`calls
    ensures old(reg.calls) <= reg.calls && (version.None? ==> BadPut(reg.calls, |old(reg.calls)|, name))
    ensures Grown(old(reg.cells), reg.cells, added) && |added| <= 1 && forall k | k in added :: k.subject == name
    ensures Found(old(reg.cells), name, source, refs) ==> reg.cells == old(reg.cells)
    ensures version.Some? ==> (version.value.None? <==> Found(old(reg.cells), name, source, refs))
    ensures version == Some(None) ==> added == {}
    ensures version.Some? && version.value.Some? ==>
              added == {Key(name, version.value.value)} &&
              reg.cells[Key(name, version.value.value)] == Cell(source, refs, true)
  {
    hide Found; hide Latest; hide BadPut;
    added := {};
    ghost var from := |reg.calls|;
    var held := reg.Lookup(name, source, refs);
    if held.None? { LastFailed(reg.calls, from, name); return None, {}; }
    if held.value { return Some(None), {}; }
    var fate;
    fate, added := reg.Post(name, source, refs);
    if fate != Done { LastFailed(reg.calls, from, name); return None, added; }
    var latest := reg.GetLatest(name);
    if latest.None? { LastFailed(reg.calls, from, name); return None, added; }
    ghost var k :| k in added;
    OnlyOne(added, k);
    assert k == Key(name, latest.value.value);
    return Some(latest.value), added;
  }

  /** put: `created'` is None when it failed; a version added then but never named is in `stray`. */
  method Put(reg: Registry, d: Declaration, x: Item, created: seq<Key>, ghost found: Cells)
    returns (created': Option<seq<Key>>, ghost stray: set<Key>)
    requires Own(found, reg.cells, created)
    modifies reg`cells, reg`calls
    ensures old(reg.calls) <= reg.calls
    ensures created'.None? ==> BadPut(reg.calls, |old(reg.calls)|, d.Name(x.subject))
    ensures Registered(old(reg.cells), d, x) ==> reg.cells == old(reg.cells)
    ensures created'.Some? ==> Own(found, reg.cells, created'.value) &&
                               Placed(d, x, old(reg.cells), reg.cells, created, created'.value)
    ensures created'.None? ==> Grown(found, reg.cells, Keys(created) + stray) && |stray| <= 1 &&
                               forall k | k in stray :: k.subject == d.Name(x.subject)
  {
    hide Found; hide RefsOf; hide Latest; hide LostRead; hide BadPut; hide Went; hide Own;
    stray := {};
    var name, source := d.Name(x.subject), d.Source(x.file);
    ghost var before, from := reg.cells, |reg.calls|;
    OwnGrown(found, before, created);
    var refs := ReferenceList(reg, d, x.file);
    if refs.None? { LostIsBad(reg.calls, from, name); return None, {}; }
    ghost var log := reg.calls;
    var version, added := Register(reg, name, source, refs.value);
    LogGrows(log, reg.calls, from, name);
    GrownTwice(found, before, reg.cells, Keys(created), added);
    if version.None? { return None, added; }
    if version.value.None? {
      assert before == reg.cells;
      return Some(created), {};
    }
    ghost var k := Key(name, version.value.value);
    created' := Some(created + [Key(name, version.value.value)]);
    OwnMore(found, before, reg.cells, created, k);
    HasIt(reg.cells, k, source, refs.value);
  }

  lemma OwnGrown(found: Cells, now: Cells, created: seq<Key>)
    requires Own(found, now, created)
    ensures Grown(found, now, Keys(created)) && Grown(found, now, Keys(created) + {})
  {
    assert Keys(created) + {} == Keys(created);
  }

  lemma LostIsBad(calls: seq<Call>, from: nat, subject: string)
    requires LostRead(calls, from)
    ensures BadPut(calls, from, subject)
  {
    var i :| from <= i < |calls| && calls[i].Read? && calls[i].Failed();
  }

  lemma OnlyOne(s: set<Key>, k: Key)
    requires |s| <= 1 && k in s
    ensures s == {k}
  {
    assert |s - {k}| == |s| - 1;
  }

  lemma HasIt(cells: Cells, k: Key, source: string, refs: seq<Ref>)
    requires k in cells && cells[k] == Cell(source, refs, true)
    ensures Found(cells, k.subject, source, refs)
  {
    assert Key(k.subject, k.version) == k;
  }

  lemma GrownTwice(a: Cells, b: Cells, c: Cells, x: set<Key>, y: set<Key>)
    requires Grown(a, b, x) && Grown(b, c, y)
    ensures Grown(a, c, x + y)
  {
  }

  lemma OwnMore(found: Cells, before: Cells, now: Cells, created: seq<Key>, k: Key)
    requires Own(found, before, created) && Grown(before, now, {k}) && now[k].live
    ensures Own(found, now, created + [k]) && Keys(created + [k]) - Keys(created) == {k}
    ensures Keys(created) <= Keys(created + [k]) && forall j | j in created + [k] && j !in created :: j == k
  {
    GrownTwice(found, before, now, Keys(created), {k});
    assert Keys(created + [k]) == Keys(created) + {k};
    assert k !in created;
  }

  // ----- rollback --------------------------------------------------------

  /** A rollback under way: `todo` not yet reached, `undone` gone and `left` left. */
  ghost predicate Undoing(found: Cells, now: Cells, todo: set<Key>, undone: set<Key>, left: set<Left>, sure: bool) {
    && (forall k | k in found :: k in now && now[k] == found[k])
    && (forall k | k in now :: k in found || k in todo || Left(k, true) in left || Left(k, false) in left)
    && (forall k | k in todo :: k !in found && k in now && now[k].live && k !in undone)
    && (forall l | l in left :: l.key !in found && l.key !in todo)
    && (forall k | k in undone :: k !in now)
    && (sure ==> forall l | l in left :: l.key in now && now[l.key].live == !l.hidden)
  }

  /** One version dealt with: gone, or left. */
  lemma UndoneStep(found: Cells, before: Cells, now: Cells, todo: set<Key>, undone: set<Key>, left: set<Left>,
                   sure: bool,
                   k0: Key)
    requires k0 in todo && Undoing(found, before, todo, undone, left, sure)
    requires k0 !in now && forall k | k in before && k != k0 :: k in now && now[k] == before[k]
    requires forall k | k in now :: k in before
    ensures Undoing(found, now, todo - {k0}, undone + {k0}, left, sure)
  {
  }

  lemma LeftStep(found: Cells, before: Cells, now: Cells, todo: set<Key>, undone: set<Key>, left: set<Left>, sure: bool,
                 l0: Left)
    requires l0.key in todo && Undoing(found, before, todo, undone, left, sure)
    requires forall k | k in before && k != l0.key :: k in now && now[k] == before[k]
    requires forall k | k in now :: k in before
    requires sure ==> l0.key in now && now[l0.key].live == !l0.hidden
    ensures Undoing(found, now, todo - {l0.key}, undone, left + {l0}, sure)
  {
  }

  function Lefts(left: seq<Left>): set<Left> { set l | l in left }

  lemma Front(created: seq<Key>, i: nat)
    requires 0 < i <= |created| && Distinct(created)
    ensures Keys(created[..i]) - {created[i - 1]} == Keys(created[..i - 1]) && created[i - 1] in Keys(created[..i])
    ensures Keys(created[i - 1..]) == Keys(created[i..]) + {created[i - 1]}
  {
    assert created[..i] == created[..i - 1] + [created[i - 1]];
    assert created[i - 1..] == [created[i - 1]] + created[i..];
  }

  lemma Appended(undone: seq<Key>, k: Key, left: seq<Left>, l: Left)
    ensures Keys(undone + [k]) == Keys(undone) + {k}
    ensures Lefts(left + [l]) == Lefts(left) + {l} && LeftKeys(left + [l]) == LeftKeys(left) + {l.key}
  {
  }

  lemma UndoStarts(found: Cells, now: Cells, created: seq<Key>, sure: bool)
    requires Own(found, now, created)
    ensures Undoing(found, now, Keys(created), Keys([]), Lefts([]), sure)
  {
  }

  lemma UndoEnds(found: Cells, now: Cells, undone: seq<Key>, left: seq<Left>, sure: bool)
    requires Undoing(found, now, {}, Keys(undone), Lefts(left), sure)
    ensures KeepsWithin(found, now, LeftKeys(left)) && forall k | k in undone :: k !in now
    ensures sure ==> Grown(found, now, LeftKeys(left))
    ensures sure ==> forall l | l in left :: l.key in now && now[l.key].live == !l.hidden
    ensures left == [] ==> now == found
  {
    assert forall l | l in left :: l in Lefts(left) && l.key in LeftKeys(left);
    assert forall l | l in Lefts(left) :: l in left;
    assert forall k | k in undone :: k in Keys(undone);
    forall k | k in now && k !in found ensures k in LeftKeys(left) {
      assert Left(k, true) in Lefts(left) || Left(k, false) in Lefts(left);
      assert Left(k, true).key == k && Left(k, false).key == k;
    }
    if left == [] {
      assert LeftKeys(left) == {};
      assert now.Keys == found.Keys;
    }
  }

  /** How one version's deletion went: softly and, that done, for good. */
  datatype Deal = Deal(key: Key, soft: Fate, hard: Fate)
  {
    function Made(): seq<Call> {
      [Removed(key, false, soft)] + if soft == Done then [Removed(key, true, hard)] else []
    }

    predicate Gone() { soft == Done && hard == Done }
  }

  function CallsOf(deals: seq<Deal>): seq<Call> {
    if deals == [] then [] else CallsOf(deals[..|deals| - 1]) + deals[|deals| - 1].Made()
  }

  function UndoneOf(deals: seq<Deal>): seq<Key> {
    if deals == [] then []
    else
      var x := deals[|deals| - 1];
      UndoneOf(deals[..|deals| - 1]) + if x.Gone() then [x.key] else []
  }

  function LeftOf(deals: seq<Deal>): seq<Left> {
    if deals == [] then []
    else
      var x := deals[|deals| - 1];
      LeftOf(deals[..|deals| - 1]) + if x.Gone() then [] else [Left(x.key, x.soft == Done)]
  }

  /** Newest first. */
  ghost predicate Newest(deals: seq<Deal>, created: seq<Key>) {
    |deals| <= |created| && forall i | 0 <= i < |deals| :: deals[i].key == created[|created| - 1 - i]
  }

  /** One version deleted: softly and, that done, for good. */
  method Discard(reg: Registry, key: Key) returns (deal: Deal)
    requires key in reg.cells && reg.cells[key].live
    modifies reg`cells, reg`calls
    ensures deal.key == key && reg.calls == old(reg.calls) + deal.Made()
    ensures forall k | k in old(reg.cells) && k != key :: k in reg.cells && reg.cells[k] == old(reg.cells)[k]
    ensures forall k | k in reg.cells :: k in old(reg.cells)
    ensures deal.Gone() ==> key !in reg.cells
    ensures !deal.Gone() && !reg.carriesOutLost ==> key in reg.cells && reg.cells[key].live == (deal.soft != Done)
  {
    var soft := reg.Delete(key, false);
    if soft != Done { return Deal(key, soft, Lost); }
    var hard := reg.Delete(key, true);
    return Deal(key, Done, hard);
  }

  /** Every version the run created is deleted, newest first: softly and, where that was done, for good. A
      version is undone when both were done and left when either was not, hidden when the soft one was. */
  method Rollback(reg: Registry, created: seq<Key>, ghost found: Cells)
    returns (undone: seq<Key>, left: seq<Left>, ghost deals: seq<Deal>)
    requires Own(found, reg.cells, created)
    modifies reg`cells, reg`calls
    ensures |deals| == |created| && Newest(deals, created) && reg.calls == old(reg.calls) + CallsOf(deals)
    ensures undone == UndoneOf(deals) && left == LeftOf(deals)
    ensures KeepsWithin(found, reg.cells, LeftKeys(left))
    ensures Keys(undone) + LeftKeys(left) == Keys(created) && forall k | k in undone :: k !in reg.cells
    ensures !reg.carriesOutLost ==> Grown(found, reg.cells, LeftKeys(left)) &&
                                    forall l | l in left :: l.key in reg.cells && reg.cells[l.key].live == !l.hidden
    ensures left == [] ==> reg.cells == found
    ensures (forall c | c in CallsOf(deals) :: !c.Failed()) ==> left == [] && reg.cells == found
  {
    hide Undoing; hide Keys; hide Lefts; hide LeftKeys; hide KeepsWithin; hide Grown; hide Own; hide Distinct;
    hide CallsOf; hide UndoneOf; hide LeftOf; hide Deal.Made;
    undone, left, deals := [], [], [];
    NoDeals();
    var i := |created|;
    ghost var sure := !reg.carriesOutLost;
    assert created[..i] == created && created[i..] == [];
    UndoStarts(found, reg.cells, created, sure);
    NoKeys(found, reg.cells, created);
    while i > 0
      invariant 0 <= i <= |created| && |deals| == |created| - i && Newest(deals, created)
      invariant reg.calls == old(reg.calls) + CallsOf(deals) && undone == UndoneOf(deals) && left == LeftOf(deals)
      invariant Undoing(found, reg.cells, Keys(created[..i]), Keys(undone), Lefts(left), sure)
      invariant Keys(undone) + LeftKeys(left) == Keys(created[i..])
    {
      ghost var before, todo := reg.cells, Keys(created[..i]);
      var key := created[i - 1];
      Front(created, i);
      InView(found, before, todo, Keys(undone), Lefts(left), sure, key);
      var deal := Discard(reg, key);
      DealsMore(deals, deal);
      var l := Left(key, deal.soft == Done);
      Appended(undone, key, left, l);
      if deal.Gone() {
        UndoneStep(found, before, reg.cells, todo, Keys(undone), Lefts(left), sure, key);
        undone := undone + [key];
      } else {
        LeftStep(found, before, reg.cells, todo, Keys(undone), Lefts(left), sure, l);
        left := left + [l];
      }
      deals := deals + [deal];
      i := i - 1;
    }
    assert created[..0] == [] && created[0..] == created;
    UndoEnds(found, reg.cells, undone, left, sure);
    AllGone(deals);
  }

  lemma NoDeals()
    ensures CallsOf([]) == [] && UndoneOf([]) == [] && LeftOf([]) == []
  {
  }

  lemma DealsMore(deals: seq<Deal>, x: Deal)
    ensures CallsOf(deals + [x]) == CallsOf(deals) + x.Made()
    ensures UndoneOf(deals + [x]) == UndoneOf(deals) + if x.Gone() then [x.key] else []
    ensures LeftOf(deals + [x]) == LeftOf(deals) + if x.Gone() then [] else [Left(x.key, x.soft == Done)]
  {
    assert (deals + [x])[..|deals|] == deals;
  }

  /** The call that failed is there for each version left: its soft deletion, or the one for good after the
      soft one was done. */
  ghost predicate LeftFailed(made: seq<Call>, l: Left) {
    && (exists f :: f != Done && Removed(l.key, l.hidden, f) in made)
    && (l.hidden ==> Removed(l.key, false, Done) in made)
  }

  lemma {:induction false} LeftOnlyFailed(deals: seq<Deal>, l: Left)
    requires l in LeftOf(deals)
    ensures LeftFailed(CallsOf(deals), l)
  {
    var n := |deals| - 1;
    var x := deals[n];
    if l in LeftOf(deals[..n]) {
      LeftOnlyFailed(deals[..n], l);
      var f :| f != Done && Removed(l.key, l.hidden, f) in CallsOf(deals[..n]);
      assert Removed(l.key, l.hidden, f) in CallsOf(deals);
    } else {
      assert l == Left(x.key, x.soft == Done);
      var f := if x.soft == Done then x.hard else x.soft;
      assert x.Made()[0] == Removed(x.key, false, x.soft);
      assert x.soft == Done ==> x.Made()[1] == Removed(x.key, true, x.hard);
      assert Removed(l.key, l.hidden, f) in x.Made();
      assert Removed(l.key, l.hidden, f) in CallsOf(deals);
    }
  }

  /** A rollback none of whose deletions fails leaves nothing. */
  lemma {:induction false} AllGone(deals: seq<Deal>)
    ensures LeftOf(deals) == [] <==> forall c | c in CallsOf(deals) :: !c.Failed()
  {
    if deals != [] {
      var x := deals[|deals| - 1];
      AllGone(deals[..|deals| - 1]);
      var front, made := CallsOf(deals[..|deals| - 1]), x.Made();
      assert CallsOf(deals) == front + made;
      assert forall c :: c in front + made <==> c in front || c in made;
      assert made[0] == Removed(x.key, false, x.soft) && made[0] in made;
      assert x.soft == Done ==> made[1] == Removed(x.key, true, x.hard) && made[1] in made;
    }
  }

  lemma NoKeys(found: Cells, now: Cells, created: seq<Key>)
    requires Own(found, now, created)
    ensures Keys([]) == {} && LeftKeys([]) == {} && Distinct(created)
  {
  }

  lemma InView(found: Cells, now: Cells, todo: set<Key>, undone: set<Key>, left: set<Left>, sure: bool, k: Key)
    requires k in todo && Undoing(found, now, todo, undone, left, sure)
    ensures k in now && now[k].live
  {
  }

  // ----- the four phases -------------------------------------------------

  /** An added version is an item's, as declared, with the references the item has in `held`. */
  ghost predicate ItemsCell(d: Declaration, x: Item, k: Key, cell: Cell, held: Cells) {
    k.subject == d.Name(x.subject) && cell == Cell(d.Source(x.file), RefsOf(held, d, x.file), true)
  }

  ghost predicate Explained(d: Declaration, items: seq<Item>, now: Cells, created: seq<Key>, held: Cells) {
    forall k | k in created && k in now :: exists x | x in items :: ItemsCell(d, x, k, now[k], held)
  }

  /** Phase 2, `i` references in. */
  ghost predicate Phase2(d: Declaration, found: Cells, now: Cells, created: seq<Key>, i: nat)
    requires i <= |d.references|
  {
    && Own(found, now, created)
    && (InSync(found, d) ==> now == found)
    && (d.Checked() ==>
          && Explained(d, d.references, now, created, found)
          && (forall r | r in d.references[..i] :: Registered(now, d, r))
          && forall r | r in d.references && Registered(found, d, r) :: SameAt(found, now, d.Name(r.subject)))
  }

  /** A reference imports nothing, so its references are none, whatever is registered. */
  lemma ReferenceRefs(d: Declaration, r: Item, a: Cells)
    requires d.Checked() && r in d.references
    ensures RefsOf(a, d, r.file) == []
  {
  }

  /** What Put promises of one item. */
  ghost predicate Placed(d: Declaration, x: Item, before: Cells, now: Cells, created: seq<Key>, created': seq<Key>) {
    && Found(now, d.Name(x.subject), d.Source(x.file), RefsOf(before, d, x.file))
    && (Registered(before, d, x) ==> now == before)
    && Grown(before, now, Keys(created') - Keys(created)) && Keys(created) <= Keys(created')
    && forall k | k in created' && k !in created :: k in now && ItemsCell(d, x, k, now[k], before)
  }

  lemma PlacedElsewhere(d: Declaration, x: Item, before: Cells, now: Cells, created: seq<Key>, created': seq<Key>,
                        subject: string)
    requires Placed(d, x, before, now, created, created') && subject != d.Name(x.subject)
    ensures SameAt(before, now, subject)
  {
    hide Found; hide RefsOf; hide SameAt;
    assert forall k | k in Keys(created') - Keys(created) :: k in created' && k !in created;
    GrownElsewhere(before, now, Keys(created') - Keys(created), subject);
  }

  lemma ExplainedMore(d: Declaration, items: seq<Item>, x: Item, before: Cells, now: Cells, created: seq<Key>,
                      created': seq<Key>,
                      held: Cells)
    requires Explained(d, items, before, created, held) && Placed(d, x, before, now, created, created') && x in items
    requires RefsOf(before, d, x.file) == RefsOf(held, d, x.file) && forall k | k in created :: k in before
    ensures Explained(d, items, now, created', held)
  {
    hide Found; hide RefsOf; hide Keys;
  }

  lemma Phase2Step(d: Declaration, found: Cells, before: Cells, now: Cells, created: seq<Key>, created': seq<Key>,
                   i: nat)
    requires i < |d.references| && Phase2(d, found, before, created, i) && Own(found, now, created')
    requires Placed(d, d.references[i], before, now, created, created')
    ensures Phase2(d, found, now, created', i + 1)
  {
    hide Own; hide Placed; hide Explained; hide Registered; hide SameAt; hide RefsOf; hide Declaration.Checked;
    hide InSync;
    var x := d.references[i];
    assert x in d.references;
    PlacedFacts(d, x, before, now, created, created');
    OwnFacts(found, before, created);
    if InSync(found, d) { SyncHas(found, d, x); }
    if d.Checked() {
      ReferenceRefs(d, x, before);
      ReferenceRefs(d, x, found);
      ReferenceRefs(d, x, now);
      ExplainedMore(d, d.references, x, before, now, created, created', found);
      forall r | r in d.references[..i + 1] ensures Registered(now, d, r) {
        if r != x {
          assert r in d.references[..i];
          ReferenceRefs(d, r, before);
          ReferenceRefs(d, r, now);
          RegisteredStays(d, r, before, now);
        }
      }
      forall r | r in d.references && Registered(found, d, r) ensures SameAt(found, now, d.Name(r.subject)) {
        KeptReference(d, r, x, found, before, now, created, created');
      }
    }
  }

  /** A reference registered as declared before the run is left as it was. */
  lemma KeptReference(d: Declaration, r: Item, x: Item, found: Cells, before: Cells, now: Cells, created: seq<Key>,
                      created': seq<Key>)
    requires d.Checked() && r in d.references && x in d.references && Registered(found, d, r)
    requires SameAt(found, before, d.Name(r.subject)) && Placed(d, x, before, now, created, created')
    ensures SameAt(found, now, d.Name(r.subject))
  {
    hide Placed; hide RefsOf; hide SameAt;
    ReferenceRefs(d, r, found);
    ReferenceRefs(d, r, before);
    if r.subject == x.subject {
      FoundThere(found, before, d.Name(r.subject), d.Source(r.file), []);
      PlacedFacts(d, x, before, now, created, created');
    } else {
      NamesDiffer(d, r.subject, x.subject);
      PlacedElsewhere(d, x, before, now, created, created', d.Name(r.subject));
      SameTrans(found, before, now, d.Name(r.subject));
    }
  }

  lemma FoundThere(a: Cells, b: Cells, subject: string, source: string, refs: seq<Ref>)
    requires Found(a, subject, source, refs) && SameAt(a, b, subject)
    ensures Found(b, subject, source, refs)
  {
  }

  lemma PlacedFacts(d: Declaration, x: Item, before: Cells, now: Cells, created: seq<Key>, created': seq<Key>)
    requires Placed(d, x, before, now, created, created')
    ensures Registered(before, d, x) ==> now == before
    ensures RefsOf(now, d, x.file) == RefsOf(before, d, x.file) ==> Registered(now, d, x)
    ensures forall k | k in before :: k in now && now[k] == before[k]
  {
    hide RefsOf; hide Found;
  }

  lemma OwnFacts(found: Cells, now: Cells, created: seq<Key>)
    requires Own(found, now, created)
    ensures forall k | k in created :: k in now
  {
  }

  lemma SyncHas(found: Cells, d: Declaration, x: Item)
    requires InSync(found, d) && (x in d.references || x in d.subjects)
    ensures Registered(found, d, x)
  {
    assert x in d.references + d.subjects;
  }

  lemma RegisteredStays(d: Declaration, x: Item, a: Cells, b: Cells)
    requires Registered(a, d, x) && RefsOf(a, d, x.file) == RefsOf(b, d, x.file)
    requires forall k | k in a :: k in b && b[k] == a[k]
    ensures Registered(b, d, x)
  {
    hide RefsOf;
    FoundStays(a, b, d.Name(x.subject), d.Source(x.file), RefsOf(a, d, x.file));
  }

  /** Once the references are registered: what phase 4 keeps, `i` subjects in. */
  ghost predicate Phase4(d: Declaration, found: Cells, mid: Cells, now: Cells, created: seq<Key>, i: nat)
    requires i <= |d.subjects|
  {
    && Own(found, now, created)
    && (InSync(found, d) ==> now == found)
    && (d.Checked() ==>
          && Explained(d, d.references + d.subjects, now, created, mid)
          && (forall r | r in d.references :: Registered(now, d, r) && SameAt(mid, now, d.Name(r.subject)))
          && forall s | s in d.subjects[..i] :: Registered(now, d, s))
  }

  /** Two registries alike at the references' subjects give a declared subject the same references. */
  lemma SubjectRefs(d: Declaration, s: Item, a: Cells, b: Cells)
    requires d.Checked() && s in d.subjects
    requires forall dep | dep in d.Deps(s.file) :: SameAt(a, b, d.Name(dep))
    ensures RefsOf(a, d, s.file) == RefsOf(b, d, s.file)
  {
    hide SameAt;
    RefsSame(a, b, d, d.Deps(s.file));
  }

  lemma SubjectRefsAll(d: Declaration, s: Item, a: Cells, b: Cells)
    requires d.Checked() && s in d.subjects
    requires forall r | r in d.references :: SameAt(a, b, d.Name(r.subject))
    ensures RefsOf(a, d, s.file) == RefsOf(b, d, s.file)
  {
    hide SameAt;
    forall dep | dep in d.Deps(s.file) ensures SameAt(a, b, d.Name(dep)) {
      var r :| r in d.references && r.file == dep;
    }
    SubjectRefs(d, s, a, b);
  }

  lemma Phase4Starts(d: Declaration, found: Cells, mid: Cells, created: seq<Key>)
    requires Phase2(d, found, mid, created, |d.references|)
    ensures Phase4(d, found, mid, mid, created, 0)
  {
    hide Own; hide Registered; hide RefsOf; hide Declaration.Checked; hide InSync;
    assert d.references[..|d.references|] == d.references;
    if d.Checked() {
      forall k | k in created && k in mid
        ensures exists x | x in d.references + d.subjects :: ItemsCell(d, x, k, mid[k], mid)
      {
        var x :| x in d.references && ItemsCell(d, x, k, mid[k], found);
        ReferenceRefs(d, x, found);
        ReferenceRefs(d, x, mid);
        assert ItemsCell(d, x, k, mid[k], mid) && x in d.references + d.subjects;
      }
    }
  }

  lemma Phase4Step(d: Declaration, found: Cells, mid: Cells, before: Cells, now: Cells, created: seq<Key>,
                   created': seq<Key>, i: nat)
    requires i < |d.subjects| && Phase4(d, found, mid, before, created, i) && Own(found, now, created')
    requires Placed(d, d.subjects[i], before, now, created, created')
    ensures Phase4(d, found, mid, now, created', i + 1)
  {
    hide Own; hide Placed; hide Explained; hide Registered; hide SameAt; hide RefsOf; hide Declaration.Checked;
    hide InSync;
    var x := d.subjects[i];
    assert x in d.subjects && x in d.references + d.subjects;
    PlacedFacts(d, x, before, now, created, created');
    OwnFacts(found, before, created);
    if InSync(found, d) { SyncHas(found, d, x); }
    if d.Checked() {
      forall r | r in d.references
        ensures SameAt(before, now, d.Name(r.subject)) && SameAt(mid, now, d.Name(r.subject))
      {
        Apart(d, r, x);
        PlacedElsewhere(d, x, before, now, created, created', d.Name(r.subject));
        SameTrans(mid, before, now, d.Name(r.subject));
      }
      SubjectRefsAll(d, x, mid, before);
      ExplainedMore(d, d.references + d.subjects, x, before, now, created, created', mid);
      forall r | r in d.references ensures Registered(now, d, r) {
        ReferenceRefs(d, r, before);
        ReferenceRefs(d, r, now);
        RegisteredStays(d, r, before, now);
      }
      SubjectRefsAll(d, x, before, now);
      forall s | s in d.subjects[..i + 1] ensures Registered(now, d, s) {
        if s != x {
          assert s in d.subjects[..i];
          SubjectRefsAll(d, s, before, now);
          RegisteredStays(d, s, before, now);
        }
      }
    }
  }

  lemma Apart(d: Declaration, r: Item, s: Item)
    requires d.Checked() && r in d.references && s in d.subjects
    ensures d.Name(r.subject) != d.Name(s.subject)
  {
    NamesDiffer(d, r.subject, s.subject);
  }

  /** Every added version was accepted against the registry as found, with the source and references it
      is registered with. */
  ghost predicate Justified(reg: Registry, d: Declaration, found: Cells, now: Cells, created: seq<Key>) {
    forall k | k in created :: k in now && reg.Accepts(found, k.subject, now[k].source, now[k].refs) &&
                               exists x | x in d.references + d.subjects :: ItemsCell(d, x, k, now[k], now)
  }

  /** Every item was accepted, with the references it has once the references are registered. */
  ghost predicate AllAccepted(reg: Registry, d: Declaration, found: Cells, mid: Cells) {
    forall x | x in d.references + d.subjects ::
      reg.Accepts(found, d.Name(x.subject), d.Source(x.file), RefsOf(mid, d, x.file))
  }

  /** An item asked in phase 1: its references are the ones it will be registered with. */
  lemma AskedEarly(reg: Registry, d: Declaration, found: Cells, mid: Cells, created: seq<Key>, x: Item)
    requires d.Checked() && Phase2(d, found, mid, created, |d.references|) && (x in d.references || x in d.subjects)
    requires Ready(found, d, x.file) && AcceptsItem(reg, found, d, x)
    ensures reg.Accepts(found, d.Name(x.subject), d.Source(x.file), RefsOf(mid, d, x.file))
  {
    hide Own; hide Explained; hide SameAt; hide InSync; hide Registry.Accepts;
    if x in d.references {
      ReferenceRefs(d, x, found);
      ReferenceRefs(d, x, mid);
    } else {
      forall dep | dep in d.Deps(x.file) ensures SameAt(found, mid, d.Name(dep)) {
        var r :| r in d.references && r.file == dep;
        assert Registered(found, d, r);
      }
      SubjectRefs(d, x, found, mid);
    }
  }

  /** A subject asked in phase 3: its latest version is still the one found. */
  lemma AskedLate(reg: Registry, d: Declaration, found: Cells, mid: Cells, created: seq<Key>, x: Item)
    requires d.Checked() && Phase2(d, found, mid, created, |d.references|) && x in d.subjects
    requires AcceptsItem(reg, mid, d, x)
    ensures reg.Accepts(found, d.Name(x.subject), d.Source(x.file), RefsOf(mid, d, x.file))
  {
    hide RefsOf; hide Phase2; hide Declaration.Checked; hide Latest;
    SubjectAsFound(d, found, mid, created, x);
    LatestSame(found, mid, d.Name(x.subject));
  }

  lemma Applies(reg: Registry, d: Declaration, found: Cells, mid: Cells, now: Cells, created: seq<Key>)
    requires d.Checked() && Phase4(d, found, mid, now, created, |d.subjects|) && AllAccepted(reg, d, found, mid)
    ensures InSync(now, d) && Justified(reg, d, found, now, created)
  {
    hide RefsOf; hide Registered; hide Declaration.Checked; hide Registry.Accepts; hide SameAt;
    assert d.subjects[..|d.subjects|] == d.subjects;
    OwnFacts(found, now, created);
    forall k | k in created
      ensures reg.Accepts(found, k.subject, now[k].source, now[k].refs) &&
              exists x | x in d.references + d.subjects :: ItemsCell(d, x, k, now[k], now)
    {
      var x :| x in d.references + d.subjects && ItemsCell(d, x, k, now[k], mid);
      if x in d.references {
        ReferenceRefs(d, x, mid);
        ReferenceRefs(d, x, now);
      } else {
        SubjectRefsAll(d, x, mid, now);
      }
      assert ItemsCell(d, x, k, now[k], now);
    }
  }

  // ----- apply_action ----------------------------------------------------

  ghost predicate LateRefused(reg: Registry, held: Cells, d: Declaration, deferred: set<string>, name: string) {
    name in deferred && RefusesItem(reg, held, d, d.subjects, name)
  }

  /** Phase 3: the importers that had to wait are asked; those refused are exactly the ones the registry
      refuses, unless an answer was lost. */
  method AskLate(reg: Registry, d: Declaration, deferred: set<string>) returns (failed: Option<string>,
                 refused: seq<string>)
    modifies reg`calls
    ensures old(reg.calls) <= reg.calls
    ensures failed.None? && refused == [] ==>
              forall x | x in d.subjects && d.Name(x.subject) in deferred :: AcceptsItem(reg, reg.cells, d, x)
    ensures forall name | name in refused :: LateRefused(reg, reg.cells, d, deferred, name)
    ensures failed.Some? ==> LostRead(reg.calls, |old(reg.calls)|)
    ensures failed.None? ==> forall name :: name in refused <==> LateRefused(reg, reg.cells, d, deferred, name)
  {
    hide AcceptsItem; hide LostRead; hide Went;
    failed, refused := None, [];
    ghost var from := |reg.calls|;
    for i := 0 to |d.subjects|
      invariant old(reg.calls) <= reg.calls
      invariant forall j | 0 <= j < i && d.Name(d.subjects[j].subject) in deferred ::
                  AcceptsItem(reg, reg.cells, d, d.subjects[j]) || d.Name(d.subjects[j].subject) in refused
      invariant forall name | name in refused :: LateRefused(reg, reg.cells, d, deferred, name)
    {
      var x := d.subjects[i];
      assert x in d.subjects;
      if d.Name(x.subject) in deferred {
        ghost var before := reg.calls;
        var no := Ask(reg, d, x);
        LogGrows(before, reg.calls, from, "");
        if no.None? { failed := Some(d.Name(x.subject)); return; }
        if no.value { refused := refused + [d.Name(x.subject)]; }
      }
    }
  }

  lemma AllAsked(reg: Registry, d: Declaration, found: Cells, mid: Cells, created: seq<Key>, deferred: set<string>)
    requires d.Checked() && Phase2(d, found, mid, created, |d.references|)
    requires forall x | x in d.references + d.subjects && d.Name(x.subject) !in deferred ::
               Ready(found, d, x.file) && AcceptsItem(reg, found, d, x)
    requires forall r | r in d.references :: d.Name(r.subject) !in deferred
    requires forall x | x in d.subjects && d.Name(x.subject) in deferred :: AcceptsItem(reg, mid, d, x)
    ensures AllAccepted(reg, d, found, mid)
  {
    hide Phase2; hide Ready; hide AcceptsItem; hide Registry.Accepts; hide RefsOf;
    forall x | x in d.references + d.subjects
      ensures reg.Accepts(found, d.Name(x.subject), d.Source(x.file), RefsOf(mid, d, x.file))
    {
      if d.Name(x.subject) in deferred {
        assert x in d.subjects;
        AskedLate(reg, d, found, mid, created, x);
      } else {
        AskedEarly(reg, d, found, mid, created, x);
      }
    }
  }

  lemma ReferencesDoNotWait(d: Declaration, deferred: set<string>)
    requires d.Checked()
    requires forall name | name in deferred ::
               exists x | x in d.references + d.subjects :: d.Name(x.subject) == name && d.Deps(x.file) != []
    ensures forall r | r in d.references :: d.Name(r.subject) !in deferred
  {
    forall r | r in d.references ensures d.Name(r.subject) !in deferred {
      forall x | x in d.references + d.subjects && d.Deps(x.file) != [] ensures d.Name(x.subject) != d.Name(r.subject) {
        NamesDiffer(d, x.subject, r.subject);
      }
    }
  }

  /** A subject whose declared source the registry as found refuses. */
  ghost predicate RefusedAsFound(reg: Registry, found: Cells, d: Declaration, name: string) {
    exists x: Item, refs: seq<Ref> ::
      x in d.subjects && d.Name(x.subject) == name && !reg.Accepts(found, name, d.Source(x.file), refs)
  }

  lemma LateRefusals(reg: Registry, d: Declaration, found: Cells, mid: Cells, created: seq<Key>, refused: seq<string>)
    requires d.Checked() && Phase2(d, found, mid, created, |d.references|)
    requires forall n | n in refused :: RefusesItem(reg, mid, d, d.subjects, n)
    ensures forall n | n in refused :: RefusedAsFound(reg, found, d, n)
  {
    hide Phase2; hide Declaration.Checked; hide RefsOf; hide Latest;
    forall n | n in refused ensures RefusedAsFound(reg, found, d, n) {
      var x :| x in d.subjects && d.Name(x.subject) == n && !AcceptsItem(reg, mid, d, x);
      SubjectAsFound(d, found, mid, created, x);
      LatestSame(found, mid, n);
      assert !reg.Accepts(found, n, d.Source(x.file), RefsOf(mid, d, x.file));
    }
  }

  /** Phase 2 adds nothing under a subject. */
  lemma SubjectAsFound(d: Declaration, found: Cells, mid: Cells, created: seq<Key>, x: Item)
    requires d.Checked() && Phase2(d, found, mid, created, |d.references|) && x in d.subjects
    ensures SameAt(found, mid, d.Name(x.subject))
  {
    hide RefsOf; hide InSync; hide Registered; hide Declaration.Checked;
    var name := d.Name(x.subject);
    forall k | k in Keys(created) ensures k.subject != name {
      assert k in created && k in mid;
      var r :| r in d.references && ItemsCell(d, r, k, mid[k], found);
      Apart(d, r, x);
    }
    GrownElsewhere(found, mid, Keys(created), name);
  }

  /** What a run leaves, by how it ended. */
  ghost predicate Leaves(reg: Registry, d: Declaration, found: Cells, now: Cells, out: Outcome) {
    match out
    case RefusedEarly(refused) =>
      && now == found && refused != []
      && (forall n | n in refused :: ReadyRefused(reg, found, d, d.references + d.subjects, n))
    case AskFailed(_) => now == found
    case RefusedLate(refused, undone, left) =>
      && Undone(reg, found, now, undone, left) && refused != []
      && (d.Checked() ==> forall n | n in refused :: RefusedAsFound(reg, found, d, n))
    case AskFailedLate(_, undone, left) => Undone(reg, found, now, undone, left)
    case PutFailed(subject, created) =>
      exists stray: set<Key> ::
        Grown(found, now, Keys(created) + stray) && |stray| <= 1 && forall k | k in stray :: k.subject == subject
    case ModeFailed(created) => Own(found, now, created)
    case Applied(created) =>
      Own(found, now, created) && (d.Checked() ==> InSync(now, d) && Justified(reg, d, found, now, created))
  }

  /** The registry as found but for the versions reported left, each really there unless a delete whose
      answer was lost had been carried out. */
  ghost predicate Undone(reg: Registry, found: Cells, now: Cells, undone: seq<Key>, left: seq<Left>) {
    && KeepsWithin(found, now, LeftKeys(left)) && (forall k | k in undone :: k !in now)
    && (left == [] ==> now == found)
    && (!reg.carriesOutLost ==> Grown(found, now, LeftKeys(left)) &&
                                forall l | l in left :: l.key in now && now[l.key].live == !l.hidden)
  }

  /** Phase 2: the references, each version the run adds recorded. */
  method PutReferences(reg: Registry, d: Declaration, ghost found: Cells) returns (failed: Option<string>,
                       created: seq<Key>)
    requires found == reg.cells
    modifies reg`cells, reg`calls
    ensures old(reg.calls) <= reg.calls
    ensures failed.Some? ==> BadPut(reg.calls, |old(reg.calls)|, failed.value)
    ensures failed.None? ==> Phase2(d, found, reg.cells, created, |d.references|)
    ensures failed.Some? ==>
              exists stray: set<Key> ::
                && Grown(found, reg.cells, Keys(created) + stray) && |stray| <= 1
                && forall k | k in stray :: k.subject == failed.value
    ensures forall k | k in found :: k in reg.cells && reg.cells[k] == found[k]
    ensures InSync(found, d) ==> reg.cells == found
  {
    hide Phase2; hide Own; hide Placed; hide InSync; hide Registered; hide Keys; hide Grown; hide KeepsWithin;
    hide BadPut;
    created := [];
    Phase2Starts(d, found);
    for i := 0 to |d.references|
      invariant Phase2(d, found, reg.cells, created, i) && old(reg.calls) <= reg.calls
    {
      ghost var before, log := reg.cells, reg.calls;
      Phase2Owns(d, found, before, created, i);
      var created', stray := Put(reg, d, d.references[i], created, found);
      LogGrows(log, reg.calls, |old(reg.calls)|, d.Name(d.references[i].subject));
      if created'.None? {
        PutFails(d, found, before, reg.cells, created, stray, d.references[i]);
        return Some(d.Name(d.references[i].subject)), created;
      }
      Phase2Step(d, found, before, reg.cells, created, created'.value, i);
      created := created'.value;
    }
    Phase2Owns(d, found, reg.cells, created, |d.references|);
    failed := None;
  }

  /** Phase 3: the importers that waited are asked, and a refusal or a failure undoes phase 2. None when the
      run goes on. */
  method Settle(reg: Registry, d: Declaration, deferred: set<string>, created: seq<Key>, ghost found: Cells,
                ghost mid: Cells)
    returns (out: Option<Outcome>)
    requires reg.cells == mid && Phase2(d, found, mid, created, |d.references|)
    modifies reg`cells, reg`calls
    ensures old(reg.calls) <= reg.calls
    ensures out.None? ==> reg.cells == mid &&
                          forall x | x in d.subjects && d.Name(x.subject) in deferred :: AcceptsItem(reg, mid, d, x)
    ensures out.Some? ==>
              && (out.value.RefusedLate? || out.value.AskFailedLate?)
              && Leaves(reg, d, found, reg.cells, out.value) && Blamed(reg.calls, |old(reg.calls)|, out.value)
              && (forall k | k in found :: k in reg.cells && reg.cells[k] == found[k])
              && (InSync(found, d) ==> reg.cells == found)
    ensures out.Some? && out.value.RefusedLate? ==>
              forall n :: n in out.value.refused <==> LateRefused(reg, mid, d, deferred, n)
  {
    hide Phase2; hide Own; hide InSync; hide Declaration.Checked; hide LostRead; hide LeftFailed; hide AcceptsItem;
    hide Keys; hide Grown; hide KeepsWithin; hide RefusedAsFound; hide CallsOf; hide LeftOf; hide UndoneOf; hide Newest;
    hide RefusesItem; hide Went;
    Phase2Owns(d, found, mid, created, |d.references|);
    ghost var from := |reg.calls|;
    var failed, refused := AskLate(reg, d, deferred);
    if failed.None? && refused == [] { return None; }
    ghost var log := reg.calls;
    var undone, left, deals := Rollback(reg, created, found);
    LogGrows(log, reg.calls, from, "");
    BlameLeft(log, reg.calls, from, deals);
    RolledBack(d, found, reg.cells, created, undone, left, mid);
    if d.Checked() { LateRefusals(reg, d, found, mid, created, refused); }
    return Some(if failed.Some? then AskFailedLate(failed.value, undone, left)
                else RefusedLate(refused, undone, left));
  }

  /** apply. With no call failing, a run is applied or refused; it is refused before it registers anything
      exactly when an item it can ask about is, naming just those, and a later refusal leaves the registry as
      found. */
  method Apply(reg: Registry, d: Declaration) returns (out: Outcome)
    modifies reg
    ensures Leaves(reg, d, old(reg.cells), reg.cells, out)
    ensures forall k | k in old(reg.cells) :: k in reg.cells && reg.cells[k] == old(reg.cells)[k]
    ensures InSync(old(reg.cells), d) ==> reg.cells == old(reg.cells)
    ensures out.RefusedEarly? || out.AskFailed? ==> reg.modes == old(reg.modes)
    ensures out.RefusedLate? || out.AskFailedLate? ==> reg.modes == old(reg.modes)
    ensures out.Applied? ==> reg.modes == Modes(old(reg.modes), d)
    ensures old(reg.calls) <= reg.calls && Blamed(reg.calls, |old(reg.calls)|, out)
    ensures Went(reg.calls, |old(reg.calls)|) ==>
              && (out.Applied? || out.RefusedEarly? || out.RefusedLate?)
              && (out.RefusedLate? ==> out.left == [] && reg.cells == old(reg.cells))
              && (out.RefusedEarly? ==>
                    forall n ::
                      n in out.refused <==> ReadyRefused(reg, old(reg.cells), d, d.references + d.subjects, n))
              && (!out.RefusedEarly? ==>
                    forall n :: !ReadyRefused(reg, old(reg.cells), d, d.references + d.subjects, n))
  {
    hide Phase2; hide Phase4; hide Own; hide Placed; hide InSync; hide Registered; hide Declaration.Checked;
    hide LostRead; hide BadPut; hide BadMode; hide Went; hide LeftFailed; hide LateRefused; hide Blamed;
    hide Ready; hide AcceptsItem; hide AllAccepted; hide Justified; hide Keys; hide Grown; hide KeepsWithin;
    hide SetModes; hide RefusesItem; hide RefusedAsFound; hide ReadyRefused; hide Waits;
    ghost var from, found := |reg.calls|, reg.cells;
    var failed, refused, deferred := AskReady(reg, d, d.references + d.subjects);
    ghost var asked := reg.calls;
    if failed.Some? {
      out := AskFailed(failed.value);
      ReadBlamed(reg.calls, from, out);
      return;
    }
    if refused != [] {
      out := RefusedEarly(refused);
      NoneBlamed(reg.calls, from, from, asked, out);
      return;
    }
    var failedPut, created := PutReferences(reg, d, found);
    if failedPut.Some? {
      out := PutFailed(failedPut.value, created);
      PutBlamed(reg.calls, |asked|, out);
      NoneBlamed(reg.calls, from, |asked|, asked, out);
      return;
    }
    ghost var mid, put := reg.cells, reg.calls;
    Phase2Owns(d, found, mid, created, |d.references|);
    var settled := Settle(reg, d, deferred, created, found, mid);
    if settled.Some? {
      out := settled.value;
      NoneBlamed(reg.calls, from, |put|, asked, out);
      return;
    }
    ghost var late := reg.calls;
    if d.Checked() {
      ReferencesDoNotWait(d, deferred);
      AllAsked(reg, d, found, mid, created, deferred);
    }
    Phase4Starts(d, found, mid, created);
    out := PutSubjects(reg, d, created, found, mid);
    NoneBlamed(reg.calls, from, |late|, asked, out);
  }

  /** A run that neither applied nor was refused had a call fail, and one that left a version behind had its
      deletion fail. */
  ghost predicate Blamed(calls: seq<Call>, from: nat, out: Outcome)
    requires from <= |calls|
  {
    match out
    case RefusedEarly(_) => true
    case Applied(_) => true
    case AskFailed(_) => LostRead(calls, from)
    case PutFailed(subject, _) => BadPut(calls, from, subject)
    case ModeFailed(_) => BadMode(calls, from)
    case RefusedLate(_, _, left) => forall l | l in left :: LeftFailed(calls[from..], l)
    case AskFailedLate(_, _, left) => LostRead(calls, from) && forall l | l in left :: LeftFailed(calls[from..], l)
  }

  lemma ReadBlamed(calls: seq<Call>, from: nat, out: Outcome)
    requires from <= |calls| && LostRead(calls, from) && out.AskFailed?
    ensures Blamed(calls, from, out) && !Went(calls, from)
  {
    var i :| from <= i < |calls| && calls[i].Read? && calls[i].Failed();
  }

  lemma PutBlamed(calls: seq<Call>, from: nat, out: Outcome)
    requires from <= |calls| && out.PutFailed? && BadPut(calls, from, out.subject)
    ensures Blamed(calls, from, out)
  {
  }

  /** Blame counts from any earlier call, and there is none when every call went. */
  lemma NoneBlamed(calls: seq<Call>, from: nat, later: nat, asked: seq<Call>, out: Outcome)
    requires from <= later <= |calls| && (out.RefusedEarly? || Blamed(calls, later, out)) && asked <= calls
    requires from <= |asked|
    ensures Blamed(calls, from, out)
    ensures Went(calls, from) ==> out.Applied? || out.RefusedEarly? || (out.RefusedLate? && out.left == [])
    ensures Went(calls, from) ==> !LostRead(asked, from)
  {
    LogGrows(asked, calls, from, "");
    if out.PutFailed? || out.ModeFailed? || out.AskFailed? || out.AskFailedLate? {
      assert exists i | later <= i < |calls| :: calls[i].Failed();
    }
    if out.RefusedLate? || out.AskFailedLate? {
      forall l | l in out.left ensures LeftFailed(calls[from..], l) && !Went(calls, from) {
        LeftSooner(calls, from, later, l);
      }
      assert out.left != [] ==> out.left[0] in out.left;
    }
  }

  lemma LeftSooner(calls: seq<Call>, from: nat, later: nat, l: Left)
    requires from <= later <= |calls| && LeftFailed(calls[later..], l)
    ensures LeftFailed(calls[from..], l) && !Went(calls, from)
  {
    var f :| f != Done && Removed(l.key, l.hidden, f) in calls[later..];
    var i :| 0 <= i < |calls[later..]| && calls[later..][i] == Removed(l.key, l.hidden, f);
    assert calls[later + i] == Removed(l.key, l.hidden, f);
    assert calls[later..] == calls[from..][later - from..];
    assert Removed(l.key, l.hidden, f) in calls[from..];
  }

  lemma BlameLeft(log: seq<Call>, calls: seq<Call>, from: nat, deals: seq<Deal>)
    requires from <= |log| && calls == log + CallsOf(deals)
    ensures forall l | l in LeftOf(deals) :: LeftFailed(calls[from..], l)
  {
    var made := CallsOf(deals);
    hide CallsOf; hide LeftOf;
    assert calls[from..] == log[from..] + made;
    forall l | l in LeftOf(deals) ensures LeftFailed(calls[from..], l) {
      LeftOnlyFailed(deals, l);
      var f :| f != Done && Removed(l.key, l.hidden, f) in made;
      assert Removed(l.key, l.hidden, f) in calls[from..];
    }
  }

  /** The global mode and the references'. */
  method ModeReferences(reg: Registry, d: Declaration) returns (done: bool)
    modifies reg`modes, reg`calls
    ensures old(reg.calls) <= reg.calls
    ensures done ==> reg.modes == SetModes(old(reg.modes)[None := d.mode], d, d.references)
    ensures !done ==> BadMode(reg.calls, |old(reg.calls)|)
  {
    hide SetModes; hide BadMode;
    ghost var modes, from := reg.modes, |reg.calls|;
    var fate := reg.SetMode(None, d.mode);
    if fate != Done { LastFailed(reg.calls, from, ""); return false; }
    ModesStart(modes, d);
    for i := 0 to |d.references|
      invariant reg.modes == SetModes(modes[None := d.mode], d, d.references[..i]) && old(reg.calls) <= reg.calls
    {
      fate := reg.SetMode(Some(d.Name(d.references[i].subject)), d.mode);
      if fate != Done { LastFailed(reg.calls, from, ""); return false; }
      ModesStep(modes[None := d.mode], d, d.references, i);
    }
    assert d.references[..|d.references|] == d.references;
    return true;
  }

  /** Phase 4: the modes and the subjects, once every question is answered. */
  method PutSubjects(reg: Registry, d: Declaration, created0: seq<Key>, ghost found: Cells, ghost mid: Cells)
    returns (out: Outcome)
    requires reg.cells == mid && Phase4(d, found, mid, mid, created0, 0)
    requires d.Checked() ==> AllAccepted(reg, d, found, mid)
    modifies reg
    ensures old(reg.calls) <= reg.calls
    ensures out.PutFailed? || out.ModeFailed? || out.Applied?
    ensures Blamed(reg.calls, |old(reg.calls)|, out)
    ensures Leaves(reg, d, found, reg.cells, out)
    ensures forall k | k in found :: k in reg.cells && reg.cells[k] == found[k]
    ensures InSync(found, d) ==> reg.cells == found
    ensures out.Applied? ==> reg.modes == Modes(old(reg.modes), d)
  {
    hide Phase2; hide Phase4; hide Own; hide Placed; hide InSync; hide Registered; hide Declaration.Checked;
    hide AllAccepted; hide Justified; hide Keys; hide Grown; hide KeepsWithin; hide SetModes; hide Undone;
    hide BadPut; hide BadMode;
    ghost var modes := reg.modes;
    ghost var from := |reg.calls|;
    var created := created0;
    Phase4Owns(d, found, mid, mid, created, 0);
    var moded := ModeReferences(reg, d);
    if !moded { return ModeFailed(created); }
    ghost var between := reg.modes;
    NoModes(between, d);
    for i := 0 to |d.subjects|
      invariant Phase4(d, found, mid, reg.cells, created, i) && reg.modes == SetModes(between, d, d.subjects[..i])
      invariant old(reg.calls) <= reg.calls
    {
      ghost var before, log := reg.cells, reg.calls;
      Phase4Owns(d, found, mid, before, created, i);
      var created', stray := Put(reg, d, d.subjects[i], created, found);
      LogGrows(log, reg.calls, from, d.Name(d.subjects[i].subject));
      if created'.None? {
        PutFails4(d, found, mid, before, reg.cells, created, stray, i);
        return PutFailed(d.Name(d.subjects[i].subject), created);
      }
      Phase4Step(d, found, mid, before, reg.cells, created, created'.value, i);
      created := created'.value;
      Phase4Owns(d, found, mid, reg.cells, created, i + 1);
      var fate := reg.SetMode(Some(d.Name(d.subjects[i].subject)), d.mode);
      if fate != Done { LastFailed(reg.calls, from, ""); return ModeFailed(created); }
      ModesStep(between, d, d.subjects, i);
    }
    Phase4Owns(d, found, mid, reg.cells, created, |d.subjects|);
    assert d.subjects[..|d.subjects|] == d.subjects;
    if d.Checked() { Applies(reg, d, found, mid, reg.cells, created); }
    return Applied(created);
  }

  /** The modes set for a list of items. */
  function SetModes(modes: map<Option<string>, string>, d: Declaration, items: seq<Item>): map<Option<string>, string> {
    if items == [] then modes
    else SetModes(modes, d, items[..|items| - 1])[Some(d.Name(items[|items| - 1].subject)) := d.mode]
  }

  /** Every mode a completed run sets: the global one and each subject's. */
  function Modes(modes: map<Option<string>, string>, d: Declaration): map<Option<string>, string> {
    SetModes(SetModes(modes[None := d.mode], d, d.references), d, d.subjects)
  }

  lemma ModesStart(modes: map<Option<string>, string>, d: Declaration)
    ensures SetModes(modes[None := d.mode], d, d.references[..0]) == modes[None := d.mode]
  {
  }

  lemma NoModes(modes: map<Option<string>, string>, d: Declaration)
    ensures SetModes(modes, d, d.subjects[..0]) == modes
  {
  }

  lemma ModesStep(modes: map<Option<string>, string>, d: Declaration, items: seq<Item>, i: nat)
    requires i < |items|
    ensures SetModes(modes, d, items[..i + 1]) ==
            SetModes(modes, d, items[..i])[Some(d.Name(items[i].subject)) := d.mode]
  {
    assert items[..i + 1][..i] == items[..i];
  }

  lemma {:induction false} SetModesAre(modes: map<Option<string>, string>, d: Declaration, items: seq<Item>,
                                       k: Option<string>)
    ensures var set_ := exists x | x in items :: k == Some(d.Name(x.subject));
            && (k in SetModes(modes, d, items) <==> k in modes || set_)
            && (k in SetModes(modes, d, items) ==>
                  SetModes(modes, d, items)[k] == if set_ then d.mode else modes[k])
  {
    if items != [] {
      var front, last := items[..|items| - 1], items[|items| - 1];
      SetModesAre(modes, d, front, k);
      assert items == front + [last];
      assert forall x :: x in items <==> x in front || x == last;
    }
  }

  /** The modes a completed run leaves: the declared one globally and for every declared subject, and every
      other as it was. */
  lemma ModesAre(modes: map<Option<string>, string>, d: Declaration, k: Option<string>)
    ensures var declared := k == None || exists x | x in d.references + d.subjects :: k == Some(d.Name(x.subject));
            && (k in Modes(modes, d) <==> k in modes || declared)
            && (k in Modes(modes, d) ==> Modes(modes, d)[k] == if declared then d.mode else modes[k])
  {
    var first := SetModes(modes[None := d.mode], d, d.references);
    SetModesAre(modes[None := d.mode], d, d.references, k);
    SetModesAre(first, d, d.subjects, k);
    hide SetModes;
    assert forall x :: x in d.references + d.subjects <==> x in d.references || x in d.subjects;
  }

  lemma Phase2Starts(d: Declaration, found: Cells)
    ensures Phase2(d, found, found, [], 0)
  {
  }

  lemma Phase2Owns(d: Declaration, found: Cells, now: Cells, created: seq<Key>, i: nat)
    requires i <= |d.references| && Phase2(d, found, now, created, i)
    ensures Own(found, now, created) && (InSync(found, d) ==> now == found)
    ensures forall k | k in found :: k in now && now[k] == found[k]
  {
  }

  lemma Phase4Owns(d: Declaration, found: Cells, mid: Cells, now: Cells, created: seq<Key>, i: nat)
    requires i <= |d.subjects| && Phase4(d, found, mid, now, created, i)
    ensures Own(found, now, created) && (InSync(found, d) ==> now == found)
    ensures forall k | k in found :: k in now && now[k] == found[k]
  {
  }

  /** A failed registration leaves what the run had added, and at most one version it could not name. */
  lemma PutFails(d: Declaration, found: Cells, before: Cells, now: Cells, created: seq<Key>, stray: set<Key>, x: Item)
    requires Grown(found, now, Keys(created) + stray) && |stray| <= 1
    requires forall k | k in stray :: k.subject == d.Name(x.subject)
    requires InSync(found, d) ==> before == found
    requires Registered(before, d, x) ==> now == before
    requires x in d.references || x in d.subjects
    ensures exists stray: set<Key> ::
              && Grown(found, now, Keys(created) + stray) && |stray| <= 1
              && (forall k | k in stray :: k.subject == d.Name(x.subject))
    ensures forall k | k in found :: k in now && now[k] == found[k]
    ensures InSync(found, d) ==> now == found
  {
    hide Registered; hide Keys;
    if InSync(found, d) { SyncHas(found, d, x); }
  }

  lemma PutFails4(d: Declaration, found: Cells, mid: Cells, before: Cells, now: Cells, created: seq<Key>,
                  stray: set<Key>, i: nat)
    requires i < |d.subjects| && Phase4(d, found, mid, before, created, i)
    requires Grown(found, now, Keys(created) + stray) && |stray| <= 1
    requires forall k | k in stray :: k.subject == d.Name(d.subjects[i].subject)
    requires Registered(before, d, d.subjects[i]) ==> now == before
    ensures exists stray: set<Key> ::
              Grown(found, now, Keys(created) + stray) && |stray| <= 1 &&
              forall k | k in stray :: k.subject == d.Name(d.subjects[i].subject)
    ensures forall k | k in found :: k in now && now[k] == found[k]
    ensures InSync(found, d) ==> now == found
  {
    hide Registered; hide Keys; hide Phase4; hide Grown; hide InSync;
    Phase4Owns(d, found, mid, before, created, i);
    PutFails(d, found, before, now, created, stray, d.subjects[i]);
  }

  /** A run that found everything registered had nothing to undo. */
  lemma RolledBack(d: Declaration, found: Cells, now: Cells, created: seq<Key>, undone: seq<Key>, left: seq<Left>,
                   mid: Cells)
    requires Own(found, mid, created) && (InSync(found, d) ==> mid == found)
    requires Keys(undone) + LeftKeys(left) == Keys(created) && KeepsWithin(found, now, LeftKeys(left))
    requires left == [] ==> now == found
    ensures InSync(found, d) ==> now == found
    ensures forall k | k in found :: k in now && now[k] == found[k]
  {
    hide InSync;
    assert left != [] ==> left[0] in left && left[0].key in LeftKeys(left);
  }
}
