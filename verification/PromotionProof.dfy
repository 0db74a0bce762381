/** What every interleaving of promoters keeps (scripts/promote.py). */
module PromotionProof {
  import opened Options
  import opened DevTags
  import opened LineEditor
  import opened Promotion

  // ----- reading what was set --------------------------------------------

  lemma {:induction false} GetPut(v: Values, path: seq<string>, s: string)
    requires path != []
    ensures GetAt(Put(v, path, s), path) == Some(Value(s))
    decreases |path|
  {
    if |path| > 1 {
      GetPut(if path[0] in v && v[path[0]].Map? then v[path[0]].fields else map[], path[1..], s);
    }
  }

  lemma {:induction false} GetPutElsewhere(v: Values, path: seq<string>, s: string, other: seq<string>)
    requires path != [] && other != [] && Apart(path, other)
    ensures GetAt(Put(v, path, s), other) == GetAt(v, other)
    decreases |path|
  {
    if path[0] == other[0] {
      assert |path| > 1 && |other| > 1 by {
        assert |path| == 1 ==> path <= other;
        assert |other| == 1 ==> other <= path;
      }
      var below := if path[0] in v && v[path[0]].Map? then v[path[0]].fields else map[];
      assert Apart(path[1..], other[1..]) by {
        assert path == [path[0]] + path[1..] && other == [other[0]] + other[1..];
      }
      GetPutElsewhere(below, path[1..], s, other[1..]);
    }
  }

  /** What set_value demands, read off the tree. */
  lemma {:induction false} SettableIff(v: Values, path: seq<string>)
    requires path != []
    ensures Open(v, path) && !HoldsMapping(v, path) <==> Settable(v, path)
    decreases |path|
  {
    if |path| > 1 {
      assert path[..1] == [path[0]];
      if path[0] in v && v[path[0]].Map? {
        var below, rest := v[path[0]].fields, path[1..];
        SettableIff(below, rest);
        assert forall k | 1 < k <= |path| :: path[..k][1..] == rest[..k - 1];
        assert forall k | 1 < k < |path| :: GetAt(v, path[..k]) == GetAt(below, rest[..k - 1]);
        if Settable(v, path) {
          forall k | 0 < k < |rest| ensures NoScalar(GetAt(below, rest[..k])) {
            assert path[..k + 1][1..] == rest[..k];
          }
        }
      } else if path[0] !in v {
        assert forall k | 0 < k <= |path| :: path[..k][0] == path[0];
      } else {
        assert !NoScalar(GetAt(v, path[..1]));
      }
    }
  }

  lemma PathsApart()
    ensures IMAGE[0] != MARKER[0] && IMAGE[0] != PIN[0] && MARKER[0] != PIN[0]
    ensures Apart(IMAGE, MARKER) && Apart(IMAGE, PIN) && Apart(MARKER, PIN)
  {
    assert IMAGE[0] == "image" && MARKER[0] == "release" && PIN[0] == "server";
    assert "image"[0] == 'i' && "release"[0] == 'r' && "server"[0] == 's';
  }

  /** An image says its commit's first twelve characters and its digest, and so two of one name have both in
      common. */
  lemma ImageNames(sha: string, digest: string, other: string, third: string)
    requires |sha| >= 12 && |other| >= 12
    ensures var image := ImageOf(sha, digest);
            image[..4] == "sha-" && image[4..16] == sha[..12] && image[16] == '@' && image[17..] == digest
    ensures ImageOf(sha, digest) == ImageOf(other, third) <==> sha[..12] == other[..12] && digest == third
  {
    ImageParts(sha, digest);
    ImageParts(other, third);
    assert sha[..12] == other[..12] && digest == third ==>
             ImageOf(sha, digest) == "sha-" + sha[..12] + "@" + digest == ImageOf(other, third);
  }

  lemma ImageParts(sha: string, digest: string)
    requires |sha| >= 12
    ensures var image := ImageOf(sha, digest);
            && image == "sha-" + sha[..12] + "@" + digest
            && image[..4] == "sha-" && image[4..16] == sha[..12] && image[16] == '@' && image[17..] == digest
  {
    assert |sha| == 12 ==> sha == sha[..12];
  }

  /** A promotion's values: there are some exactly when the image can be set, and then the image is the main
      commit's own and nothing else has changed. */
  lemma PromotionValues(base: Values, main: Commit, digest: string, falsy: string -> bool)
    requires main.OnMain?
    ensures var v := NewValues(base, Sha(main, digest), falsy);
            && (v.Some? <==> Settable(base, IMAGE))
            && (v.Some? ==> ImageSet(base, v.value, ImageOf(main.sha, digest)))
  {
    hide GetAt; hide Put; hide Open; hide HoldsMapping; hide ImageOf;
    var image := ImageOf(main.sha, digest);
    SettableIff(base, IMAGE);
    hide Settable;
    GetPut(base, IMAGE, image);
    forall p: seq<string> | p != [] && Apart(p, IMAGE)
      ensures GetAt(Put(base, IMAGE, image), p) == GetAt(base, p)
    {
      GetPutElsewhere(base, IMAGE, image, p);
    }
  }

  /** A path that leaves another at its first key can be set as well as before. */
  lemma SettableAfter(v: Values, path: seq<string>, s: string, other: seq<string>)
    requires path != [] && other != [] && path[0] != other[0]
    ensures Settable(Put(v, path, s), other) <==> Settable(v, other)
  {
    hide Put; hide GetAt;
    forall k | 0 < k <= |other|
      ensures GetAt(Put(v, path, s), other[..k]) == GetAt(v, other[..k])
    {
      GetPutElsewhere(v, path, s, other[..k]);
    }
    assert other[..|other|] == other;
  }

  /** A rollback's values: there are some exactly when the marker can be set and, if a pin is given or one is
      to be cleared, the pin; then the marker names the tag, the pin is the one given or none, and nothing else
      has changed. */
  lemma RollbackValues(base: Values, tag: string, pin: Option<string>, falsy: string -> bool)
    ensures var v := NewValues(base, Rollback(tag, pin), falsy);
            && (v.Some? <==> Settable(base, MARKER) &&
                             (pin.Some? || !Falsy(GetAt(base, PIN), falsy) ==> Settable(base, PIN)))
            && (v.Some? ==> RolledBack(base, v.value, tag, pin, falsy))
  {
    hide GetAt; hide Put; hide Open; hide HoldsMapping; hide Falsy;
    PathsApart();
    var m := Put(base, MARKER, tag);
    var s := if pin.Some? then pin.value else "0";
    GetPutElsewhere(base, MARKER, tag, PIN);
    SettableIff(base, MARKER);
    SettableIff(m, PIN);
    SettableAfter(base, MARKER, tag, PIN);
    hide Settable;
    GetPut(base, MARKER, tag);
    GetPut(m, PIN, s);
    GetPutElsewhere(m, PIN, s, MARKER);
    forall p: seq<string> | p != [] && Apart(p, MARKER) && Apart(p, PIN)
      ensures GetAt(m, p) == GetAt(base, p) && GetAt(Put(m, PIN, s), p) == GetAt(m, p)
    {
      GetPutElsewhere(base, MARKER, tag, p);
      GetPutElsewhere(m, PIN, s, p);
    }
  }

  /** After it no pin is left but the one given, and the image is the tag's. */
  lemma RolledBackReads(base: Values, after: Values, tag: string, pin: Option<string>, falsy: string -> bool)
    requires RolledBack(base, after, tag, pin, falsy) && falsy("0")
    ensures GetAt(after, IMAGE) == GetAt(base, IMAGE)
    ensures pin.None? ==> Falsy(GetAt(after, PIN), falsy)
  {
    PathsApart();
    hide GetAt;
  }

  /** A promotion of a main commit keeps its marker and pin. */
  lemma PromotionKeeps(c: Commit)
    requires OfMain(c)
    ensures GetAt(c.values, MARKER) == GetAt(c.base.values, MARKER)
    ensures GetAt(c.values, PIN) == GetAt(c.base.values, PIN)
  {
    hide GetAt;
    PathsApart();
  }

  // ----- the invariant ---------------------------------------------------

  /** What was read is still there, and the number it gave is the remote's next, or taken. */
  ghost predicate Seen(seen: set<string>, tags: Tags) {
    && seen <= tags.Keys
    && forall n: nat | IsNext(seen, n) :: IsNext(tags.Keys, n) || DevTag(n) in tags
  }

  /** What dev-<n> will say, if its push is accepted. */
  ghost predicate Due(c: Commit, n: nat, tags: Tags) {
    c.Promoted? && (OfMain(c) || exists j: nat :: Backs(c, n, tags, j))
  }

  ghost predicate Backs(c: Commit, n: nat, tags: Tags, j: nat) {
    && 0 < j < n && DevTag(j) in tags && c.Promoted?
    && var b := tags[DevTag(j)].commit;
       && c.base == b && b.Promoted?
       && GetAt(c.values, MARKER) == Some(Value(DevTag(j))) && GetAt(c.values, IMAGE) == GetAt(b.values, IMAGE)
  }

  ghost predicate GoodPromoter(s: Promoter, remote: Tags, falsy: string -> bool) {
    match s.phase
    case Idle => true
    case Started(request, _, seen, saved, began) =>
      && Seen(seen, remote) && saved == Lookup(began, "dev") && s.tags == began
      && (request.Sha? ==> request.main.OnMain?)
    case Built(r, c, n, _, seen, saved, began, fetched) =>
      && AsAsked(c, r, remote, falsy) && Seen(seen, remote) && IsNext(seen, n) && Due(c, n, remote)
      && saved == Lookup(began, "dev")
      && s.tags == began + fetched && Fetched(fetched, n)
    case Tagged(r, c, n, seen, saved, began, fetched) =>
      && AsAsked(c, r, remote, falsy) && Seen(seen, remote) && IsNext(seen, n) && Due(c, n, remote)
      && saved == Lookup(began, "dev")
      && DevTag(n) !in began + fetched && Fetched(fetched, n)
      && (exists run ::
            s.tags == (began + fetched)["dev" := TagObject("dev", c, run)][DevTag(n) := TagObject(DevTag(n), c, run)])
  }

  /** A fetch brings neither dev nor the tag to be. */
  ghost predicate Fetched(fetched: Tags, n: nat) { "dev" !in fetched && DevTag(n) !in fetched }

  ghost predicate Inv(w: World, falsy: string -> bool) {
    && Aligned(w.remote) && Provenance(w.remote.tags)
    && forall p | p in w.promoters :: GoodPromoter(w.promoters[p], w.remote.tags, falsy)
  }

  // ----- tags ------------------------------------------------------------

  lemma NotDev(n: nat)
    ensures DevTag(n) != "dev"
  {
    DecimalReads(n);
  }

  lemma NextAfter(names: set<string>, n: nat)
    requires IsNext(names, n)
    ensures IsNext(names + {"dev", DevTag(n)}, n + 1)
  {
    forall m: nat | m >= n + 1 ensures DevTag(m) !in names + {"dev", DevTag(n)} {
      NotDev(m);
      if DevTag(m) == DevTag(n) { TagsDiffer(m, n); }
    }
  }

  /** Tags that only grow keep a promoter's reading good, whatever number was taken. */
  lemma SeenGrows(seen: set<string>, a: Tags, b: Tags, n: nat)
    requires Seen(seen, a) && IsNext(a.Keys, n) && b.Keys == a.Keys + {"dev", DevTag(n)}
    ensures Seen(seen, b)
  {
    forall m: nat | IsNext(seen, m) ensures DevTag(m) in b {
      if IsNext(a.Keys, m) { NextUnique(a.Keys, m, n); }
    }
  }

  ghost predicate HistoryKept(a: Tags, b: Tags) {
    forall k: nat | k > 0 && DevTag(k) in a :: DevTag(k) in b && a[DevTag(k)] == b[DevTag(k)]
  }

  lemma DueGrows(c: Commit, n: nat, a: Tags, b: Tags)
    requires Due(c, n, a) && HistoryKept(a, b)
    ensures Due(c, n, b)
  {
    hide GetAt; hide DevTag;
    if !OfMain(c) {
      var j: nat :| Backs(c, n, a, j);
      assert Backs(c, n, b, j);
    }
  }

  lemma AskedGrows(c: Commit, r: Request, a: Tags, b: Tags, falsy: string -> bool)
    requires AsAsked(c, r, a, falsy) && HistoryKept(a, b)
    ensures AsAsked(c, r, b, falsy)
  {
    hide RolledBack; hide DevTag;
    if r.Rollback? { IsDevTag(r.tag); }
  }

  lemma IsDevTag(name: string)
    requires IsHistory(name)
    ensures exists k: nat :: k > 0 && name == DevTag(k)
  {
    HistoryIff(name, History(name).value);
  }

  /** What an accepted push does to the tags. */
  lemma PushedTags(r: Remote, tags: Tags, c: Commit, n: nat)
    requires IsNext(r.tags.Keys, n) && "dev" in tags && DevTag(n) in tags
    ensures var t := Pushed(r, tags, c, n).tags;
            && HistoryKept(r.tags, t) && t.Keys == r.tags.Keys + {"dev", DevTag(n)} && IsNext(t.Keys, n + 1)
            && t[DevTag(n)] == tags[DevTag(n)] && t["dev"] == tags["dev"]
  {
    hide IsNext;
    var t := Pushed(r, tags, c, n).tags;
    NotDev(n);
    NextAfter(r.tags.Keys, n);
    assert t.Keys == r.tags.Keys + {"dev", DevTag(n)};
    forall k: nat | k > 0 && DevTag(k) in r.tags ensures DevTag(k) in t && r.tags[DevTag(k)] == t[DevTag(k)] {
      NotDev(k);
      NotTaken(r.tags.Keys, n, k);
    }
  }

  lemma NotTaken(names: set<string>, n: nat, k: nat)
    requires IsNext(names, n) && DevTag(k) in names
    ensures DevTag(k) != DevTag(n) && k < n
  {
  }

  /** The new tag is sourced, and the old ones still are. */
  lemma ProvenanceGrows(a: Tags, b: Tags, c: Commit, n: nat)
    requires Provenance(a) && HistoryKept(a, b) && IsNext(a.Keys, n) && b.Keys == a.Keys + {"dev", DevTag(n)}
    requires b[DevTag(n)].commit == c && Due(c, n, a)
    ensures Provenance(b)
  {
    hide GetAt; hide DevTag;
    forall k: nat | k > 0 && DevTag(k) in b ensures Sourced(b, k) {
      NotDev(k);
      if DevTag(k) in a {
        assert Sourced(a, k);
        if !OfMain(a[DevTag(k)].commit) {
          var j: nat :| Back(a, k, j);
          assert Back(b, k, j);
        }
      } else {
        TagsDiffer(k, n);
        if !OfMain(c) {
          var j: nat :| Backs(c, n, a, j);
          assert Back(b, n, j);
        }
      }
    }
  }

  // ----- every step keeps it ---------------------------------------------

  /** An accepted push carries the number next to the highest on the remote at that moment, adds that one
      tag, and moves dev and release/dev to its commit. */
  lemma AcceptedIsNext(w: World, w': World, p: nat, told: bool, falsy: string -> bool)
    requires Inv(w, falsy) && PushAccepted(w, w', p, told)
    ensures var ph := w.promoters[p].phase;
            && IsNext(w.remote.tags.Keys, ph.n) && IsNext(w'.remote.tags.Keys, ph.n + 1)
            && HistoryKept(w.remote.tags, w'.remote.tags)
            && w'.remote.tags.Keys == w.remote.tags.Keys + {"dev", DevTag(ph.n)}
            && w'.remote.branch == Some(ph.commit) && AsAsked(ph.commit, ph.request, w.remote.tags, falsy)
            && w'.remote.tags["dev"].commit == ph.commit && w'.remote.tags[DevTag(ph.n)].commit == ph.commit
  {
    hide Aligned; hide Provenance; hide Due; hide DevTag; hide IsNext;
    var s := w.promoters[p];
    assert GoodPromoter(s, w.remote.tags, falsy);
    assert IsNext(w.remote.tags.Keys, s.phase.n);
    NotDev(s.phase.n);
    PushedTags(w.remote, s.tags, s.phase.commit, s.phase.n);
  }

  lemma AcceptKeeps(w: World, w': World, p: nat, told: bool, falsy: string -> bool)
    requires Inv(w, falsy) && PushAccepted(w, w', p, told)
    ensures Inv(w', falsy)
  {
    hide Provenance; hide Due; hide DevTag; hide IsNext; hide Seen; hide HistoryKept; hide Undo;
    AcceptedIsNext(w, w', p, told, falsy);
    var ph := w.promoters[p].phase;
    var a, b := w.remote.tags, w'.remote.tags;
    assert GoodPromoter(w.promoters[p], a, falsy);
    ProvenanceGrows(a, b, ph.commit, ph.n);
    forall n: nat | IsNext(b.Keys, n) ensures n == ph.n + 1 { NextUnique(b.Keys, n, ph.n + 1); }
    forall q | q in w'.promoters ensures GoodPromoter(w'.promoters[q], b, falsy) {
      if q != p {
        assert GoodPromoter(w.promoters[q], a, falsy) && w'.promoters[q] == w.promoters[q];
        GoodGrows(w.promoters[q], a, b, ph.n, falsy);
      }
    }
  }

  lemma GoodGrows(s: Promoter, a: Tags, b: Tags, n: nat, falsy: string -> bool)
    requires GoodPromoter(s, a, falsy) && IsNext(a.Keys, n) && b.Keys == a.Keys + {"dev", DevTag(n)}
    requires HistoryKept(a, b)
    ensures GoodPromoter(s, b, falsy)
  {
    hide Due; hide DevTag; hide IsNext; hide Seen; hide HistoryKept;
    match s.phase
    case Idle =>
    case Started(_, _, seen, _, _) => SeenGrows(seen, a, b, n);
    case Built(r, c, m, _, seen, _, _, _) =>
      SeenGrows(seen, a, b, n); DueGrows(c, m, a, b); AskedGrows(c, r, a, b, falsy);
    case Tagged(r, c, m, seen, _, _, _) =>
      SeenGrows(seen, a, b, n); DueGrows(c, m, a, b); AskedGrows(c, r, a, b, falsy);
  }

  lemma BuildKeeps(w: World, w': World, p: nat, falsy: string -> bool)
    requires Inv(w, falsy) && Build(w, w', p, falsy) && falsy("0")
    ensures Inv(w', falsy)
  {
    hide Aligned; hide DevTag; hide GetAt; hide IsHistory; hide IsNext; hide NewValues; hide Provenance; hide Seen;
    var s := w.promoters[p];
    var ph, r, remote := s.phase, s.phase.request, w.remote.tags;
    assert GoodPromoter(s, remote, falsy);
    var s' := w'.promoters[p];
    var c, n := s'.phase.commit, s'.phase.n;
    assert IsNext(ph.seen, n);
    if r.Rollback? {
      BuildsBack(ph.seen, remote, r, c, n, falsy);
      FetchesOther(ph.seen, r.tag, remote[r.tag], n);
    } else {
      BuildsMain(r, c, remote, falsy);
    }
    forall q | q in w'.promoters ensures GoodPromoter(w'.promoters[q], remote, falsy) {
      if q != p { assert GoodPromoter(w.promoters[q], remote, falsy); }
    }
  }

  lemma FetchesOther(seen: set<string>, name: string, o: TagObject, n: nat)
    requires IsHistory(name) && name in seen && IsNext(seen, n)
    ensures Fetched(map[name := o], n)
  {
  }

  lemma BuildsMain(r: Request, c: Commit, remote: Tags, falsy: string -> bool)
    requires r.Sha? && r.main.OnMain? && c.Promoted? && c.base == r.main
    requires NewValues(r.main.values, r, falsy) == Some(c.values)
    ensures OfMain(c) && AsAsked(c, r, remote, falsy)
  {
    hide NewValues; hide ImageSet;
    PromotionValues(r.main.values, r.main, r.digest, falsy);
  }

  lemma BuildsBack(seen: set<string>, remote: Tags, r: Request, c: Commit, n: nat, falsy: string -> bool)
    requires r.Rollback? && IsHistory(r.tag) && r.tag in seen && r.tag in remote && Provenance(remote)
    requires IsNext(seen, n)
    requires c.Promoted? && c.base == remote[r.tag].commit && falsy("0")
    requires NewValues(c.base.values, r, falsy) == Some(c.values)
    ensures Due(c, n, remote) && AsAsked(c, r, remote, falsy)
  {
    hide NewValues; hide GetAt;
    var j := History(r.tag).value;
    HistoryIff(r.tag, j);
    assert Sourced(remote, j);
    RollbackValues(c.base.values, r.tag, r.pin, falsy);
    RolledBackReads(c.base.values, c.values, r.tag, r.pin, falsy);
    assert j < n;
    assert Backs(c, n, remote, j);
  }

  /** The steps that leave the remote alone change one promoter. */
  lemma LocalKeeps(w: World, w': World, p: nat, s: Promoter, falsy: string -> bool)
    requires Inv(w, falsy) && p in w.promoters && w' == w.(promoters := w.promoters[p := s])
    requires GoodPromoter(s, w.remote.tags, falsy)
    ensures Inv(w', falsy)
  {
    hide Aligned; hide Provenance; hide GoodPromoter;
  }

  lemma StartKeeps(w: World, w': World, p: nat, request: Request, run: nat, falsy: string -> bool)
    requires Inv(w, falsy) && Start(w, w', p, request, run)
    ensures Inv(w', falsy)
  {
    hide Inv; hide IsNext;
    LocalKeeps(w, w', p, w'.promoters[p], falsy);
  }

  lemma MakeTagsKeeps(w: World, w': World, p: nat, falsy: string -> bool)
    requires Inv(w, falsy) && MakeTags(w, w', p)
    ensures Inv(w', falsy)
  {
    hide IsNext; hide Seen; hide Due; hide Aligned; hide Provenance; hide DevTag;
    assert GoodPromoter(w.promoters[p], w.remote.tags, falsy);
    LocalKeeps(w, w', p, w'.promoters[p], falsy);
  }

  lemma StepKeeps(w: World, w': World, falsy: string -> bool)
    requires Inv(w, falsy) && Step(w, w', falsy) && falsy("0")
    ensures Inv(w', falsy) && HistoryKept(w.remote.tags, w'.remote.tags)
    ensures w'.remote == w.remote ||
            exists n: nat ::
              IsNext(w.remote.tags.Keys, n) && IsNext(w'.remote.tags.Keys, n + 1) && w'.remote != w.remote
  {
    hide Inv; hide Start; hide Build; hide MakeTags; hide IsNext; hide Undo;
    var p: nat :| StepOf(w, w', p, falsy);
    if request, run :| Start(w, w', p, request, run) {
      StartKeeps(w, w', p, request, run, falsy);
      SameRemote(w, w', p, request, run, falsy);
    } else if Build(w, w', p, falsy) {
      BuildKeeps(w, w', p, falsy);
      SameRemote(w, w', p, Rollback("", None), 0, falsy);
    } else if MakeTags(w, w', p) {
      MakeTagsKeeps(w, w', p, falsy);
      SameRemote(w, w', p, Rollback("", None), 0, falsy);
    } else if GiveUp(w, w', p) || TagsFail(w, w', p) || PushRefused(w, w', p) {
      LocalKeeps(w, w', p, w'.promoters[p], falsy);
    } else {
      var told := PushAccepted(w, w', p, true);
      AcceptKeeps(w, w', p, told, falsy);
      AcceptedIsNext(w, w', p, told, falsy);
    }
  }

  lemma SameRemote(w: World, w': World, p: nat, request: Request, run: nat, falsy: string -> bool)
    requires Start(w, w', p, request, run) || Build(w, w', p, falsy) || MakeTags(w, w', p)
    ensures w'.remote == w.remote
  {
  }

  // ----- over every run --------------------------------------------------

  lemma {:induction false} RunInv(ws: seq<World>, falsy: string -> bool, i: nat)
    requires Run(ws, falsy) && falsy("0") && i < |ws|
    ensures Inv(ws[i], falsy)
  {
    hide Step;
    if i == 0 {
      hide Aligned; hide Provenance;
    } else {
      hide Inv;
      RunInv(ws, falsy, i - 1);
      StepKeeps(ws[i - 1], ws[i], falsy);
    }
  }

  /** dev, release/dev and the highest dev-<n> name one commit, in every state of every run. */
  lemma AlwaysAligned(ws: seq<World>, falsy: string -> bool, i: nat)
    requires Run(ws, falsy) && falsy("0") && i < |ws|
    ensures Aligned(ws[i].remote)
  {
    RunInv(ws, falsy, i);
  }

  /** A dev-<n> tag, once on the remote, names the same object ever after. */
  lemma {:induction false} WriteOnce(ws: seq<World>, falsy: string -> bool, i: nat, j: nat)
    requires Run(ws, falsy) && falsy("0") && i <= j < |ws|
    ensures HistoryKept(ws[i].remote.tags, ws[j].remote.tags)
  {
    hide Step; hide Initial; hide Inv; hide DevTag;
    if i < j {
      WriteOnce(ws, falsy, i, j - 1);
      RunInv(ws, falsy, j - 1);
      StepKeeps(ws[j - 1], ws[j], falsy);
    }
  }

  /** A dev-<n> that was pushed is, ever after, what its run was asked for: the main commit with that commit's
      image, or the named tag's commit with its marker and pin. */
  lemma PushedAsAsked(ws: seq<World>, falsy: string -> bool, i: nat, j: nat, p: nat, told: bool)
    requires Run(ws, falsy) && falsy("0") && i < j < |ws| && PushAccepted(ws[i], ws[i + 1], p, told)
    ensures var ph, tags := ws[i].promoters[p].phase, ws[j].remote.tags;
            && DevTag(ph.n) in tags && tags[DevTag(ph.n)].commit == ph.commit
            && AsAsked(ph.commit, ph.request, tags, falsy)
  {
    var ph := ws[i].promoters[p].phase;
    hide Run; hide PushAccepted; hide AsAsked; hide DevTag; hide IsNext; hide HistoryKept;
    RunInv(ws, falsy, i);
    AcceptedIsNext(ws[i], ws[i + 1], p, told, falsy);
    WriteOnce(ws, falsy, i + 1, j);
    WriteOnce(ws, falsy, i, j);
    AskedGrows(ph.commit, ph.request, ws[i].remote.tags, ws[j].remote.tags, falsy);
    NumberPositive(ws[i].remote.tags.Keys, ph.n);
    KeptTag(ws[i + 1].remote.tags, ws[j].remote.tags, ph.n);
  }

  lemma NumberPositive(names: set<string>, n: nat)
    requires IsNext(names, n)
    ensures n > 0
  {
  }

  lemma KeptTag(a: Tags, b: Tags, n: nat)
    requires HistoryKept(a, b) && n > 0 && DevTag(n) in a
    ensures DevTag(n) in b && a[DevTag(n)] == b[DevTag(n)]
  {
  }

  /** A promoter is at work on a request since some earlier step, which started it, and no other since. */
  ghost predicate AtWork(ws: seq<World>, i: nat, j: nat, p: nat, request: Request)
    requires j < |ws|
  {
    && i < j && Starts(ws[i], ws[i + 1], p, request)
    && forall m | i < m <= j :: p in ws[m].promoters && Requested(ws[m].promoters[p].phase) == Some(request)
  }

  ghost predicate Starts(w: World, w': World, p: nat, request: Request) {
    exists run :: Start(w, w', p, request, run)
  }

  function Requested(ph: Phase): Option<Request> {
    match ph
    case Idle => None
    case Started(r, _, _, _, _) => Some(r)
    case Built(r, _, _, _, _, _, _, _) => Some(r)
    case Tagged(r, _, _, _, _, _, _) => Some(r)
  }

  /** A step keeps what each promoter is at work on, unless it starts or ends that promoter's run. */
  lemma StepRequests(w: World, w': World, falsy: string -> bool, p: nat)
    requires Step(w, w', falsy) && p in w'.promoters && Requested(w'.promoters[p].phase).Some?
    ensures p in w.promoters
    ensures var r := Requested(w'.promoters[p].phase);
            Requested(w.promoters[p].phase) == r || Starts(w, w', p, r.value)
  {
    hide NewValues; hide DevTag; hide IsNext; hide IsHistory; hide Undo;
    var q: nat :| StepOf(w, w', q, falsy);
    if request, run :| Start(w, w', q, request, run) {
      if q == p { assert Start(w, w', p, Requested(w'.promoters[p].phase).value, run); }
    }
  }

  /** Whatever a promoter is at work on, its own Start asked for. */
  lemma {:induction false} AskedFor(ws: seq<World>, falsy: string -> bool, j: nat, p: nat)
    requires Run(ws, falsy) && j < |ws| && p in ws[j].promoters && Requested(ws[j].promoters[p].phase).Some?
    ensures exists i: nat :: AtWork(ws, i, j, p, Requested(ws[j].promoters[p].phase).value)
  {
    hide Step; hide Starts; hide Aligned; hide Provenance;
    var r := Requested(ws[j].promoters[p].phase).value;
    assert j > 0;
    assert Step(ws[j - 1], ws[j], falsy);
    StepRequests(ws[j - 1], ws[j], falsy, p);
    if Starts(ws[j - 1], ws[j], p, r) {
      assert AtWork(ws, j - 1, j, p, r);
    } else {
      AskedFor(ws, falsy, j - 1, p);
      var i: nat :| AtWork(ws, i, j - 1, p, r);
      assert AtWork(ws, i, j, p, r);
    }
  }

  /** How many pushes the remote has taken up to a state. */
  ghost function Taken(ws: seq<World>, i: nat): nat
    requires i < |ws|
  {
    if i == 0 then 0 else Taken(ws, i - 1) + if ws[i].remote == ws[i - 1].remote then 0 else 1
  }

  /** The numbers given out are consecutive, whoever pushed: the next one is the first's plus the pushes
      taken since. */
  lemma {:induction false} NumbersConsecutive(ws: seq<World>, falsy: string -> bool, first: nat, i: nat)
    requires Run(ws, falsy) && falsy("0") && i < |ws| && IsNext(ws[0].remote.tags.Keys, first)
    ensures IsNext(ws[i].remote.tags.Keys, first + Taken(ws, i))
  {
    hide Step; hide Initial; hide Inv; hide DevTag; hide IsNext;
    if i > 0 {
      NumbersConsecutive(ws, falsy, first, i - 1);
      RunInv(ws, falsy, i - 1);
      StepKeeps(ws[i - 1], ws[i], falsy);
      if ws[i].remote != ws[i - 1].remote {
        var n: nat :| IsNext(ws[i - 1].remote.tags.Keys, n) && IsNext(ws[i].remote.tags.Keys, n + 1);
        NextUnique(ws[i - 1].remote.tags.Keys, n, first + Taken(ws, i - 1));
      }
    }
  }

  // ----- failure ---------------------------------------------------------

  /** A refused push leaves the remote alone and the clone's tags as they were when the run began, but for the tag
      a rollback fetched; dev is at the saved object. */
  lemma RefusedPutsBack(w: World, w': World, p: nat, falsy: string -> bool)
    requires Inv(w, falsy) && PushRefused(w, w', p)
    ensures w'.remote == w.remote
    ensures var ph, tags := w.promoters[p].phase, w'.promoters[p].tags;
            && tags == ph.began + ph.fetched && Lookup(tags, "dev") == Lookup(ph.began, "dev") == ph.saved
            && (tags == ph.began <==> ph.began + ph.fetched == ph.began)
  {
    hide Aligned; hide Provenance; hide Due; hide DevTag; hide IsNext; hide Seen;
    var s := w.promoters[p];
    assert GoodPromoter(s, w.remote.tags, falsy);
    NotDev(s.phase.n);
    UndoTags(s.phase.began + s.phase.fetched, s.tags, s.phase.n);
    assert Lookup(s.phase.began + s.phase.fetched, "dev") == Lookup(s.phase.began, "dev");
  }

  lemma UndoTags(before: Tags, tags: Tags, n: nat)
    requires DevTag(n) !in before && "dev" != DevTag(n) && "dev" in tags && DevTag(n) in tags
    requires tags == before["dev" := tags["dev"]][DevTag(n) := tags[DevTag(n)]]
    ensures Undo(tags, n, Lookup(before, "dev")) == before
  {
    hide DevTag;
  }

  /** Tags that could not be made are undone, and a dev-<n> the clone had of its own with them: the clone is as it
      was when the run began exactly when it held none and the tag a rollback fetched was already there. */
  lemma FailedTagsPutBack(w: World, w': World, p: nat, falsy: string -> bool)
    requires Inv(w, falsy) && TagsFail(w, w', p)
    ensures w'.remote == w.remote
    ensures var ph, tags := w.promoters[p].phase, w'.promoters[p].tags;
            && tags == ph.began + ph.fetched - {DevTag(ph.n)}
            && Lookup(tags, "dev") == Lookup(ph.began, "dev") == ph.saved
            && (tags == ph.began <==> DevTag(ph.n) !in ph.began && ph.began + ph.fetched == ph.began)
  {
    hide Aligned; hide Provenance; hide Due; hide DevTag; hide IsNext; hide Seen;
    var s := w.promoters[p];
    var ph, tags := s.phase, w'.promoters[p].tags;
    assert GoodPromoter(s, w.remote.tags, falsy);
    NotDev(ph.n);
    assert tags == ph.began + ph.fetched - {DevTag(ph.n)};
    if tags == ph.began {
      assert forall k | k in ph.fetched :: k != DevTag(ph.n) && k in tags && tags[k] == ph.fetched[k];
      assert ph.began + ph.fetched == ph.began;
    } else if DevTag(ph.n) !in ph.began {
      assert tags == ph.began + ph.fetched;
    }
  }

  // ----- provenance ------------------------------------------------------

  /** dev-<k>, what it rolled back to, what that rolled back to, down to a promotion of a main commit. */
  ghost function Chain(tags: Tags, k: nat): (r: seq<nat>)
    requires Provenance(tags) && k > 0 && DevTag(k) in tags
    ensures r != [] && r[0] == k
  {
    assert Sourced(tags, k);
    if OfMain(tags[DevTag(k)].commit) then [k]
    else
      var j: nat :| Back(tags, k, j);
      [k] + Chain(tags, j)
  }

  ghost predicate IsChain(tags: Tags, r: seq<nat>) {
    && r != []
    && (forall i | 0 <= i < |r| :: r[i] > 0 && DevTag(r[i]) in tags)
    && (forall i | 0 <= i < |r| - 1 :: Back(tags, r[i], r[i + 1]))
    && OfMain(tags[DevTag(r[|r| - 1])].commit)
  }

  /** The chain's links are the names rolled_back_to gives; it goes strictly down; it ends at a promotion
      of a main commit; and the image is that promotion's. */
  lemma {:induction false} ImageIsTheOrigins(tags: Tags, k: nat)
    requires Provenance(tags) && k > 0 && DevTag(k) in tags
    ensures var r := Chain(tags, k);
            && IsChain(tags, r) && (forall i, j | 0 <= i < j < |r| :: r[i] > r[j])
            && GetAt(tags[DevTag(k)].commit.values, IMAGE) == GetAt(tags[DevTag(r[|r| - 1])].commit.values, IMAGE)
    decreases k
  {
    hide GetAt; hide DevTag; hide OfMain;
    assert Sourced(tags, k);
    var r := Chain(tags, k);
    if !OfMain(tags[DevTag(k)].commit) {
      var j := r[1];
      assert Back(tags, k, j) && r[1..] == Chain(tags, j);
      ImageIsTheOrigins(tags, j);
      var t := r[1..];
      assert forall i | 1 <= i < |r| :: r[i] == t[i - 1];
      assert r[|r| - 1] == t[|t| - 1];
    }
  }

  /** A promotion of a main commit that carries no marker ends a reader's chain: it has none either. */
  lemma ChainEndsUnmarked(c: Commit)
    requires OfMain(c) && GetAt(c.base.values, MARKER) == None
    ensures GetAt(c.values, MARKER) == None
  {
    PromotionKeeps(c);
  }

  /** So it is of every tag, in every state of every run; and the image it pins is its origin's own. */
  lemma RunProvenance(ws: seq<World>, falsy: string -> bool, i: nat, k: nat)
    requires Run(ws, falsy) && falsy("0") && i < |ws| && k > 0 && DevTag(k) in ws[i].remote.tags
    ensures var tags := ws[i].remote.tags;
            && Provenance(tags)
            && var r := Chain(tags, k);
               && IsChain(tags, r) && (forall a, b | 0 <= a < b < |r| :: r[a] > r[b])
               && NamesItsMain(tags[DevTag(k)].commit.values, tags[DevTag(r[|r| - 1])].commit.base)
  {
    hide Run; hide Aligned; hide GetAt; hide DevTag; hide Chain; hide NamesItsMain; hide ImageOf;
    RunInv(ws, falsy, i);
    ImageIsTheOrigins(ws[i].remote.tags, k);
    var r := Chain(ws[i].remote.tags, k);
    OriginNamed(ws[i].remote.tags[DevTag(r[|r| - 1])].commit, ws[i].remote.tags[DevTag(k)].commit.values);
  }

  /** The image pinned is one built from that main commit. */
  ghost predicate NamesItsMain(v: Values, main: Commit) {
    main.OnMain? && exists digest: string :: GetAt(v, IMAGE) == Some(Value(ImageOf(main.sha, digest)))
  }

  lemma OriginNamed(c: Commit, v: Values)
    requires OfMain(c) && GetAt(v, IMAGE) == GetAt(c.values, IMAGE)
    ensures NamesItsMain(v, c.base)
  {
    hide GetAt; hide ImageOf;
    var digest: string :| ImageSet(c.base.values, c.values, ImageOf(c.base.sha, digest));
    assert GetAt(v, IMAGE) == Some(Value(ImageOf(c.base.sha, digest)));
  }
}
