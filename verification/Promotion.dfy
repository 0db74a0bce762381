/** Concurrent promoters, each in its own clone, moving `dev` on one remote (scripts/promote.py promote,
    build_promotion, build_rollback, make_tags, undo_tags, push). */
module Promotion {
  import opened Options
  import opened DevTags
  import opened LineEditor

  // ----- the values file -------------------------------------------------

  type Values = map<string, Tree>

  const IMAGE := ["image", "tag"]
  const MARKER := ["release", "rolled_back_to"]
  const PIN := ["server", "recovery", "pin_round"]

  /** set_value on the file's tree; None where its own final check, or the parse in it, fails. */
  function SetAt(v: Values, path: seq<string>, s: string): Option<Values>
    requires path != []
  {
    if Open(v, path) && !HoldsMapping(v, path) then Some(Put(v, path, s)) else None
  }

  /** get_value: the tree at the path, if mappings lead there. */
  function GetAt(v: Values, path: seq<string>): Option<Tree>
    requires path != []
    decreases |path|
  {
    if path[0] !in v then None
    else if |path| == 1 then Some(v[path[0]])
    else if v[path[0]].Map? then GetAt(v[path[0]].fields, path[1..])
    else None
  }

  /** Whether a value read is false to Python: nothing there, a falsy scalar or an empty mapping. */
  predicate Falsy(t: Option<Tree>, falsy: string -> bool) {
    t.None? || match t.value case Value(s) => falsy(s) case Map(f) => f == map[]
  }

  // ----- what a new values file says, by what is read from it -----------

  /** Neither path leads on to the other. */
  ghost predicate Apart(p: seq<string>, q: seq<string>) { !(p <= q) && !(q <= p) }

  ghost predicate NoScalar(t: Option<Tree>) { t.Some? ==> t.value.Map? }

  /** What set_value demands: no scalar on the way, and no mapping at the end. */
  ghost predicate Settable(v: Values, path: seq<string>)
    requires path != []
  {
    && (forall k | 0 < k < |path| :: NoScalar(GetAt(v, path[..k])))
    && (GetAt(v, path).Some? ==> GetAt(v, path).value.Value?)
  }

  /** The image is the one named, and every path apart from it is as before. */
  ghost predicate ImageSet(before: Values, after: Values, image: string) {
    && GetAt(after, IMAGE) == Some(Value(image))
    && forall p: seq<string> | p != [] && Apart(p, IMAGE) :: GetAt(after, p) == GetAt(before, p)
  }

  /** The marker names the tag; the pin is the one given or, none given, one that was set is 0; every path
      apart from both is as before. */
  ghost predicate RolledBack(before: Values, after: Values, tag: string, pin: Option<string>, falsy: string -> bool) {
    && GetAt(after, MARKER) == Some(Value(tag))
    && GetAt(after, PIN) == (if pin.Some? then Some(Value(pin.value))
                             else if Falsy(GetAt(before, PIN), falsy) then GetAt(before, PIN)
                             else Some(Value("0")))
    && forall p: seq<string> | p != [] && Apart(p, MARKER) && Apart(p, PIN) :: GetAt(after, p) == GetAt(before, p)
  }

  // ----- Git -------------------------------------------------------------

  /** Commits are what they hold, as their names in Git are. */
  datatype Commit =
    | OnMain(sha: string, values: Values)
    | Promoted(base: Commit, values: Values, run: nat)

  /** An annotated tag's object. */
  datatype TagObject = TagObject(name: string, commit: Commit, run: nat)

  type Tags = map<string, TagObject>

  datatype Remote = Remote(branch: Option<Commit>, tags: Tags)

  // ----- one promoter ----------------------------------------------------

  /** A main commit and the digest its image pulls by, or a history tag to go back to. */
  datatype Request = Sha(main: Commit, digest: string) | Rollback(tag: string, pin: Option<string>)

  /** The image a main commit is built as: its first twelve characters, and the digest. */
  function ImageOf(sha: string, digest: string): string {
    "sha-" + (if |sha| > 12 then sha[..12] else sha) + "@" + digest
  }

  /** `began` is the clone's tags when the run began, `fetched` what it has fetched since: the tag a rollback names. */
  datatype Phase =
    | Idle
    | Started(request: Request, run: nat, seen: set<string>, saved: Option<TagObject>, began: Tags)
    | Built(request: Request, commit: Commit, n: nat, run: nat, seen: set<string>, saved: Option<TagObject>,
            began: Tags, fetched: Tags)
    | Tagged(request: Request, commit: Commit, n: nat, seen: set<string>, saved: Option<TagObject>,
             began: Tags, fetched: Tags)

  datatype Promoter = Promoter(tags: Tags, phase: Phase)

  datatype World = World(remote: Remote, promoters: map<nat, Promoter>)

  function Lookup(tags: Tags, name: string): Option<TagObject> {
    if name in tags then Some(tags[name]) else None
  }

  /** update-ref to the object, or -d. */
  function Restore(tags: Tags, name: string, o: Option<TagObject>): Tags {
    if o.Some? then tags[name := o.value] else tags - {name}
  }

  /** undo_tags. */
  function Undo(tags: Tags, n: nat, saved: Option<TagObject>): Tags { Restore(tags - {DevTag(n)}, "dev", saved) }

  /** build_promotion's and build_rollback's new values; None where the run fails. */
  function NewValues(base: Values, request: Request, falsy: string -> bool): Option<Values>
    requires request.Sha? ==> request.main.OnMain?
  {
    match request
    case Sha(main, digest) => SetAt(base, IMAGE, ImageOf(main.sha, digest))
    case Rollback(tag, pin) =>
      var marked := SetAt(base, MARKER, tag);
      if marked.None? then None
      else if pin.Some? then SetAt(marked.value, PIN, pin.value)
      else if Falsy(GetAt(marked.value, PIN), falsy) then marked
      else SetAt(marked.value, PIN, "0")
  }

  // ----- the steps -------------------------------------------------------

  /** remote_refs, and the local dev saved. */
  ghost predicate Start(w: World, w': World, p: nat, request: Request, run: nat) {
    && p in w.promoters && w.promoters[p].phase.Idle?
    && (request.Sha? ==> request.main.OnMain?)
    && var s := w.promoters[p];
       w' == w.(promoters := w.promoters[p := s.(phase :=
         Started(request, run, w.remote.tags.Keys, Lookup(s.tags, "dev"), s.tags))])
  }

  /** The commit, on main's or on the named tag's, which is fetched as the remote has it now. */
  ghost predicate Build(w: World, w': World, p: nat, falsy: string -> bool) {
    && p in w.promoters && w.promoters[p].phase.Started?
    && var s := w.promoters[p];
       var ph := s.phase;
       var r := ph.request;
       && (r.Sha? ==> r.main.OnMain?)
       && (r.Rollback? ==> IsHistory(r.tag) && r.tag in ph.seen && r.tag in w.remote.tags)
       && var fetched: Tags := if r.Rollback? then map[r.tag := w.remote.tags[r.tag]] else map[];
          var base := if r.Rollback? then w.remote.tags[r.tag].commit else r.main;
          var v := NewValues(base.values, r, falsy);
          && v.Some?
          && exists n: nat :: IsNext(ph.seen, n) && w' == w.(promoters := w.promoters[p :=
               Promoter(s.tags + fetched,
                        Built(r, Promoted(base, v.value, ph.run), n, ph.run, ph.seen, ph.saved, ph.began,
                              fetched))])
  }

  /** A run that fails before it makes a tag. */
  ghost predicate GiveUp(w: World, w': World, p: nat) {
    && p in w.promoters && (w.promoters[p].phase.Started? || w.promoters[p].phase.Built?)
    && w' == w.(promoters := w.promoters[p := w.promoters[p].(phase := Idle)])
  }

  /** make_tags, both signed and verified; a local dev-<n> already there stops it. */
  ghost predicate MakeTags(w: World, w': World, p: nat) {
    && p in w.promoters && w.promoters[p].phase.Built?
    && var s := w.promoters[p];
       var ph := s.phase;
       && DevTag(ph.n) !in s.tags
       && w' == w.(promoters := w.promoters[p := Promoter(
            s.tags["dev" := TagObject("dev", ph.commit, ph.run)]
                  [DevTag(ph.n) := TagObject(DevTag(ph.n), ph.commit, ph.run)],
            Tagged(ph.request, ph.commit, ph.n, ph.seen, ph.saved, ph.began, ph.fetched))])
  }

  /** make_tags failing at either tag or at verifying them, then undo_tags. */
  ghost predicate TagsFail(w: World, w': World, p: nat) {
    && p in w.promoters && w.promoters[p].phase.Built?
    && var s := w.promoters[p];
       w' == w.(promoters := w.promoters[p := Promoter(Undo(s.tags, s.phase.n, s.phase.saved), Idle)])
  }

  /** What the atomic push asks: both tags as the clone has them, and the branch. */
  function Pushed(r: Remote, tags: Tags, commit: Commit, n: nat): Remote
    requires "dev" in tags && DevTag(n) in tags
  {
    Remote(Some(commit), r.tags["dev" := tags["dev"]][DevTag(n) := tags[DevTag(n)]])
  }

  /** The push accepted: dev-<n>, not forced, is new to the remote. `told` is false when the answer was
      lost, which the run takes for a refusal. */
  ghost predicate PushAccepted(w: World, w': World, p: nat, told: bool) {
    && p in w.promoters && w.promoters[p].phase.Tagged?
    && var s := w.promoters[p];
       var ph := s.phase;
       && DevTag(ph.n) !in w.remote.tags && "dev" in s.tags && DevTag(ph.n) in s.tags
       && w' == World(Pushed(w.remote, s.tags, ph.commit, ph.n),
                      w.promoters[p := Promoter(if told then s.tags else Undo(s.tags, ph.n, ph.saved), Idle)])
  }

  /** The push refused, for dev-<n> or for anything else, and the tags undone. */
  ghost predicate PushRefused(w: World, w': World, p: nat) {
    && p in w.promoters && w.promoters[p].phase.Tagged?
    && var s := w.promoters[p];
       w' == w.(promoters := w.promoters[p := Promoter(Undo(s.tags, s.phase.n, s.phase.saved), Idle)])
  }

  /** One promoter's step. */
  ghost predicate StepOf(w: World, w': World, p: nat, falsy: string -> bool) {
    || (exists request, run :: Start(w, w', p, request, run))
    || Build(w, w', p, falsy) || GiveUp(w, w', p) || MakeTags(w, w', p) || TagsFail(w, w', p)
    || PushAccepted(w, w', p, true) || PushAccepted(w, w', p, false) || PushRefused(w, w', p)
  }

  ghost predicate Step(w: World, w': World, falsy: string -> bool) { exists p: nat :: StepOf(w, w', p, falsy) }

  /** A run of them all: any interleaving. */
  ghost predicate Run(ws: seq<World>, falsy: string -> bool) {
    && ws != [] && Initial(ws[0])
    && forall i | 0 <= i < |ws| - 1 :: Step(ws[i], ws[i + 1], falsy)
  }

  /** Every promoter idle; the remote aligned, its tags made by earlier promotions. */
  ghost predicate Initial(w: World) {
    Aligned(w.remote) && Provenance(w.remote.tags) && forall p | p in w.promoters :: w.promoters[p].phase.Idle?
  }

  // ----- what is claimed -------------------------------------------------

  /** dev, release/dev and the highest dev-<n> name one commit. */
  ghost predicate Aligned(r: Remote) {
    forall n: nat | IsNext(r.tags.Keys, n) && n > 1 ::
      "dev" in r.tags && r.branch.Some? &&
      r.tags["dev"].commit == r.tags[DevTag(n - 1)].commit == r.branch.value
  }

  /** Each history tag is a promotion of a main commit, or of an earlier history tag's commit with its
      image, marked with that tag's name. */
  ghost predicate Provenance(tags: Tags) {
    forall k: nat | k > 0 && DevTag(k) in tags :: Sourced(tags, k)
  }

  ghost predicate Sourced(tags: Tags, k: nat)
    requires DevTag(k) in tags
  {
    var c := tags[DevTag(k)].commit;
    && c.Promoted?
    && (OfMain(c) || exists j: nat :: Back(tags, k, j))
  }

  /** A main commit with its own image set, and nothing else changed. */
  ghost predicate OfMain(c: Commit) {
    && c.Promoted? && c.base.OnMain?
    && exists digest: string :: ImageSet(c.base.values, c.values, ImageOf(c.base.sha, digest))
  }

  /** The commit is what was asked for: a main commit with its image, or the named tag's commit marked. */
  ghost predicate AsAsked(c: Commit, r: Request, tags: Tags, falsy: string -> bool) {
    && c.Promoted?
    && match r
       case Sha(main, digest) =>
         c.base == main && main.OnMain? && ImageSet(main.values, c.values, ImageOf(main.sha, digest))
       case Rollback(tag, pin) =>
         && IsHistory(tag) && tag in tags && c.base == tags[tag].commit
         && RolledBack(tags[tag].commit.values, c.values, tag, pin, falsy)
  }

  /** dev-<k> is a rollback to dev-<j>. */
  ghost predicate Back(tags: Tags, k: nat, j: nat)
    requires DevTag(k) in tags
  {
    && 0 < j < k && DevTag(j) in tags
    && var c, b := tags[DevTag(k)].commit, tags[DevTag(j)].commit;
       && c.Promoted? && c.base == b && b.Promoted?
       && GetAt(c.values, MARKER) == Some(Value(DevTag(j)))
       && GetAt(c.values, IMAGE) == GetAt(b.values, IMAGE)
  }
}
