/** Suspending an Application's automated sync over a server stop and restoring it on start
    (scripts/server_ctl.py suspend, restore). Each patch may be the run's last. */
module SyncPolicy {
  import opened Options

  type Policy = map<string, string>

  /** The two places the policy can be: the spec, and the annotation that records it. */
  datatype App = App(automated: Option<Policy>, recorded: Option<Policy>)

  datatype Patch = Record(policy: Policy) | Remove | Add(policy: Policy) | Forget

  function Patched(a: App, p: Patch): App {
    match p
    case Record(policy) => a.(recorded := Some(policy))
    case Remove => a.(automated := None)
    case Add(policy) => a.(automated := Some(policy))
    case Forget => a.(recorded := None)
  }

  function PatchedAll(a: App, ps: seq<Patch>): App {
    if ps == [] then a else Patched(PatchedAll(a, ps[..|ps| - 1]), ps[|ps| - 1])
  }

  lemma PatchedFew(a: App, p: Patch, q: Patch)
    ensures PatchedAll(a, [p]) == Patched(a, p) && PatchedAll(a, [p, q]) == Patched(Patched(a, p), q)
  {
    assert [p][..0] == [] && [p, q][..1] == [p];
  }

  // ----- what each run decides from what it read -------------------------

  function SuspendPatches(read: App): seq<Patch> {
    if read.automated.None? then []
    else (if read.recorded.None? then [Record(read.automated.value)] else []) + [Remove]
  }

  function RestorePatches(read: App): seq<Patch> {
    if read.recorded.None? then [] else [Add(read.recorded.value), Forget]
  }

  datatype Command = Stop | Start

  function Patches(c: Command, read: App): seq<Patch> {
    match c case Stop => SuspendPatches(read) case Start => RestorePatches(read)
  }

  /** The object in the cluster, and the two procedures as they run on it. */
  class Application {
    var app: App
    /** How many calls have failed, or been a run's last. */
    ghost var failures: nat

    constructor (app: App)
      ensures this.app == app && failures == 0
    {
      this.app, failures := app, 0;
    }

    /** A call to the cluster. */
    method Call() returns (cut: bool)
      modifies this`failures
      ensures failures == old(failures) + if cut then 1 else 0
    {
      cut := *;
      failures := failures + if cut then 1 else 0;
    }

    /** Cut off after any patch; `done` when it was not. The result is whether a stop holds the sync. */
    method Suspend() returns (suspended: bool, done: bool, ghost made: nat)
      modifies this
      ensures made <= |SuspendPatches(old(app))| && app == PatchedAll(old(app), SuspendPatches(old(app))[..made])
      ensures done ==> made == |SuspendPatches(old(app))| &&
                       (suspended <==> old(app).automated.Some? || old(app).recorded.Some?)
      ensures old(failures) <= failures && (done <==> failures == old(failures))
    {
      suspended, done, made := false, false, 0;
      var read := app;
      var cut := Call();
      if cut { return; }
      if read.automated.Some? && read.recorded.None? {
        app := Patched(app, Record(read.automated.value));
        made := made + 1;
        cut := Call();
        if cut { return; }
      }
      if read.automated.Some? {
        app := Patched(app, Remove);
        made := made + 1;
        PatchedFew(read, if made == 1 then Remove else Record(read.automated.value), Remove);
        return true, true, made;
      }
      return read.recorded.Some?, true, made;
    }

    method Restore() returns (done: bool, ghost made: nat)
      modifies this
      ensures made <= |RestorePatches(old(app))| && app == PatchedAll(old(app), RestorePatches(old(app))[..made])
      ensures done ==> made == |RestorePatches(old(app))|
      ensures old(failures) <= failures && (done <==> failures == old(failures))
    {
      done, made := false, 0;
      var read := app;
      var cut := Call();
      if cut { return; }
      if read.recorded.None? { return true, made; }
      app := Patched(app, Add(read.recorded.value));
      made := made + 1;
      PatchedFew(read, Add(read.recorded.value), Forget);
      assert RestorePatches(read)[..1] == [Add(read.recorded.value)] &&
                 RestorePatches(read)[..2] == RestorePatches(read);
      cut := Call();
      if cut { return; }
      app := Patched(app, Forget);
      return true, made + 1;
    }
  }

  // ----- the policy is never lost ----------------------------------------

  /** The policy is in the spec or the annotation, and no other value is in either. */
  ghost predicate Holds(a: App, p: Policy) {
    && (a.automated == Some(p) || a.recorded == Some(p))
    && (a.automated.Some? ==> a.automated.value == p) && (a.recorded.Some? ==> a.recorded.value == p)
  }

  /** An attempt, cut off after so many patches. */
  datatype Attempt = Attempt(command: Command, made: nat)

  function AfterOne(a: App, t: Attempt): App {
    var ps := Patches(t.command, a);
    PatchedAll(a, if t.made <= |ps| then ps[..t.made] else ps)
  }

  function After(a: App, ts: seq<Attempt>): App {
    if ts == [] then a else AfterOne(After(a, ts[..|ts| - 1]), ts[|ts| - 1])
  }

  lemma OneKeeps(a: App, t: Attempt, p: Policy)
    requires Holds(a, p)
    ensures Holds(AfterOne(a, t), p)
    ensures t.made >= |Patches(t.command, a)| ==>
              AfterOne(a, t) == (if t.command == Stop then App(None, Some(p)) else App(Some(p), None))
  {
    var ps := Patches(t.command, a);
    var made := if t.made <= |ps| then ps[..t.made] else ps;
    assert made == [] || made == [ps[0]] || (|ps| == 2 && made == [ps[0], ps[1]]);
    if ps != [] { PatchedFew(a, ps[0], ps[|ps| - 1]); }
  }

  /** Over every sequence of stops and starts, each cut off anywhere, the policy is held; a last attempt that
      completes leaves it in one place alone: the annotation after a stop, the spec after a start. */
  lemma {:induction false} NeverLost(a: App, p: Policy, ts: seq<Attempt>)
    requires Holds(a, p)
    ensures Holds(After(a, ts), p)
    ensures ts != [] && ts[|ts| - 1].made >= |Patches(ts[|ts| - 1].command, After(a, ts[..|ts| - 1]))| ==>
              After(a, ts) == (if ts[|ts| - 1].command == Stop then App(None, Some(p)) else App(Some(p), None))
    decreases |ts|
  {
    hide AfterOne; hide Holds;
    if ts != [] {
      NeverLost(a, p, ts[..|ts| - 1]);
      OneKeeps(After(a, ts[..|ts| - 1]), ts[|ts| - 1], p);
    }
  }

  // ----- a stop and a start at once --------------------------------------

  /** What the two runs do to the Application, and when each read it. */
  datatype Event = StopReads | Records | Removes | StartReads | Adds | Forgets

  function EventOf(p: Patch): Event {
    match p case Record(_) => Records case Remove => Removes case Add(_) => Adds case Forget => Forgets
  }

  /** One stop and one start under way: what each still has to patch, None before it has read. */
  datatype Both = Both(app: App, stop: Option<seq<Patch>>, start: Option<seq<Patch>>, log: seq<Event>)

  /** The next step of one of them: its read, then its patches in turn; nothing when it is done. */
  function Move(b: Both, c: Command): Both {
    match c
    case Stop =>
      if b.stop.None? then b.(stop := Some(SuspendPatches(b.app)), log := b.log + [StopReads])
      else if b.stop.value == [] then b
      else Both(Patched(b.app, b.stop.value[0]), Some(b.stop.value[1..]), b.start, b.log + [EventOf(b.stop.value[0])])
    case Start =>
      if b.start.None? then b.(start := Some(RestorePatches(b.app)), log := b.log + [StartReads])
      else if b.start.value == [] then b
      else Both(Patched(b.app, b.start.value[0]), b.stop, Some(b.start.value[1..]), b.log + [EventOf(b.start.value[0])])
  }

  /** Any interleaving, cut off anywhere: `turns` says whose step comes next. */
  function Interleaved(a: App, turns: seq<Command>): Both {
    if turns == [] then Both(a, None, None, []) else Move(Interleaved(a, turns[..|turns| - 1]), turns[|turns| - 1])
  }

  ghost predicate Later(log: seq<Event>, x: Event,
                        y: Event) { exists i, j | 0 <= i < j < |log| :: log[i] == x && log[j] == y }

  /** The stop's Remove comes after the start's Add, and the start's Forget after the stop's Record, or
      after its read when it made none. */
  ghost predicate Crossed(log: seq<Event>) {
    Later(log, Adds, Removes) && Later(log, if Records in log then Records else StopReads, Forgets)
  }

  lemma LaterMore(log: seq<Event>, e: Event)
    ensures forall x, y :: Later(log + [e], x, y) <==> Later(log, x, y) || (e == y && x in log)
    ensures forall x :: x in log + [e] <==> x in log || x == e
  {
    var more := log + [e];
    forall x, y ensures Later(more, x, y) <==> Later(log, x, y) || (e == y && x in log) {
      if Later(more, x, y) {
        var i, j :| 0 <= i < j < |more| && more[i] == x && more[j] == y;
        assert j < |log| ==> log[i] == x && log[j] == y;
      }
      if i, j :| 0 <= i < j < |log| && log[i] == x && log[j] == y { assert more[i] == x && more[j] == y; }
      if e == y && x in log {
        var i :| 0 <= i < |log| && log[i] == x;
        assert more[i] == x && more[|log|] == y;
      }
    }
  }

  /** What of the log matters: what is in it, and which of two came first. */
  datatype Gist = Gist(
    stopRead: bool, recorded: bool, removed: bool, added: bool, forgot: bool,
    addRemove: bool, recordForget: bool, readForget: bool, forgetRead: bool)

  ghost function GistOf(log: seq<Event>): Gist {
    Gist(StopReads in log, Records in log, Removes in log, Adds in log, Forgets in log,
         Later(log, Adds, Removes), Later(log, Records, Forgets),
         Later(log, StopReads, Forgets), Later(log, Forgets, StopReads))
  }

  function Noted(g: Gist, e: Event): Gist {
    match e
    case StopReads => g.(stopRead := true, forgetRead := g.forgetRead || g.forgot)
    case Records => g.(recorded := true)
    case Removes => g.(removed := true, addRemove := g.addRemove || g.added)
    case StartReads => g
    case Adds => g.(added := true)
    case Forgets =>
      g.(forgot := true, recordForget := g.recordForget || g.recorded, readForget := g.readForget || g.stopRead)
  }

  lemma GistMore(log: seq<Event>, e: Event)
    ensures GistOf(log + [e]) == Noted(GistOf(log), e)
  {
    LaterMore(log, e);
    hide Later;
  }

  /** What two runs at once come to, at any point: what each place holds is what last set or cleared it, a
      Remove is made only of a policy that is recorded, and a Forget only after an Add. */
  ghost predicate Tracks(a: App, b: Both, g: Gist, p: Policy) {
    && b.app == App(
         if g.removed && (!g.added || g.addRemove) then None else if g.added then Some(p) else a.automated,
         if g.forgot && (!g.recorded || g.recordForget) then None else if g.recorded then Some(p) else a.recorded)
    && (b.stop.None? ==> !g.stopRead && !g.recorded && !g.removed)
    && (b.stop.Some? ==>
          && g.stopRead
          && (b.stop.value == [Record(p), Remove] || b.stop.value == [Remove] || b.stop.value == [])
          && (b.stop.value != [] ==> !g.removed) && (b.stop.value == [Record(p), Remove] ==> !g.recorded)
          && (b.stop.value != [Record(p), Remove] && !g.recorded && (g.removed || b.stop.value == [Remove]) ==>
                a.recorded.Some? && !g.forgetRead)
          && (g.forgot ==> g.forgetRead || g.readForget))
    && (b.start.None? ==> !g.added && !g.forgot)
    && (b.start.Some? ==>
          && (b.start.value == [Add(p), Forget] || b.start.value == [Forget] || b.start.value == [])
          && (b.start.value == [Add(p), Forget] ==> !g.added) && (b.start.value != [] ==> !g.forgot)
          && (b.start.value == [Forget] ==> g.added))
    && (g.forgot ==> g.added) && (g.addRemove ==> g.added && g.removed)
    && (g.recordForget ==> g.recorded && g.forgot) && (g.readForget ==> g.stopRead && g.forgot)
    && (g.forgetRead ==> g.forgot)
  }

  lemma Rest(p: Policy)
    ensures [Record(p), Remove][1..] == [Remove] && [Add(p), Forget][1..] == [Forget]
    ensures [Remove][1..] == [] && [Forget][1..] == []
    ensures [Record(p), Remove][0] == Record(p) && [Add(p), Forget][0] == Add(p)
  {
  }

  lemma MoveTracks(a: App, b: Both, g: Gist, p: Policy, c: Command)
    requires Holds(a, p) && Tracks(a, b, g, p)
    ensures var b' := Move(b, c);
            || (b'.log == b.log && Tracks(a, b', g, p))
            || (|b'.log| == |b.log| + 1 && b'.log == b.log + [b'.log[|b.log|]] &&
                Tracks(a, b', Noted(g, b'.log[|b.log|]), p))
  {
    Rest(p);
    var b' := Move(b, c);
    var stop := SuspendPatches(b.app);
    assert c == Stop ==> stop == [Record(p), Remove] || stop == [Remove] || stop == [];
    assert c == Start ==> RestorePatches(b.app) == [Add(p), Forget] || RestorePatches(b.app) == [];
  }

  lemma {:induction false} InterleavedTracks(a: App, p: Policy, turns: seq<Command>)
    requires Holds(a, p)
    ensures var b := Interleaved(a, turns); Tracks(a, b, GistOf(b.log), p)
    decreases |turns|
  {
    if turns != [] {
      InterleavedTracks(a, p, turns[..|turns| - 1]);
      var b, c := Interleaved(a, turns[..|turns| - 1]), turns[|turns| - 1];
      MoveTracks(a, b, GistOf(b.log), p, c);
      var b' := Move(b, c);
      hide Tracks; hide GistOf; hide Move; hide Noted;
      if b'.log != b.log { GistMore(b.log, b'.log[|b.log|]); }
    }
  }

  /** A stop and a start must not overlap. In every interleaving of one of each, at every point of it, the
      policy is gone from both places exactly when the two have crossed; otherwise it is held, and no other
      value is ever in either place. */
  lemma OverlapLosesIff(a: App, p: Policy, turns: seq<Command>)
    requires Holds(a, p)
    ensures var b := Interleaved(a, turns);
            && (Holds(b.app, p) <==> !Crossed(b.log))
            && (Crossed(b.log) ==> b.app == App(None, None))
  {
    InterleavedTracks(a, p, turns);
    hide Later; hide Interleaved;
  }

  lemma MoveIs(a: App, t: seq<Command>, c: Command)
    ensures Interleaved(a, t + [c]) == Move(Interleaved(a, t), c)
  {
    assert (t + [c])[..|t|] == t;
  }

  /** The stop reads and records. */
  lemma StopRecords(p: Policy)
    ensures Interleaved(App(Some(p), None), [Stop, Stop]) ==
            Both(App(Some(p), Some(p)), Some([Remove]), None, [StopReads, Records])
  {
    var a := App(Some(p), None);
    MoveIs(a, [], Stop);
    MoveIs(a, [Stop], Stop);
    assert [] + [Stop] == [Stop] && [Stop] + [Stop] == [Stop, Stop];
    hide Interleaved;
    assert Interleaved(a, []) == Both(a, None, None, []) by { NoTurns(a); }
    assert [Record(p)] + [Remove] == [Record(p), Remove] && [] + [StopReads] == [StopReads];
    Rest(p);
  }

  lemma NoTurns(a: App)
    ensures Interleaved(a, []) == Both(a, None, None, [])
  {
  }

  /** The start reads, adds and forgets. */
  lemma StartGoes(b: Both, p: Policy)
    requires b.app == App(Some(p), Some(p)) && b.start == None
    ensures Move(Move(Move(b, Start), Start), Start) ==
            Both(App(Some(p), None), b.stop, Some([]), b.log + [StartReads, Adds, Forgets])
  {
    Rest(p);
    var c := Move(b, Start);
    assert c == b.(start := Some([Add(p), Forget]), log := b.log + [StartReads]);
    var d := Move(c, Start);
    assert d == b.(start := Some([Forget]), log := b.log + [StartReads] + [Adds]);
    assert b.log + [StartReads] + [Adds] + [Forgets] == b.log + [StartReads, Adds, Forgets];
  }

  /** From the ordinary state: the stop records, the start comes and goes, and the stop removes. */
  lemma RecordFirstLoses(p: Policy)
    ensures var b := Interleaved(App(Some(p), None), [Stop, Stop] + [Start] + [Start] + [Start] + [Stop]);
            && b.app == App(None, None) && b.stop == Some([]) && b.start == Some([])
            && b.log == [StopReads, Records] + [StartReads, Adds, Forgets] + [Removes]
  {
    var a := App(Some(p), None);
    StopRecords(p);
    var b := Interleaved(a, [Stop, Stop]);
    MoveIs(a, [Stop, Stop], Start);
    MoveIs(a, [Stop, Stop] + [Start], Start);
    MoveIs(a, [Stop, Stop] + [Start] + [Start], Start);
    MoveIs(a, [Stop, Stop] + [Start] + [Start] + [Start], Stop);
    StartGoes(b, p);
    hide Interleaved;
    var e := Move(Move(Move(b, Start), Start), Start);
    hide *;
    RemoveLast(e, p);
  }

  lemma RemoveLast(b: Both, p: Policy)
    requires b.app == App(Some(p), None) && b.stop == Some([Remove])
    ensures Move(b, Stop) == Both(App(None, None), Some([]), b.start, b.log + [Removes])
  {
    Rest(p);
  }
}
