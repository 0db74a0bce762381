/** Registering a declaration's schemas (scripts/schemas.py apply_action): asked first, the references
    registered, the importers that had to wait asked, and only then the rest; a refusal undoes what the
    run added. The registry is shared, so every write is a call that may fail. */
module Schemas {
  import opened Options

  // ----- the declaration -------------------------------------------------

  datatype Item = Item(subject: string, file: string)

  datatype Declaration = Declaration(
    prefix: string, mode: string, references: seq<Item>, subjects: seq<Item>,
    imports: map<string, seq<string>>, sources: map<string, string>)
  {
    function Deps(file: string): seq<string> { if file in imports then imports[file] else [] }

    function Source(file: string): string { if file in sources then sources[file] else "" }

    function Name(subject: string): string { if prefix == "" then subject else prefix + "." + subject }

    /** What the offline check demands of references and imports, and that no subject has a reference's
        name. */
    ghost predicate Checked() {
      && (forall r | r in references :: Deps(r.file) == [] && r.subject == r.file)
      && (forall s, dep | s in subjects && dep in Deps(s.file) :: exists r | r in references :: r.file == dep)
      && forall r, s | r in references && s in subjects :: r.subject != s.subject
    }
  }

  lemma NamesDiffer(d: Declaration, a: string, b: string)
    requires a != b
    ensures d.Name(a) != d.Name(b)
  {
    var p := d.prefix + ".";
    assert (p + a)[|p|..] == a && (p + b)[|p|..] == b;
  }

  /** An environment's names start with its prefix, so two environments' names, their prefixes without a dot,
      never meet. */
  lemma NamesApart(d: Declaration, e: Declaration, a: string, b: string)
    requires d.prefix != "" && e.prefix != "" && '.' !in d.prefix && '.' !in e.prefix
    ensures d.Name(a)[..|d.prefix| + 1] == d.prefix + "."
    ensures d.Name(a) == e.Name(b) <==> d.prefix == e.prefix && a == b
  {
    var p, q := d.prefix + ".", e.prefix + ".";
    assert d.Name(a) == p + a && e.Name(b) == q + b;
    assert (p + a)[..|p|] == p && (p + a)[|p|..] == a && (q + b)[|q|..] == b && (q + b)[..|q|] == q;
    if d.Name(a) == e.Name(b) {
      assert d.Name(a)[|d.prefix|] == '.' && d.Name(a)[|e.prefix|] == '.';
      assert p[..|d.prefix|] == d.prefix && q[..|e.prefix|] == e.prefix;
    }
  }

  // ----- what a registry holds -------------------------------------------

  datatype Key = Key(subject: string, version: nat)

  datatype Ref = Ref(name: string, subject: string, version: nat)

  /** One registered version; a soft-deleted one is hidden from readers. */
  datatype Cell = Cell(source: string, refs: seq<Ref>, live: bool)

  type Cells = map<Key, Cell>

  ghost predicate IsTop(cells: Cells, subject: string, v: nat) {
    && Key(subject, v) in cells && cells[Key(subject, v)].live
    && forall w: nat | Key(subject, w) in cells && cells[Key(subject, w)].live :: w <= v
  }

  /** GET /subjects/<subject>/versions/latest; None is its 404. */
  ghost function Latest(cells: Cells, subject: string): (r: Option<nat>)
    ensures r.Some? ==> IsTop(cells, subject, r.value)
  {
    if exists v: nat :: IsTop(cells, subject, v) then
      var v: nat :| IsTop(cells, subject, v);
      Some(v)
    else None
  }

  /** POST /subjects/<subject>: whether the source is registered there, at any version. */
  ghost predicate Found(cells: Cells, subject: string, source: string, refs: seq<Ref>) {
    exists v: nat :: Key(subject, v) in cells && cells[Key(subject, v)] == Cell(source, refs, true)
  }

  /** reference_list: the latest version of each import that is registered. */
  ghost function RefsTo(cells: Cells, d: Declaration, deps: seq<string>): seq<Ref> {
    if deps == [] then []
    else
      var dep := deps[|deps| - 1];
      var v := Latest(cells, d.Name(dep));
      RefsTo(cells, d, deps[..|deps| - 1]) + if v.None? then [] else [Ref(dep, d.Name(dep), v.value)]
  }

  ghost function RefsOf(cells: Cells, d: Declaration, file: string): seq<Ref> { RefsTo(cells, d, d.Deps(file)) }

  /** Every import is registered with the source declared now. */
  ghost predicate Ready(cells: Cells, d: Declaration, file: string) {
    forall dep | dep in d.Deps(file) :: Found(cells, d.Name(dep), d.Source(dep), RefsOf(cells, d, dep))
  }

  /** The declaration's schemas are all registered, so a run has nothing to add. */
  ghost predicate InSync(cells: Cells, d: Declaration) {
    forall x | x in d.references + d.subjects :: Registered(cells, d, x)
  }

  ghost predicate Registered(cells: Cells, d: Declaration, x: Item) {
    Found(cells, d.Name(x.subject), d.Source(x.file), RefsOf(cells, d, x.file))
  }

  // ----- what a run leaves -----------------------------------------------

  /** `found` and, beside it, only versions among `extra`. */
  ghost predicate KeepsWithin(found: Cells, now: Cells, extra: set<Key>) {
    && (forall k | k in found :: k in now && now[k] == found[k])
    && (forall k | k in now :: k in found || k in extra)
    && forall k | k in extra :: k !in found
  }

  /** `found` and, beside it, exactly the versions of `extra`. */
  ghost predicate Grown(found: Cells, now: Cells, extra: set<Key>) {
    KeepsWithin(found, now, extra) && forall k | k in extra :: k in now
  }

  ghost predicate SameAt(a: Cells, b: Cells, subject: string) {
    forall v: nat :: (Key(subject, v) in a <==> Key(subject, v) in b) &&
                     (Key(subject, v) in a && Key(subject, v) in b ==> a[Key(subject, v)] == b[Key(subject, v)])
  }

  function Keys(s: seq<Key>): set<Key> { set k | k in s }

  // ----- lemmas on the readings ------------------------------------------

  lemma LatestSame(a: Cells, b: Cells, subject: string)
    requires SameAt(a, b, subject)
    ensures Latest(a, subject) == Latest(b, subject)
  {
    assert forall v: nat :: IsTop(a, subject, v) <==> IsTop(b, subject, v);
  }

  lemma TopIs(cells: Cells, subject: string, best: Option<nat>)
    requires best.Some? ==> IsTop(cells, subject, best.value)
    requires best.None? ==> forall k | k in cells && k.subject == subject :: !cells[k].live
    ensures Latest(cells, subject) == best
  {
  }

  lemma {:induction false} RefsSame(a: Cells, b: Cells, d: Declaration, deps: seq<string>)
    requires forall dep | dep in deps :: SameAt(a, b, d.Name(dep))
    ensures RefsTo(a, d, deps) == RefsTo(b, d, deps)
  {
    hide SameAt; hide Latest;
    if deps != [] {
      RefsSame(a, b, d, deps[..|deps| - 1]);
      assert deps[|deps| - 1] in deps;
      LatestSame(a, b, d.Name(deps[|deps| - 1]));
    }
  }

  /** A list of references names exactly the registered imports, each at its latest version. */
  lemma {:induction false} RefsAre(cells: Cells, d: Declaration, deps: seq<string>, ref: Ref)
    ensures ref in RefsTo(cells, d, deps) <==>
            ref.name in deps && ref.subject == d.Name(ref.name) && Latest(cells, ref.subject) == Some(ref.version)
  {
    hide Latest;
    if deps != [] {
      var front := deps[..|deps| - 1];
      RefsAre(cells, d, front, ref);
      assert deps == front + [deps[|deps| - 1]];
    }
  }

  /** It is in the imports' order. */
  lemma {:induction false} RefsInOrder(cells: Cells, d: Declaration, a: seq<string>, b: seq<string>)
    ensures RefsTo(cells, d, a + b) == RefsTo(cells, d, a) + RefsTo(cells, d, b)
  {
    hide Latest;
    if b == [] {
      assert a + b == a;
    } else {
      var front := b[..|b| - 1];
      RefsInOrder(cells, d, a, front);
      assert (a + b)[..|a + b| - 1] == a + front && (a + b)[|a + b| - 1] == b[|b| - 1];
    }
  }

  lemma SameTrans(a: Cells, b: Cells, c: Cells, subject: string)
    requires SameAt(a, b, subject) && SameAt(b, c, subject)
    ensures SameAt(a, c, subject)
  {
  }

  lemma FoundStays(a: Cells, b: Cells, subject: string, source: string, refs: seq<Ref>)
    requires Found(a, subject, source, refs) && forall k | k in a :: k in b && b[k] == a[k]
    ensures Found(b, subject, source, refs)
  {
  }

  /** Keys added under other subjects change nothing here. */
  lemma GrownElsewhere(a: Cells, b: Cells, extra: set<Key>, subject: string)
    requires KeepsWithin(a, b, extra) && forall k | k in extra :: k.subject != subject
    ensures SameAt(a, b, subject)
  {
  }

  // ----- the registry ----------------------------------------------------

  /** What a write comes to: done, refused by an HTTP error, or lost on the way there or back. */
  datatype Fate = Done | Refused | Lost

  /** A call as it went: a read, lost or answered, or a write and its fate. */
  datatype Call =
    | Read(lost: bool)
    | Posted(subject: string, fate: Fate)
    | Removed(key: Key, permanent: bool, fate: Fate)
    | Moded(fate: Fate)
  {
    predicate Failed() { if Read? then lost else fate != Done }
  }

  /** Every call after the first `from` was answered or done. */
  ghost predicate Went(calls: seq<Call>, from: nat) { forall i | from <= i < |calls| :: !calls[i].Failed() }

  ghost predicate LostRead(calls: seq<Call>, from: nat) {
    exists i | from <= i < |calls| :: calls[i].Read? && calls[i].Failed()
  }

  ghost predicate BadPut(calls: seq<Call>, from: nat, subject: string) {
    exists i | from <= i < |calls| ::
      (calls[i].Read? || calls[i] == Posted(subject, calls[i].fate)) && calls[i].Failed()
  }

  ghost predicate BadMode(calls: seq<Call>, from: nat) {
    exists i | from <= i < |calls| :: calls[i].Moded? && calls[i].Failed()
  }

  /** What a longer log of calls says of a shorter one. */
  lemma LogGrows(a: seq<Call>, b: seq<Call>, from: nat, subject: string)
    requires a <= b && from <= |a|
    ensures Went(b, from) <==> Went(a, from) && Went(b, |a|)
    ensures LostRead(b, from) <==> LostRead(a, from) || LostRead(b, |a|)
    ensures BadPut(b, from, subject) <==> BadPut(a, from, subject) || BadPut(b, |a|, subject)
    ensures BadMode(b, from) <==> BadMode(a, from) || BadMode(b, |a|)
  {
    assert forall i | 0 <= i < |a| :: a[i] == b[i];
    if i :| from <= i < |a| && a[i].Failed() { assert b[i].Failed(); }
    if LostRead(a, from) {
      var i :| from <= i < |a| && a[i].Read? && a[i].Failed();
      assert b[i].Read? && b[i].Failed();
    }
    if BadPut(a, from, subject) {
      var i :| from <= i < |a| && (a[i].Read? || a[i] == Posted(subject, a[i].fate)) && a[i].Failed();
      assert (b[i].Read? || b[i] == Posted(subject, b[i].fate)) && b[i].Failed();
    }
    if BadMode(a, from) {
      var i :| from <= i < |a| && a[i].Moded? && a[i].Failed();
      assert b[i].Moded? && b[i].Failed();
    }
  }

  class Registry {
    /** Every call made of the registry, in order, as it went. */
    ghost var calls: seq<Call>
    var cells: Cells
    /** Compatibility modes set, per subject and globally (None). */
    var modes: map<Option<string>, string>
    /** The registry's compatibility verdict on a source against a registered version. */
    const fits: (Cell, string, seq<Ref>) -> bool
    /** Whether a write whose answer was lost may have been carried out. */
    const carriesOutLost: bool

    /** The registry accepts the source after what the subject's latest version is, or the subject is new. */
    ghost predicate Accepts(held: Cells, subject: string, source: string, refs: seq<Ref>)
    {
      Latest(held, subject).None? ||
      fits(held[Key(subject, Latest(held, subject).value)], source, refs)
    }

    constructor (fits: (Cell, string, seq<Ref>) -> bool, carriesOutLost: bool)
      ensures cells == map[] && modes == map[] && this.fits == fits && this.carriesOutLost == carriesOutLost
      ensures calls == []
    {
      calls := [];
      this.fits, this.carriesOutLost := fits, carriesOutLost;
      cells, modes := map[], map[];
    }

    // --- reads: answered truthfully, or lost (the outer None) ---

    method GetLatest(subject: string) returns (r: Option<Option<nat>>)
      modifies this`calls
      ensures calls == old(calls) + [Read(r.None?)]
      ensures r.Some? ==> r.value == Latest(cells, subject)
    {
      var lost: bool := *;
      calls := calls + [Read(lost)];
      if lost { return None; }
      var left := cells.Keys;
      var best: Option<nat> := None;
      while left != {}
        invariant left <= cells.Keys
        invariant forall k | k in cells && k !in left && k.subject == subject && cells[k].live ::
                    best.Some? && k.version <= best.value
        invariant best.Some? ==> Key(subject, best.value) in cells && cells[Key(subject, best.value)].live
        decreases left
      {
        var k :| k in left;
        left := left - {k};
        if k.subject == subject && cells[k].live && (best.None? || best.value < k.version) { best := Some(k.version); }
      }
      TopIs(cells, subject, best);
      return Some(best);
    }

    method Lookup(subject: string, source: string, refs: seq<Ref>) returns (r: Option<bool>)
      modifies this`calls
      ensures calls == old(calls) + [Read(r.None?)]
      ensures r.Some? ==> r.value == Found(cells, subject, source, refs)
    {
      var lost: bool := *;
      calls := calls + [Read(lost)];
      if lost { return None; }
      if k :| k in cells && k.subject == subject && cells[k] == Cell(source, refs, true) {
        assert Key(subject, k.version) == k;
        return Some(true);
      }
      assert forall v: nat :: Key(subject, v) in cells ==> cells[Key(subject, v)] != Cell(source, refs, true);
      return Some(false);
    }

    /** POST /compatibility: the verdict on a source against one registered version. */
    method Verdict(key: Key, source: string, refs: seq<Ref>) returns (r: Option<bool>)
      requires key in cells
      modifies this`calls
      ensures calls == old(calls) + [Read(r.None?)]
      ensures r.Some? ==> r.value == fits(cells[key], source, refs)
    {
      var lost: bool := *;
      calls := calls + [Read(lost)];
      return if lost then None else Some(fits(cells[key], source, refs));
    }

    // --- writes ---

    /** POST /subjects/<subject>/versions: a version above every one the subject holds. */
    method Post(subject: string, source: string, refs: seq<Ref>) returns (fate: Fate, ghost added: set<Key>)
      modifies this`cells, this`calls
      ensures calls == old(calls) + [Posted(subject, fate)]
      ensures Grown(old(cells), cells, added) && |added| <= 1 && (fate == Done ==> added != {})
      ensures fate == Refused || (fate == Lost && !carriesOutLost) ==> added == {}
      ensures forall k | k in added :: k.subject == subject && cells[k] == Cell(source, refs, true) &&
                                       Latest(cells, subject) == Some(k.version)
    {
      fate := *;
      calls := calls + [Posted(subject, fate)];
      var done: bool := *;
      added := {};
      if fate == Done || (fate == Lost && carriesOutLost && done) {
        ghost var held := cells;
        var version := Above(cells);
        var key := Key(subject, version);
        cells := cells[key := Cell(source, refs, true)];
        added := {key};
        assert IsTop(cells, subject, version);
      }
    }

    /** DELETE one version, softly or for good. */
    method Delete(key: Key, permanent: bool) returns (fate: Fate)
      modifies this`cells, this`calls
      ensures calls == old(calls) + [Removed(key, permanent, fate)]
      ensures fate == Done ==> cells == Deleted(old(cells), key, permanent)
      ensures fate == Refused || (fate == Lost && !carriesOutLost) ==> cells == old(cells)
      ensures cells == old(cells) || cells == Deleted(old(cells), key, permanent)
    {
      fate := *;
      calls := calls + [Removed(key, permanent, fate)];
      var done: bool := *;
      if fate == Done || (fate == Lost && carriesOutLost && done) {
        cells := Deleted(cells, key, permanent);
      }
    }

    /** PUT /config or /config/<subject>. */
    method SetMode(subject: Option<string>, mode: string) returns (fate: Fate)
      modifies this`modes, this`calls
      ensures calls == old(calls) + [Moded(fate)]
      ensures fate == Done ==> modes == old(modes)[subject := mode]
      ensures modes == old(modes) || modes == old(modes)[subject := mode]
    {
      fate := *;
      calls := calls + [Moded(fate)];
      var done: bool := *;
      if fate == Done || (fate == Lost && carriesOutLost && done) { modes := modes[subject := mode]; }
    }
  }

  function Deleted(cells: Cells, key: Key, permanent: bool): Cells {
    if key !in cells then cells
    else if permanent then map k | k in cells && k != key :: cells[k]
    else cells[key := cells[key].(live := false)]
  }

  /** A number above every version held. */
  method Above(cells: Cells) returns (n: nat)
    ensures forall k | k in cells :: k.version < n
  {
    n := 1;
    var left := cells.Keys;
    while left != {}
      invariant left <= cells.Keys
      invariant forall k | k in cells && k !in left :: k.version < n
      decreases left
    {
      var k :| k in left;
      left := left - {k};
      if k.version >= n { n := k.version + 1; }
    }
  }
}
