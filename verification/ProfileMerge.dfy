/** Profile values merged onto the base values (scripts/collectors.py merge, leaf_paths,
    profile_problems): what an accepted profile can reach. */
module ProfileMerge {
  import opened Options
  import opened Strings

  /** A YAML value: a mapping, or anything else. */
  datatype Node = Leaf(value: string) | Map(fields: map<string, Node>)

  type Path = seq<string>

  const PROFILE_PATHS: set<Path> :=
    {["cluster", "name"], ["annotationAutodiscovery", "namespaces"], ["podLogsViaLoki", "namespaces"],
     ["collectors", "fleet"]}

  function Dotted(p: Path): string { Join(p, '.') }

  /** PROFILE_KEYS, as it is written: dotted. */
  function ProfileKeys(): set<string> { set p | p in PROFILE_PATHS :: Dotted(p) }

  // ----- merge -----------------------------------------------------------

  /** over deep-merged onto base: mappings merge, anything else replaces. */
  function Merge(base: Node, over: Node): (r: Node)
    requires base.Map? && over.Map?
    ensures r.Map?
    decreases over
  {
    Map(map k | k in base.fields.Keys + over.fields.Keys ::
          if k !in over.fields then base.fields[k]
          else if k in base.fields && over.fields[k].Map? && base.fields[k].Map? then
            Merge(base.fields[k], over.fields[k])
          else over.fields[k])
  }

  /** The loop over the profile's items, updating a copy of the base. */
  method MergeItems(base: Node, over: Node) returns (r: Node)
    requires base.Map? && over.Map?
    ensures r == Merge(base, over)
    decreases over
  {
    var out, todo := base.fields, over.fields.Keys;
    while todo != {}
      invariant todo <= over.fields.Keys && out.Keys == base.fields.Keys + (over.fields.Keys - todo)
      invariant forall k | k in out ::
                  out[k] == if k in todo || k !in over.fields then base.fields[k] else Merge(base, over).fields[k]
    {
      var k :| k in todo;
      var v := over.fields[k];
      if v.Map? && k in out && out[k].Map? {
        var merged := MergeItems(out[k], v);
        out := out[k := merged];
      } else {
        out := out[k := v];
      }
      todo := todo - {k};
    }
    r := Map(out);
  }

  function Lookup(n: Node, p: Path): Option<Node>
    decreases |p|
  {
    if p == [] then Some(n)
    else if n.Leaf? || p[0] !in n.fields then None
    else Lookup(n.fields[p[0]], p[1..])
  }

  ghost predicate NoLeaf(n: Option<Node>) { n.Some? ==> n.value.Map? }

  /** Nothing is at a path, and no leaf on the way to it. */
  ghost predicate Silent(n: Node, p: Path) {
    Lookup(n, p) == None && forall j | 0 <= j <= |p| :: NoLeaf(Lookup(n, p[..j]))
  }

  lemma SilentStep(n: Node, p: Path)
    requires p != [] && n.Map?
    ensures p[0] in n.fields ==> (Silent(n, p) <==> Silent(n.fields[p[0]], p[1..]))
    ensures p[0] !in n.fields ==> Silent(n, p)
  {
    assert p[..0] == [] && Lookup(n, []) == Some(n);
    if p[0] in n.fields {
      var c, q := n.fields[p[0]], p[1..];
      forall j | 0 <= j <= |q| ensures Lookup(n, p[..j + 1]) == Lookup(c, q[..j]) {
        assert p[..j + 1][0] == p[0] && p[..j + 1][1..] == q[..j];
      }
      if Silent(n, p) {
        forall j | 0 <= j <= |q| ensures NoLeaf(Lookup(c, q[..j])) { assert NoLeaf(Lookup(n, p[..j + 1])); }
      }
      if Silent(c, q) {
        forall j | 0 <= j <= |p| ensures NoLeaf(Lookup(n, p[..j])) {
          if j > 0 { assert NoLeaf(Lookup(c, q[..j - 1])); }
        }
      }
    } else {
      forall j | 0 < j <= |p| ensures Lookup(n, p[..j]) == None { assert p[..j][0] == p[0]; }
    }
  }

  /** What the merge holds at a path: the profile's leaf if it has one there, the base's if the profile is
      silent there, and no other. */
  lemma {:induction false} MergeLeafIff(base: Node, over: Node, p: Path, v: string)
    requires base.Map? && over.Map?
    ensures Lookup(Merge(base, over), p) == Some(Leaf(v)) <==>
            Lookup(over, p) == Some(Leaf(v)) || (Lookup(base, p) == Some(Leaf(v)) && Silent(over, p))
    decreases |p|
  {
    if p != [] {
      var k, q := p[0], p[1..];
      SilentStep(over, p);
      if k in over.fields && k in base.fields && over.fields[k].Map? && base.fields[k].Map? {
        MergeLeafIff(base.fields[k], over.fields[k], q, v);
      } else if k in over.fields && over.fields[k].Leaf? {
        assert q[..0] == [] && !NoLeaf(Lookup(over.fields[k], q[..0]));
      } else if k in over.fields && k in base.fields {
        assert base.fields[k].Leaf?;
        assert q == [] ==> Lookup(over.fields[k], q).Some?;
      }
    }
  }

  // ----- what a profile sets ---------------------------------------------

  function Under(path: string, k: string): string { if path == "" then k else path + "." + k }

  /** The dotted paths of a mapping's leaves; a profile key is a leaf whatever it holds. */
  function LeafPaths(n: Node, path: string): set<string>
    decreases n
  {
    if n.Map? && path !in ProfileKeys() then
      set k, p | k in n.fields && p in LeafPaths(n.fields[k], Under(path, k)) :: p
    else {path}
  }

  function ProfileProblems(doc: Node): set<string> { LeafPaths(doc, "") - ProfileKeys() }

  // ----- the frame -------------------------------------------------------

  predicate GoodKey(k: string) { k != "" && '.' !in k }

  ghost predicate GoodPath(p: Path) { forall k | k in p :: GoodKey(k) }

  /** The keys a profile uses on its way to the profile keys are dot-free. */
  ghost predicate GoodKeys(n: Node, q: Path)
    decreases n
  {
    n.Map? && q !in PROFILE_PATHS ==> forall k | k in n.fields :: GoodKey(k) && GoodKeys(n.fields[k], q + [k])
  }

  const EMPTY := Map(map[])

  /** No empty mapping outside, from q on. */
  ghost predicate NoneEmpty(n: Node, q: Path) { forall p | Outside(q + p) :: Lookup(n, p) != Some(EMPTY) }

  predicate IsPrefix(a: Path, b: Path) { |a| <= |b| && b[..|a|] == a }

  /** Neither at nor below a profile key, nor an ancestor of one. */
  ghost predicate Outside(p: Path) {
    forall key | key in PROFILE_PATHS :: !IsPrefix(key, p) && !IsPrefix(p, key)
  }

  lemma DottedInjective(p: Path, q: Path)
    requires GoodPath(p) && GoodPath(q) && p != [] && q != [] && Dotted(p) == Dotted(q)
    ensures p == q
  {
    SplitJoin(p, '.');
    SplitJoin(q, '.');
  }

  lemma {:induction false} DottedUnder(q: Path, k: string)
    requires GoodPath(q) && GoodKey(k)
    ensures Dotted(q + [k]) == Under(Dotted(q), k)
  {
    if q != [] {
      DottedUnder(q[1..], k);
      assert (q + [k])[1..] == q[1..] + [k] && (q + [k])[0] == q[0];
      if |q| == 1 {
        assert q[1..] + [k] == [k];
      }
      assert q[0] in q;
    }
  }

  lemma ProfilePathsGood()
    ensures forall p | p in PROFILE_PATHS :: GoodPath(p) && p != []
  {
    assert forall p | p in PROFILE_PATHS, i | 0 <= i < |p| :: GoodKey(p[i]);
  }

  lemma KeyIffPath(q: Path)
    requires GoodPath(q)
    ensures Dotted(q) in ProfileKeys() <==> q in PROFILE_PATHS
  {
    ProfilePathsGood();
    hide Join; hide GoodPath;
    if Dotted(q) in ProfileKeys() {
      var p :| p in PROFILE_PATHS && Dotted(p) == Dotted(q);
      NotEmpty(p);
      if q != [] { DottedInjective(p, q); }
    }
  }

  lemma NotEmpty(p: Path)
    requires p != [] && GoodPath(p)
    ensures Dotted(p) != "" && Dotted([]) == ""
  {
    assert p[0] in p;
  }

  /** An accepted profile with no empty mapping outside, at q. */
  ghost predicate Accepted(n: Node, q: Path) {
    GoodPath(q) && GoodKeys(n, q) && LeafPaths(n, Dotted(q)) <= ProfileKeys() && NoneEmpty(n, q)
  }

  lemma AcceptedChild(n: Node, q: Path, k: string)
    requires Accepted(n, q) && q !in PROFILE_PATHS && n.Map? && k in n.fields
    ensures Accepted(n.fields[k], q + [k])
  {
    hide Dotted; hide ProfileKeys; hide GoodKey; hide Outside;
    KeyIffPath(q);
    DottedUnder(q, k);
    forall p | p in LeafPaths(n.fields[k], Dotted(q + [k])) ensures p in ProfileKeys() {
      assert p in LeafPaths(n, Dotted(q));
    }
    forall p | Outside((q + [k]) + p) ensures Lookup(n.fields[k], p) != Some(EMPTY) {
      assert q + ([k] + p) == (q + [k]) + p && ([k] + p)[1..] == p;
      assert Lookup(n, [k] + p) == Lookup(n.fields[k], p);
    }
  }

  /** What it sets outside the profile keys is a mapping. */
  lemma AcceptedIsMap(n: Node, q: Path)
    requires Accepted(n, q) && q !in PROFILE_PATHS
    ensures n.Map?
  {
    hide Dotted; hide ProfileKeys; hide GoodKey; hide NoneEmpty;
    KeyIffPath(q);
    assert n.Leaf? ==> LeafPaths(n, Dotted(q)) == {Dotted(q)};
  }

  lemma InsideAbove(q: Path, k: string)
    requires !Outside(q + [k])
    ensures !Outside(q)
  {
    var key :| key in PROFILE_PATHS && (IsPrefix(key, q + [k]) || IsPrefix(q + [k], key));
    if IsPrefix(q + [k], key) {
      assert key[..|q|] == key[..|q| + 1][..|q|] == q;
    } else if |key| <= |q| {
      assert q[..|key|] == (q + [k])[..|key|];
    }
  }

  /** And it is at a profile key, or on the way to one. */
  lemma {:induction false} AcceptedIsInside(n: Node, q: Path)
    requires Accepted(n, q)
    ensures !Outside(q)
    decreases n
  {
    hide Outside;
    if q in PROFILE_PATHS {
      BelowAKey(q, []);
      assert q + [] == q;
    } else {
      AcceptedIsMap(n, q);
      if k :| k in n.fields {
        AcceptedChild(n, q, k);
        AcceptedIsInside(n.fields[k], q + [k]);
        InsideAbove(q, k);
      } else {
        assert q + [] == q && Lookup(n, []) == Some(EMPTY);
      }
    }
  }

  lemma BelowAKey(q: Path, p: Path)
    requires q in PROFILE_PATHS
    ensures !Outside(q + p)
  {
    assert IsPrefix(q, q + p);
  }

  /** So it says nothing outside. */
  lemma {:induction false} SilentOutside(n: Node, q: Path, p: Path)
    requires Accepted(n, q) && Outside(q + p)
    ensures Lookup(n, p) == None
    decreases |p|
  {
    hide Accepted; hide Outside;
    if p == [] { assert q + p == q; }
    AcceptedIsInside(n, q);
    if q in PROFILE_PATHS { BelowAKey(q, p); }
    if p != [] && n.Map? && p[0] in n.fields {
      AcceptedChild(n, q, p[0]);
      assert q + p == (q + [p[0]]) + p[1..];
      SilentOutside(n.fields[p[0]], q + [p[0]], p[1..]);
    }
  }

  lemma {:induction false} FrameAt(base: Node, over: Node, q: Path, p: Path)
    requires base.Map? && over.Map? && Accepted(over, q) && q !in PROFILE_PATHS && Outside(q + p)
    ensures Lookup(Merge(base, over), p) == Lookup(base, p)
    decreases |p|
  {
    hide Accepted; hide Outside;
    if p == [] { assert q + p == q; }
    AcceptedIsInside(over, q);
    var k := p[0];
    assert q + p == (q + [k]) + p[1..];
    if k in over.fields {
      AcceptedChild(over, q, k);
      if q + [k] in PROFILE_PATHS { BelowAKey(q + [k], p[1..]); }
      AcceptedIsInside(over.fields[k], q + [k]);
      assert (q + [k]) + [] == q + [k];
      AcceptedIsMap(over.fields[k], q + [k]);
      if k in base.fields && base.fields[k].Map? {
        FrameAt(base.fields[k], over.fields[k], q + [k], p[1..]);
      } else {
        SilentOutside(over.fields[k], q + [k], p[1..]);
      }
    }
  }

  /** A profile with no problems, and no empty mapping outside the keys a profile may set, changes nothing
      outside them. */
  lemma ProfileFrame(base: Node, profile: Node, p: Path)
    requires base.Map? && profile.Map? && GoodKeys(profile, []) && ProfileProblems(profile) == {}
    requires NoneEmpty(profile, []) && Outside(p)
    ensures Lookup(Merge(base, profile), p) == Lookup(base, p)
  {
    hide GoodKeys; hide Merge; hide Outside; hide NoneEmpty;
    assert [] + p == p;
    ProfilePathsGood();
    assert Accepted(profile, []);
    FrameAt(base, profile, [], p);
  }

  /** Nothing but a leaf, at a path. */
  function Nest(p: Path): Node { if p == [] then Leaf("on") else Map(map[p[0] := Nest(p[1..])]) }

  /** An empty mapping replaces a leaf it meets. */
  lemma {:induction false} EmptyReplaces(profile: Node, p: Path)
    requires p != [] && profile.Map? && Lookup(profile, p) == Some(EMPTY)
    ensures Lookup(Nest(p), p) == Some(Leaf("on")) && Lookup(Merge(Nest(p), profile), p) == Some(EMPTY)
    decreases |p|
  {
    var k := p[0];
    assert Nest(p).fields[k] == Nest(p[1..]);
    if |p| > 1 {
      EmptyReplaces(profile.fields[k], p[1..]);
    } else {
      assert p[1..] == [];
    }
  }

  ghost predicate ChangesNothingOutside(profile: Node)
    requires profile.Map?
  {
    forall base: Node, p | base.Map? && Outside(p) :: Lookup(Merge(base, profile), p) == Lookup(base, p)
  }

  lemma PlainIsFramed(profile: Node)
    requires profile.Map? && ProfileProblems(profile) == {} && GoodKeys(profile, [])
    requires forall p | Outside(p) :: Lookup(profile, p) != Some(EMPTY)
    ensures ChangesNothingOutside(profile)
  {
    hide GoodKeys; hide Merge; hide Outside; hide Lookup; hide ProfileProblems;
    assert NoneEmpty(profile, []) by {
      forall p | Outside([] + p) ensures Lookup(profile, p) != Some(EMPTY) { assert [] + p == p; }
    }
    hide NoneEmpty;
    forall base: Node, p | base.Map? && Outside(p) ensures Lookup(Merge(base, profile), p) == Lookup(base, p) {
      ProfileFrame(base, profile, p);
    }
  }

  /** No profile key is at, under or above a path through a dotted or an empty key. */
  lemma BadKeyIsOutside(q: Path, k: string)
    requires !GoodKey(k) && forall key | key in PROFILE_PATHS :: !IsPrefix(key, q)
    ensures Outside(q + [k])
  {
    var p := q + [k];
    ProfilePathsGood();
    hide GoodKey;
    forall key | key in PROFILE_PATHS ensures !IsPrefix(key, p) && !IsPrefix(p, key) {
      assert forall i | 0 <= i < |key| :: key[i] in key && key[i] != k;
      if |p| <= |key| { assert key[..|p|][|q|] == key[|q|] && p[|q|] == k; }
      if |key| == |p| { assert p[..|key|] == p && key[|q|] != p[|q|]; }
      if |key| <= |q| { assert p[..|key|] == q[..|key|]; }
    }
  }

  /** A bad key on the way to the profile keys is at a path outside, and the profile sets it. */
  lemma {:induction false} BadKeySets(n: Node, q: Path) returns (p: Path)
    requires !GoodKeys(n, q) && forall key | key in PROFILE_PATHS :: !IsPrefix(key, q)
    ensures Outside(q + p) && Lookup(n, p).Some?
    decreases n
  {
    hide GoodKey; hide Outside; hide IsPrefix;
    if k :| k in n.fields && !GoodKey(k) {
      BadKeyIsOutside(q, k);
      p := [k];
      assert p[1..] == [] && Lookup(n.fields[k], []) == Some(n.fields[k]);
    } else {
      var k :| k in n.fields && !GoodKeys(n.fields[k], q + [k]);
      NotYetAKey(q, k);
      var rest := BadKeySets(n.fields[k], q + [k]);
      p := [k] + rest;
      assert p[1..] == rest && q + p == (q + [k]) + rest;
    }
  }

  lemma NotYetAKey(q: Path, k: string)
    requires q + [k] !in PROFILE_PATHS && forall key | key in PROFILE_PATHS :: !IsPrefix(key, q)
    ensures forall key | key in PROFILE_PATHS :: !IsPrefix(key, q + [k])
  {
    forall key | key in PROFILE_PATHS ensures !IsPrefix(key, q + [k]) {
      assert |key| <= |q| ==> (q + [k])[..|key|] == q[..|key|];
      assert |key| == |q| + 1 ==> (q + [k])[..|key|] == q + [k];
    }
  }

  lemma NoKeyAtTheRoot()
    ensures forall key | key in PROFILE_PATHS :: !IsPrefix(key, [])
  {
    assert forall key | key in PROFILE_PATHS :: |key| == 2;
  }

  lemma BadKeyChanges(profile: Node)
    requires profile.Map? && !GoodKeys(profile, [])
    ensures !ChangesNothingOutside(profile)
  {
    hide Outside; hide GoodKeys;
    NoKeyAtTheRoot();
    var p := BadKeySets(profile, []);
    assert [] + p == p;
    RootIsInside();
    assert Merge(EMPTY, profile).fields == profile.fields;
    assert Lookup(Merge(EMPTY, profile), p).Some? && Lookup(EMPTY, p) == None;
  }

  lemma EmptyChanges(profile: Node, p: Path)
    requires profile.Map? && Outside(p) && Lookup(profile, p) == Some(EMPTY)
    ensures !ChangesNothingOutside(profile)
  {
    hide Outside; hide Merge; hide Lookup;
    RootIsInside();
    EmptyReplaces(profile, p);
    assert Nest(p).Map?;
  }

  /** A profile with no problems changes nothing outside the profile keys, whatever the base, exactly when the
      keys on the way to them are neither dotted nor empty and it holds no empty mapping outside them. */
  lemma ProfileFrameIff(profile: Node)
    requires profile.Map? && ProfileProblems(profile) == {}
    ensures ChangesNothingOutside(profile) <==>
            GoodKeys(profile, []) && forall p | Outside(p) :: Lookup(profile, p) != Some(EMPTY)
  {
    hide ChangesNothingOutside; hide GoodKeys; hide Outside; hide Lookup; hide ProfileProblems;
    if !GoodKeys(profile, []) {
      BadKeyChanges(profile);
    } else if p :| Outside(p) && Lookup(profile, p) == Some(EMPTY) {
      EmptyChanges(profile, p);
    } else {
      PlainIsFramed(profile);
    }
  }

  lemma RootIsInside()
    ensures !Outside([])
  {
    assert ["cluster", "name"] in PROFILE_PATHS && IsPrefix([], ["cluster", "name"]);
  }

  /** The empty mapping has to be asked for: it has no leaf, so it is no problem, and it replaces. */
  lemma EmptyMappingSlipsThrough()
    ensures var profile := Map(map["logs" := Map(map[])]);
            var base := Map(map["logs" := Leaf("on")]);
            && ProfileProblems(profile) == {} && Outside(["logs"])
            && Lookup(Merge(base, profile), ["logs"]) != Lookup(base, ["logs"])
  {
    var empty: Node := Map(map[]);
    var profile := Map(map["logs" := empty]);
    var base := Map(map["logs" := Leaf("on")]);
    assert GoodKey("logs");
    KeyIffPath([]);
    KeyIffPath(["logs"]);
    assert Dotted(["logs"]) == "logs" && Dotted([]) == "";
    assert ["logs"] !in PROFILE_PATHS && [] !in PROFILE_PATHS;
    assert LeafPaths(empty, "logs") == {};
    assert LeafPaths(profile, "") == {};
    assert forall key | key in PROFILE_PATHS :: |key| == 2 && key[0] != "logs";
    assert ["logs"][1..] == [];
    assert Lookup(base, ["logs"]) == Some(Leaf("on"));
  }

  /** A dotted key reads as a profile key, so it is no problem, and it sets a path of its own. */
  lemma DottedKeySlipsThrough()
    ensures var profile := Map(map["cluster.name" := Leaf("x")]);
            && ProfileProblems(profile) == {} && Outside(["cluster.name"])
            && Lookup(Merge(EMPTY, profile), ["cluster.name"]) != Lookup(EMPTY, ["cluster.name"])
  {
    var k := "cluster.name";
    assert k[7] == '.' && !GoodKey(k);
    DottedName(k);
    NoKeyAtTheRoot();
    hide *;
    BadKeyIsOutside([], k);
    assert [] + [k] == [k];
    OneLeaf(k, "x");
    SetsAlone(k, Leaf("x"));
  }

  /** A profile of one leaf whose key is a dotted profile key. */
  lemma OneLeaf(k: string, x: string)
    requires k in ProfileKeys()
    ensures ProfileProblems(Map(map[k := Leaf(x)])) == {}
  {
    var profile := Map(map[k := Leaf(x)]);
    KeyIffPath([]);
    RootIsInside();
    assert [] !in PROFILE_PATHS by { if [] in PROFILE_PATHS { BelowAKey([], []); } }
    assert Dotted([]) == "";
    hide ProfileKeys; hide Dotted; hide Outside;
    assert forall j | j in profile.fields :: LeafPaths(profile.fields[j], Under("", j)) == {k};
  }

  /** Merged onto nothing, it sets its own path. */
  lemma SetsAlone(k: string, v: Node)
    ensures var profile := Map(map[k := v]);
            Lookup(Merge(EMPTY, profile), [k]) == Some(v) && Lookup(EMPTY, [k]) == None
  {
    var profile := Map(map[k := v]);
    assert Merge(EMPTY, profile).fields[k] == v;
    assert [k][1..] == [] && Lookup(v, []) == Some(v);
  }

  lemma DottedName(k: string)
    requires k == "cluster.name"
    ensures k in ProfileKeys()
  {
    var p := ["cluster", "name"];
    assert p in PROFILE_PATHS && p[1..] == ["name"];
    assert Join(["name"], '.') == "name";
    assert Dotted(p) == "cluster" + ['.'] + "name" == k;
  }
}
