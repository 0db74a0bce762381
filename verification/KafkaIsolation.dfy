/** What the checked KafkaUsers can reach, under Kafka's literal and prefixed matching
    (scripts/kafka_users.py). */
module KafkaIsolation {
  import opened Options
  import opened Strings
  import opened KafkaUsers

  // ----- Kafka's authorizer ----------------------------------------------

  /** An ACL's resource covers a name: its own, every one for the literal `*`, every extension for a
      prefixed one. */
  predicate Covers(a: Acl, name: string) {
    match a.pattern
    case Literal => a.name == name || a.name == "*"
    case Prefix => StartsWith(name, a.name)
    case OtherPattern(_) => false
  }

  ghost predicate ReachesTopic(u: User, t: string) {
    exists a | a in u.acls :: a.kind == Topic && Covers(a, t) && a.ops != {}
  }

  ghost predicate HoldsTopic(u: User, op: Op, t: string) {
    exists a | a in u.acls :: a.kind == Topic && Covers(a, t) && (op in a.ops || All in a.ops)
  }

  ghost predicate Accepted(doc: Doc, users: seq<User>) {
    TopicsDeclared(doc) && (forall u | u in users :: UserFine(doc, u)) && Covered(doc, users)
  }

  /** Environments differ in name and prefix, and a prefix has no dot in it. */
  ghost predicate DistinctPrefixes(doc: Doc) {
    && (forall e | e in doc.environments :: '.' !in e.prefix && e.prefix != "")
    && forall e, f | e in doc.environments && f in doc.environments && e.name != f.name :: e.prefix != f.prefix
  }

  // ----- topics ----------------------------------------------------------

  lemma StartsTrans(t: string, a: string, b: string)
    requires StartsWith(t, a) && StartsWith(a, b)
    ensures StartsWith(t, b)
  {
    assert t[..|b|] == a[..|b|];
  }

  /** An environment principal's topics are all under its prefix. */
  lemma UnderPrefix(doc: Doc, u: User, t: string)
    requires UserFine(doc, u) && !u.platform && u.name != IT && ReachesTopic(u, t)
    ensures PrefixOf(doc, u.env).Some? && StartsWith(t, PrefixOf(doc, u.env).value + ".")
  {
    hide PrefixOf; hide IT; hide IT_PREFIXES; hide IT_GROUPS; hide DELETER; hide PrincipalOf; hide StartsWith;
    hide EndsWith;
    var a :| a in u.acls && a.kind == Topic && Covers(a, t) && a.ops != {};
    assert EnvAcl(doc, u, a) == [];
    NoWildcard(a, '*');
    match a.pattern
    case Literal =>
    case Prefix => StartsTrans(t, a.name, PrefixOf(doc, u.env).value + ".");
  }

  lemma NoWildcard(a: Acl, star: char)
    requires star == '*' && star !in a.name
    ensures a.name != "*"
  {
    assert "*"[0] == star;
  }

  lemma {:induction false} PrefixThere(es: seq<Environment>, env: string)
    requires PrefixIn(es, env).Some?
    ensures Environment(env, PrefixIn(es, env).value) in es
  {
    if es[0].name != env { PrefixThere(es[1..], env); }
  }

  /** Dot-free prefixes whose topics overlap are equal. */
  lemma SamePrefix(t: string, p: string, q: string)
    requires '.' !in p && '.' !in q && StartsWith(t, p + ".") && StartsWith(t, q + ".")
    ensures p == q
  {
    var a, b := p + ".", q + ".";
    assert forall i | 0 <= i < |a| :: t[..|a|][i] == t[i];
    assert forall i | 0 <= i < |b| :: t[..|b|][i] == t[i];
    assert t[|p|] == '.' && t[|q|] == '.';
    assert forall i | 0 <= i < |p| :: t[i] == p[i];
    assert forall i | 0 <= i < |q| :: t[i] == q[i];
    assert |p| == |q|;
  }

  /** No topic is reachable from two environments, the suite's own principal aside. */
  lemma TopicIsolation(doc: Doc, users: seq<User>, u: User, v: User, t: string)
    requires Accepted(doc, users) && DistinctPrefixes(doc) && u in users && v in users
    requires !u.platform && !v.platform && u.name != IT && v.name != IT
    requires ReachesTopic(u, t) && ReachesTopic(v, t)
    ensures u.env == v.env
  {
    hide UserFine; hide ReachesTopic; hide IT; hide StartsWith; hide Covered;
    UnderPrefix(doc, u, t);
    UnderPrefix(doc, v, t);
    PrefixThere(doc.environments, u.env);
    PrefixThere(doc.environments, v.env);
    SamePrefix(t, PrefixOf(doc, u.env).value, PrefixOf(doc, v.env).value);
  }

  /** What is the operator's alone on a topic is held by no one, but for the suite's Create and Delete on
      its two prefixes and the registry's Create on its own topic. */
  lemma OperatorsAlone(doc: Doc, users: seq<User>, u: User, op: Op, t: string)
    requires Accepted(doc, users) && u in users && op in TOPIC_FORBIDDEN && HoldsTopic(u, op, t)
    ensures || (!u.platform && u.name == IT && (op == Create || op == Delete)
                && exists p | p in IT_PREFIXES :: StartsWith(t, p))
            || (u.platform && u.name == REGISTRY && op == Create && t == SCHEMAS)
  {
    hide EnvAcl; hide PlatformAcl; hide IT; hide IT_PREFIXES; hide StartsWith; hide REGISTRY; hide SCHEMAS;
    hide Covered;
    hide TopicsDeclared;
    assert UserFine(doc, u);
    var a :| a in u.acls && a.kind == Topic && Covers(a, t) && (op in a.ops || All in a.ops);
    if u.platform {
      PlatformTopicAcl(doc, u, a);
    } else {
      EnvTopicAcl(doc, u, a);
    }
    assert All in a.ops ==> All in a.ops * TOPIC_FORBIDDEN;
    assert op in a.ops * TOPIC_FORBIDDEN;
  }

  /** A platform principal's topic ACL that passes: literal, and of the operator's rights only the registry's. */
  lemma PlatformTopicAcl(doc: Doc, u: User, a: Acl)
    requires a.kind == Topic && PlatformAcl(doc, u, a) == []
    ensures a.pattern == Literal && a.name != "*" && a.name in doc.platformTopics
    ensures a.ops * TOPIC_FORBIDDEN <= {Create}
    ensures a.ops * TOPIC_FORBIDDEN != {} ==> u.name == REGISTRY && a.name == SCHEMAS
  {
    hide REGISTRY; hide SCHEMAS; hide READER_GROUPS;
    NoWildcard(a, '*');
    assert forall op | op in a.ops * TOPIC_FORBIDDEN && op != Create :: op in a.ops * (TOPIC_FORBIDDEN - {Create});
    assert a.ops * (TOPIC_FORBIDDEN - {}) == a.ops * TOPIC_FORBIDDEN;
  }

  /** An environment principal's topic ACL that passes: of the operator's rights only the suite's. */
  lemma EnvTopicAcl(doc: Doc, u: User, a: Acl)
    requires a.kind == Topic && EnvAcl(doc, u, a) == []
    ensures a.name != "*" && a.ops * TOPIC_FORBIDDEN <= {Create, Delete}
    ensures a.ops * TOPIC_FORBIDDEN != {} ==> u.name == IT && a.pattern == Prefix && a.name in IT_PREFIXES
  {
    hide IT; hide IT_PREFIXES; hide PrincipalOf; hide StartsWith; hide PrefixOf;
    NoWildcard(a, '*');
    assert a.ops * TOPIC_FORBIDDEN - {} == a.ops * TOPIC_FORBIDDEN;
  }

  /** A platform principal reaches declared platform topics, by their own names. */
  lemma PlatformTopicsOnly(doc: Doc, users: seq<User>, u: User, t: string)
    requires Accepted(doc, users) && u in users && u.platform && ReachesTopic(u, t)
    ensures t in doc.platformTopics
  {
    hide IT; hide REGISTRY; hide SCHEMAS; hide PlatformAcl; hide StartsWith; hide Covered; hide TopicsDeclared;
    assert UserFine(doc, u);
    var a :| a in u.acls && a.kind == Topic && Covers(a, t) && a.ops != {};
    PlatformTopicAcl(doc, u, a);
  }

  // ----- the integration suite's principal -------------------------------

  lemma Comparable(t: string, a: string, b: string)
    requires StartsWith(t, a) && StartsWith(t, b)
    ensures StartsWith(a, b) || StartsWith(b, a)
  {
    if |a| <= |b| {
      assert b[..|a|] == t[..|b|][..|a|] == t[..|a|];
    } else {
      assert a[..|b|] == t[..|a|][..|b|] == t[..|b|];
    }
  }

  /** A name under both exists exactly when one is a prefix of the other. */
  lemma OverlapIff(a: string, b: string)
    ensures (exists t: string :: StartsWith(t, a) && StartsWith(t, b)) <==> StartsWith(a, b) || StartsWith(b, a)
  {
    if t: string :| StartsWith(t, a) && StartsWith(t, b) { Comparable(t, a, b); }
    assert StartsWith(a, a) && StartsWith(b, b);
  }

  /** The suite's prefixed topics meet an environment's exactly when the environment's prefix starts with
      `it`, is `andara`, or is `andara.test` or under it: the check does not look. */
  lemma SuiteMeetsEnvironmentIff(prefix: string)
    ensures (exists t: string, p | p in IT_PREFIXES :: StartsWith(t, prefix + ".") && StartsWith(t, p)) <==>
            StartsWith(prefix, "it") || prefix == "andara" || StartsWith(prefix + ".", "andara.test.")
  {
    var under := prefix + ".";
    assert IT_PREFIXES[0] in IT_PREFIXES && IT_PREFIXES[1] in IT_PREFIXES;
    OverlapIff(under, "andara.test.");
    OverlapIff(under, "it");
    ItOverlap(prefix);
    TestOverlap(prefix);
  }

  lemma ItOverlap(prefix: string)
    ensures var under := prefix + ".";
            StartsWith(under, "it") || StartsWith("it", under) <==> StartsWith(prefix, "it")
  {
    var under, it := prefix + ".", "it";
    assert it[0] == 'i' && it[1] == 't' && |it| == 2;
    assert under[|prefix|] == '.';
    assert |under| <= 2 ==> it[..|under|][|prefix|] != '.';
    if StartsWith(prefix, it) { assert under[..2] == prefix[..2]; }
    if StartsWith(under, it) {
      assert under[..2][0] == 'i' && under[..2][1] == 't';
      assert prefix[..2] == under[..2];
    }
  }

  lemma TestOverlap(prefix: string)
    ensures var under, test := prefix + ".", "andara.test.";
            StartsWith(test, under) ==> prefix == "andara" || StartsWith(under, test)
    ensures prefix == "andara" ==> StartsWith("andara.test.", prefix + ".")
  {
    var under, test := prefix + ".", "andara.test.";
    assert test[6] == '.' && test[11] == '.' && |test| == 12;
    assert forall i | 0 <= i < 12 && i != 6 && i != 11 :: test[i] != '.';
    if |under| <= 12 && test[..|under|] == under {
      assert test[|prefix|] == under[|prefix|] == '.';
      assert prefix == under[..|prefix|] == test[..|prefix|];
      assert |prefix| == 6 ==> prefix == test[..6] && test[..6] == "andara";
      assert |prefix| == 11 ==> under == test;
    }
    assert "andara" + "." == test[..7];
  }

  // ----- topics, whatever the prefixes -----------------------------------

  /** One of the two names is a prefix of the other. */
  predicate Nested(a: string, b: string) { StartsWith(a, b) || StartsWith(b, a) }

  /** Some users the check accepts share a topic across two environments. */
  ghost predicate CanShare(doc: Doc, e: Environment, f: Environment) {
    exists users: seq<User>, u, v, t: string ::
      && Accepted(doc, users) && u in users && v in users && !u.platform && !v.platform && u.name != IT && v.name != IT
      && u.env == e.name && v.env == f.name && ReachesTopic(u, t) && ReachesTopic(v, t)
  }

  /** A principal that reaches a topic has a prefix without a star. */
  lemma NoStarIn(doc: Doc, u: User, t: string, prefix: string)
    requires UserFine(doc, u) && !u.platform && u.name != IT && ReachesTopic(u, t)
    requires PrefixOf(doc, u.env) == Some(prefix)
    ensures '*' !in prefix
  {
    hide PrefixOf; hide IT; hide IT_PREFIXES; hide IT_GROUPS; hide DELETER; hide PrincipalOf; hide EndsWith;
    var a :| a in u.acls && a.kind == Topic && Covers(a, t) && a.ops != {};
    assert EnvAcl(doc, u, a) == [];
    assert a.name[..|prefix + "."|] == prefix + ".";
    assert forall i | 0 <= i < |prefix| :: prefix[i] == a.name[..|prefix + "."|][i] == a.name[i];
  }

  /** A principal with one topic, under its environment's prefix. */
  function Reader(doc: Doc, e: Environment, t: string): User {
    User("reader", e.name, false, [Acl(Topic, t, Literal, {Read})], doc.Quotas(e.name))
  }

  lemma ReaderFine(doc: Doc, e: Environment, t: string)
    requires PrefixOf(doc, e.name) == Some(e.prefix) && StartsWith(t, e.prefix + ".") && '*' !in t
    ensures var u := Reader(doc, e, t); UserFine(doc, u) && u.name != IT && ReachesTopic(u, t)
  {
    hide PrefixOf; hide PrincipalOf; hide IT_PREFIXES; hide StartsWith;
    var u := Reader(doc, e, t);
    assert u.name[0] == 'r' && IT[0] == 'a';
    var a := u.acls[0];
    assert a.ops * TOPIC_FORBIDDEN == {};
    assert a in u.acls && Covers(a, t);
  }

  lemma AddedAccepted(doc: Doc, users: seq<User>, u: User, v: User)
    requires Accepted(doc, users) && UserFine(doc, u) && UserFine(doc, v)
    ensures Accepted(doc, users + [u, v]) && u in users + [u, v] && v in users + [u, v]
  {
    hide UserFine; hide PrincipalOf; hide TopicsDeclared;
    forall e, p | e in doc.environments && p in doc.principals
      ensures exists x | x in users + [u, v] :: !x.platform && PrincipalOf(x) == (p.name, e.name)
    {
      var x :| x in users && !x.platform && PrincipalOf(x) == (p.name, e.name);
      assert x in users + [u, v];
    }
  }

  /** Users the check accepts can share a topic across two environments exactly when one prefix and its dot start
      with the other's, and neither holds a star. */
  lemma TopicsShareIff(doc: Doc, some: seq<User>, e: Environment, f: Environment)
    requires Accepted(doc, some) && PrefixOf(doc, e.name) == Some(e.prefix) && PrefixOf(doc, f.name) == Some(f.prefix)
    ensures CanShare(doc, e, f) <==> Nested(e.prefix + ".", f.prefix + ".") && '*' !in e.prefix && '*' !in f.prefix
  {
    hide PrefixOf; hide UserFine; hide ReachesTopic; hide IT; hide Covered; hide TopicsDeclared;
    var p, q := e.prefix + ".", f.prefix + ".";
    if users: seq<User>, u, v, t: string :|
      && Accepted(doc, users) && u in users && v in users && !u.platform && !v.platform && u.name != IT && v.name != IT
      && u.env == e.name && v.env == f.name && ReachesTopic(u, t) && ReachesTopic(v, t)
    {
      UnderPrefix(doc, u, t);
      UnderPrefix(doc, v, t);
      NoStarIn(doc, u, t, e.prefix);
      NoStarIn(doc, v, t, f.prefix);
      Comparable(t, p, q);
    }
    if Nested(p, q) && '*' !in e.prefix && '*' !in f.prefix {
      var t := if StartsWith(p, q) then p else q;
      assert StartsWith(p, p) && StartsWith(q, q);
      ReaderFine(doc, e, t);
      ReaderFine(doc, f, t);
      AddedAccepted(doc, some, Reader(doc, e, t), Reader(doc, f, t));
      assert !Reader(doc, e, t).platform && Reader(doc, e, t).env == e.name && Reader(doc, f, t).env == f.name;
    }
  }

  // ----- groups ----------------------------------------------------------

  ghost predicate ReachesGroup(u: User, g: string) {
    exists a | a in u.acls :: a.kind == Group && Covers(a, g) && a.ops != {}
  }

  /** What render names a declared group in an environment. */
  function GroupName(e: Environment, r: Rights): string { r.name + "-" + e.name }

  /** Two declared groups' rendered ACLs meet exactly when one's rendered name is a prefix of the other's:
      how a group's name ends says nothing of what it reaches. */
  lemma GroupsMeetIff(e: Environment, r: Rights, f: Environment, s: Rights)
    ensures (exists g: string :: Covers(GroupAcl(e.name, r), g) && Covers(GroupAcl(f.name, s), g)) <==>
            Nested(GroupName(e, r), GroupName(f, s))
  {
    var x, y := GroupAcl(e.name, r), GroupAcl(f.name, s);
    OverlapIff(x.name, y.name);
    assert forall g: string :: (Covers(x, g) <==> StartsWith(g, x.name)) && (Covers(y, g) <==> StartsWith(g, y.name));
  }

  /** A group ACL of the suite's that the check accepts. */
  ghost predicate SuiteGroup(doc: Doc, u: User, a: Acl) {
    !u.platform && u.name == IT && a.kind == Group && EnvAcl(doc, u, a) == []
  }

  lemma SuiteGroupIs(doc: Doc, u: User, a: Acl)
    requires SuiteGroup(doc, u, a)
    ensures a.pattern == Prefix && StartsWith(a.name, IT_GROUPS)
  {
    hide IT; hide PrincipalOf; hide StartsWith; hide EndsWith; hide DELETER;
  }

  lemma SuiteReads(doc: Doc, u: User)
    requires !u.platform && u.name == IT
    ensures SuiteGroup(doc, u, Acl(Group, IT_GROUPS, Prefix, {Read}))
  {
    var a := Acl(Group, IT_GROUPS, Prefix, {Read});
    assert a.ops * GROUP_FORBIDDEN == {} && StartsWith(IT_GROUPS, IT_GROUPS);
    assert IT_GROUPS[0] == 'i' && IT_GROUPS[1] == 't' && IT_GROUPS[2] == '-';
    hide IT; hide PrincipalOf; hide DELETER;
  }

  /** The suite's accepted group ACLs can meet an environment's rendered group exactly when that group's name starts
      with `it-`: the check does not look. */
  lemma SuiteMeetsGroupIff(doc: Doc, u: User, e: Environment, r: Rights)
    requires !u.platform && u.name == IT && e.name != ""
    ensures (exists a, g: string :: SuiteGroup(doc, u, a) && Covers(a, g) && Covers(GroupAcl(e.name, r), g)) <==>
            StartsWith(GroupName(e, r), IT_GROUPS)
  {
    var name := GroupName(e, r);
    NotInside(name, r.name, e.name);
    SuiteReads(doc, u);
    hide SuiteGroup; hide IT; hide IT_GROUPS;
    if a, g: string :| SuiteGroup(doc, u, a) && Covers(a, g) && Covers(GroupAcl(e.name, r), g) {
      SuiteGroupIs(doc, u, a);
      StartsTrans(g, a.name, IT_GROUPS);
      Comparable(g, IT_GROUPS, name);
    }
    if StartsWith(name, IT_GROUPS) {
      assert StartsWith(name, name);
      assert Covers(Acl(Group, IT_GROUPS, Prefix, {Read}), name) && Covers(GroupAcl(e.name, r), name);
    }
  }

  /** A rendered group is no part of the suite's prefix: it goes on after its dash. */
  lemma NotInside(name: string, group: string, env: string)
    requires name == group + "-" + env && env != ""
    ensures StartsWith(IT_GROUPS, name) ==> StartsWith(name, IT_GROUPS)
  {
    assert IT_GROUPS[0] == 'i' && IT_GROUPS[1] == 't' && IT_GROUPS[2] == '-' && |IT_GROUPS| == 3;
    assert name[|group|] == '-';
    if |name| <= 3 { assert |group| < 2 && IT_GROUPS[..|name|][|group|] == IT_GROUPS[|group|] != '-'; }
  }

  /** One group in two environments: exactly when one environment's name starts with the other's. */
  lemma SameGroupMeetsIff(r: Rights, e: Environment, f: Environment)
    ensures Nested(GroupName(e, r), GroupName(f, r)) <==> Nested(e.name, f.name)
  {
    Strip(r.name + "-", e.name, f.name);
    Strip(r.name + "-", f.name, e.name);
  }

  lemma Strip(c: string, a: string, b: string)
    ensures StartsWith(c + a, c + b) <==> StartsWith(a, b)
  {
    if |b| <= |a| {
      assert (c + a)[..|c + b|] == c + a[..|b|];
      assert (c + b)[|c|..] == b && (c + a[..|b|])[|c|..] == a[..|b|];
    }
  }

  /** A group right some principal declares, with something it may do. */
  ghost predicate DeclaresGroup(doc: Doc, r: Rights) { r.ops != {} && exists p | p in doc.principals :: r in p.groups }

  /** No group is reachable from two environments. */
  ghost predicate GroupsIsolated(doc: Doc) {
    forall u, v, g | u in Rendered(doc) && v in Rendered(doc) && !u.platform && !v.platform && u.env != v.env
                     && ReachesGroup(u, g) :: !ReachesGroup(v, g)
  }

  /** No two environments' names for declared groups are one a prefix of the other. */
  ghost predicate GroupNamesApart(doc: Doc) {
    forall e, f, r, s | e in doc.environments && f in doc.environments && e.name != f.name
                        && DeclaresGroup(doc, r) && DeclaresGroup(doc, s) :: !Nested(GroupName(e, r), GroupName(f, s))
  }

  lemma GroupAclIsDeclared(e: Environment, p: Principal, a: Acl)
    requires a in AclsOf(e, p) && a.kind == Group
    ensures exists r | r in p.groups :: a == GroupAcl(e.name, r)
  {
    var groups := seq(|p.groups|, i requires 0 <= i < |p.groups| => GroupAcl(e.name, p.groups[i]));
    assert a in groups;
    var i :| 0 <= i < |groups| && groups[i] == a;
    assert p.groups[i] in p.groups;
  }

  lemma DeclaredIsGroupAcl(e: Environment, p: Principal, r: Rights)
    requires r in p.groups
    ensures GroupAcl(e.name, r) in AclsOf(e, p)
  {
    var groups := seq(|p.groups|, i requires 0 <= i < |p.groups| => GroupAcl(e.name, p.groups[i]));
    var i :| 0 <= i < |p.groups| && p.groups[i] == r;
    assert groups[i] in groups;
  }

  /** What a rendered user reaches of a group: one its principal declares, in its own environment. */
  lemma ReachesDeclared(doc: Doc, e: Environment, p: Principal, g: string)
    ensures ReachesGroup(UserOf(doc, e, p), g) <==>
            exists r | r in p.groups :: r.ops != {} && StartsWith(g, GroupName(e, r))
  {
    hide StartsWith; hide AclsOf;
    var u := UserOf(doc, e, p);
    if a :| a in u.acls && a.kind == Group && Covers(a, g) && a.ops != {} {
      GroupAclIsDeclared(e, p, a);
    }
    if r :| r in p.groups && r.ops != {} && StartsWith(g, GroupName(e, r)) {
      DeclaredIsGroupAcl(e, p, r);
      assert Covers(GroupAcl(e.name, r), g);
    }
  }

  lemma ApartIsolates(doc: Doc, u: User, v: User, g: string)
    requires GroupNamesApart(doc) && u in Rendered(doc) && v in Rendered(doc) && !u.platform && !v.platform
    requires u.env != v.env && ReachesGroup(u, g)
    ensures !ReachesGroup(v, g)
  {
    hide ReachesGroup; hide StartsWith; hide Rendered; hide UserOf; hide PlatformUser; hide Nested;
    RenderedAre(doc);
    var e, p := EnvOf(doc, u);
    var f, q := EnvOf(doc, v);
    ReachesDeclared(doc, e, p, g);
    ReachesDeclared(doc, f, q, g);
    var r :| r in p.groups && r.ops != {} && StartsWith(g, GroupName(e, r));
    assert DeclaresGroup(doc, r);
    forall s | s in q.groups && s.ops != {} ensures !StartsWith(g, GroupName(f, s)) {
      assert DeclaresGroup(doc, s) && !Nested(GroupName(e, r), GroupName(f, s));
      if StartsWith(g, GroupName(f, s)) { Meeting(g, GroupName(e, r), GroupName(f, s)); }
    }
  }

  lemma Meeting(g: string, a: string, b: string)
    requires StartsWith(g, a) && StartsWith(g, b)
    ensures Nested(a, b)
  {
    Comparable(g, a, b);
  }

  lemma EnvOf(doc: Doc, u: User) returns (e: Environment, p: Principal)
    requires (IsEnvUser(doc, u) || IsPlatformUser(doc, u)) && !u.platform
    ensures e in doc.environments && p in doc.principals && u == UserOf(doc, e, p) && u.env == e.name
  {
    e, p :| e in doc.environments && p in doc.principals && u == UserOf(doc, e, p);
  }

  lemma NotBoth(doc: Doc, e: Environment, p: Principal, f: Environment, q: Principal, g: string)
    requires GroupsIsolated(doc) && e in doc.environments && f in doc.environments && e.name != f.name
    requires p in doc.principals && q in doc.principals
    ensures !(ReachesGroup(UserOf(doc, e, p), g) && ReachesGroup(UserOf(doc, f, q), g))
  {
    hide Rendered; hide UserOf; hide ReachesGroup;
    RenderedAre(doc);
    OneEnvUser(doc, e, p);
    OneEnvUser(doc, f, q);
    EnvUserScope(doc, e, p);
    EnvUserScope(doc, f, q);
  }

  lemma IsolatedIsApart(doc: Doc, e: Environment, f: Environment, r: Rights, s: Rights)
    requires GroupsIsolated(doc) && e in doc.environments && f in doc.environments && e.name != f.name
    requires DeclaresGroup(doc, r) && DeclaresGroup(doc, s)
    ensures !Nested(GroupName(e, r), GroupName(f, s))
  {
    var p :| p in doc.principals && r in p.groups;
    var q :| q in doc.principals && s in q.groups;
    hide StartsWith; hide UserOf; hide GroupsIsolated; hide ReachesGroup; hide GroupName;
    var a, b := GroupName(e, r), GroupName(f, s);
    ReachesDeclared(doc, e, p, a);
    ReachesDeclared(doc, e, p, b);
    ReachesDeclared(doc, f, q, a);
    ReachesDeclared(doc, f, q, b);
    Itself(a);
    Itself(b);
    NotBoth(doc, e, p, f, q, a);
    NotBoth(doc, e, p, f, q, b);
  }

  lemma Itself(a: string)
    ensures StartsWith(a, a)
  {
  }

  /** No group is reachable from two environments exactly when no two environments' names for declared
      groups are one a prefix of the other, which the check does not ask. */
  lemma GroupsIsolatedIff(doc: Doc)
    ensures GroupsIsolated(doc) <==> GroupNamesApart(doc)
  {
    hide ReachesGroup; hide Rendered; hide Nested; hide DeclaresGroup;
    if GroupNamesApart(doc) {
      forall u, v, g | u in Rendered(doc) && v in Rendered(doc) && !u.platform && !v.platform && u.env != v.env
                       && ReachesGroup(u, g) ensures !ReachesGroup(v, g) {
        ApartIsolates(doc, u, v, g);
      }
    }
    if GroupsIsolated(doc) {
      forall e, f, r, s | e in doc.environments && f in doc.environments && e.name != f.name
                          && DeclaresGroup(doc, r) && DeclaresGroup(doc, s)
        ensures !Nested(GroupName(e, r), GroupName(f, s))
      {
        IsolatedIsApart(doc, e, f, r, s);
      }
    }
  }

  /** A declaration whose users the check accepts, and two environments with unrelated names that share a
      group. */
  lemma AcceptedGroupsCanMeet()
    ensures var dev, prod := Environment("dev", "dev"), Environment("prod", "prod");
            var p := Principal("p", [], [Rights("sim", {Read}), Rights("sim-dev-x", {Read})], {});
            var doc := Doc([dev, prod], [p], [], {}, {}, map[]);
            Accepted(doc, Rendered(doc)) && !Nested("dev", "prod") && !GroupsIsolated(doc)
  {
    var dev, prod := Environment("dev", "dev"), Environment("prod", "prod");
    var r, s := Rights("sim", {Read}), Rights("sim-dev-x", {Read});
    var p := Principal("p", [], [r, s], {});
    var doc := Doc([dev, prod], [p], [], {}, {}, map[]);
    assert "dev"[0] == 'd' && "prod"[0] == 'p';
    assert dev.name != prod.name && doc.environments[0] == dev && doc.environments[1] == prod;
    SmallDocPasses(doc, dev, prod, p, r, s);
    assert p.groups[0] == r && p.groups[1] == s && doc.principals[0] == p;
    assert DeclaresGroup(doc, r) && DeclaresGroup(doc, s);
    SimNested(dev, r, prod, s);
    hide GroupNamesApart;
    NotApart(doc, dev, r, prod, s);
    hide GroupName; hide Nested; hide StartsWith; hide GroupsIsolated; hide DeclaresGroup; hide Accepted; hide Rendered;
    GroupsIsolatedIff(doc);
  }

  lemma NotApart(doc: Doc, e: Environment, r: Rights, f: Environment, s: Rights)
    requires e in doc.environments && f in doc.environments && e.name != f.name
    requires DeclaresGroup(doc, r) && DeclaresGroup(doc, s) && Nested(GroupName(e, r), GroupName(f, s))
    ensures !GroupNamesApart(doc)
  {
    hide DeclaresGroup; hide Nested; hide GroupName;
  }

  lemma SimNested(dev: Environment, r: Rights, prod: Environment, s: Rights)
    requires dev.name == "dev" && prod.name == "prod" && r.name == "sim" && s.name == "sim-dev-x"
    ensures Nested(GroupName(dev, r), GroupName(prod, s)) && !Nested("dev", "prod")
  {
    var a, b := GroupName(dev, r), GroupName(prod, s);
    assert a == "sim-dev" && b == "sim-dev-x-prod" && b[..7] == a;
    assert "dev"[0] == 'd' && "prod"[0] == 'p';
  }

  lemma SmallDocPasses(doc: Doc, dev: Environment, prod: Environment, p: Principal, r: Rights, s: Rights)
    requires dev == Environment("dev", "dev") && prod == Environment("prod", "prod") && dev.name != prod.name
    requires r == Rights("sim", {Read}) && s == Rights("sim-dev-x", {Read}) && p == Principal("p", [], [r, s], {})
    requires doc == Doc([dev, prod], [p], [], {}, {}, map[])
    ensures Accepted(doc, Rendered(doc))
  {
    hide Accepted; hide Rendered;
    assert forall e | e in doc.environments :: e == dev || e == prod;
    assert forall x | x in doc.principals :: x == p;
    assert UserOf(doc, dev, p).name[0] == 'p' && UserOf(doc, prod, p).name[0] == 'p' && IT[0] == 'a';
    assert forall x | x in p.groups :: x == r || x == s;
    assert RightsFine(dev, p) && RightsFine(prod, p);
    RenderedPassesIff(doc);
  }

  // ----- what is rendered passes -----------------------------------------

  /** principal_of takes a rendered user's name apart again. */
  lemma PrincipalOfRendered(doc: Doc, e: Environment, p: Principal)
    requires e.name != ""
    ensures PrincipalOf(UserOf(doc, e, p)) == (p.name, e.name)
  {
    var name, tail := p.name + "-" + e.name, "-" + e.name;
    assert name == p.name + tail;
    assert name[|name| - |tail|..] == tail && name[..|name| - |tail|] == p.name;
  }

  /** A declaration's own rights: what check can still find in what render made of it. */
  ghost predicate TopicRight(e: Environment, r: Rights) {
    '*' !in e.prefix && '*' !in r.name && r.ops * TOPIC_FORBIDDEN == {}
  }

  ghost predicate GroupRightIn(e: Environment, p: Principal, r: Rights) {
    && '*' !in r.name && '*' !in e.name && r.ops * GROUP_FORBIDDEN == {}
    && (Delete in r.ops ==> p.name == DELETER && r.name == DELETER)
  }

  ghost predicate RightsFine(e: Environment, p: Principal) {
    && (forall r | r in p.topics :: TopicRight(e, r))
    && (forall r | r in p.groups :: GroupRightIn(e, p, r))
    && p.cluster <= {Describe}
  }

  lemma {:induction false} FirstPrefix(es: seq<Environment>, e: Environment)
    requires e in es && forall i, j | 0 <= i < j < |es| :: es[i].name != es[j].name
    ensures PrefixIn(es, e.name) == Some(e.prefix)
  {
    if es[0] != e { FirstPrefix(es[1..], e); }
  }

  lemma TopicAclFine(doc: Doc, e: Environment, p: Principal, r: Rights)
    requires PrefixOf(doc, e.name) == Some(e.prefix) && UserOf(doc, e, p).name != IT
    ensures EnvAcl(doc, UserOf(doc, e, p), TopicAcl(e.prefix, r)) == [] <==> TopicRight(e, r)
  {
    hide PrefixOf; hide IT; hide IT_PREFIXES; hide PrincipalOf;
    var name := e.prefix + "." + r.name;
    assert name[..|e.prefix + "."|] == e.prefix + ".";
    NoStar(e.prefix, '.', r.name);
  }

  /** A star is in a joined name exactly when it is in one of its parts. */
  lemma NoStar(a: string, c: char, b: string)
    requires c != '*'
    ensures '*' in a + [c] + b <==> '*' in a || '*' in b
  {
  }

  lemma GroupAclFine(doc: Doc, e: Environment, p: Principal, r: Rights)
    requires e.name != "" && UserOf(doc, e, p).name != IT
    ensures EnvAcl(doc, UserOf(doc, e, p), GroupAcl(e.name, r)) == [] <==> GroupRightIn(e, p, r)
  {
    hide PrefixOf; hide IT; hide IT_PREFIXES; hide IT_GROUPS; hide PrincipalOf; hide StartsWith; hide DELETER;
    PrincipalOfRendered(doc, e, p);
    var tail := "-" + e.name;
    var name := r.name + "-" + e.name;
    assert name == r.name + tail && name[|name| - |tail|..] == tail;
    SameEnds(r.name, DELETER, e.name);
    NoStar(r.name, '-', e.name);
  }

  lemma SameEnds(a: string, b: string, tail: string)
    ensures a + "-" + tail == b + "-" + tail <==> a == b
  {
    var x, y := a + "-" + tail, b + "-" + tail;
    if x == y { assert |a| == |b| && x[..|a|] == a && y[..|b|] == b; }
  }

  lemma EnvUserFine(doc: Doc, e: Environment, p: Principal)
    requires PrefixOf(doc, e.name) == Some(e.prefix) && e.name != "" && UserOf(doc, e, p).name != IT
    ensures UserFine(doc, UserOf(doc, e, p)) <==> RightsFine(e, p)
  {
    hide EnvAcl; hide PrefixOf; hide IT; hide TopicRight; hide GroupRightIn; hide TopicAcl; hide GroupAcl;
    var u := UserOf(doc, e, p);
    var topics := seq(|p.topics|, i requires 0 <= i < |p.topics| => TopicAcl(e.prefix, p.topics[i]));
    var groups := seq(|p.groups|, i requires 0 <= i < |p.groups| => GroupAcl(e.name, p.groups[i]));
    var rest := if p.cluster != {} then [Acl(Cluster, "", Literal, p.cluster)] else [];
    assert u.acls == topics + groups + rest;
    TopicsFine(doc, e, p, topics);
    GroupsFine(doc, e, p, groups);
    ClusterFine(doc, u, p.cluster);
    AllOf(doc, u, topics, groups, rest);
  }

  lemma AllOf(doc: Doc, u: User, a: seq<Acl>, b: seq<Acl>, c: seq<Acl>)
    ensures (forall x | x in a + b + c :: EnvAcl(doc, u, x) == []) <==>
            && (forall x | x in a :: EnvAcl(doc, u, x) == []) && (forall x | x in b :: EnvAcl(doc, u, x) == [])
            && (forall x | x in c :: EnvAcl(doc, u, x) == [])
  {
    hide EnvAcl;
  }

  lemma TopicsFine(doc: Doc, e: Environment, p: Principal, acls: seq<Acl>)
    requires PrefixOf(doc, e.name) == Some(e.prefix) && UserOf(doc, e, p).name != IT
    requires |acls| == |p.topics| && forall i | 0 <= i < |acls| :: acls[i] == TopicAcl(e.prefix, p.topics[i])
    ensures (forall a | a in acls :: EnvAcl(doc, UserOf(doc, e, p), a) == []) <==>
            forall r | r in p.topics :: TopicRight(e, r)
  {
    hide EnvAcl; hide PrefixOf; hide IT; hide TopicRight; hide TopicAcl; hide UserOf;
    forall i | 0 <= i < |acls| ensures EnvAcl(doc, UserOf(doc, e, p), acls[i]) == [] <==> TopicRight(e, p.topics[i]) {
      TopicAclFine(doc, e, p, p.topics[i]);
    }
    assert forall i | 0 <= i < |acls| :: acls[i] in acls && p.topics[i] in p.topics;
  }

  lemma GroupsFine(doc: Doc, e: Environment, p: Principal, acls: seq<Acl>)
    requires e.name != "" && UserOf(doc, e, p).name != IT
    requires |acls| == |p.groups| && forall i | 0 <= i < |acls| :: acls[i] == GroupAcl(e.name, p.groups[i])
    ensures (forall a | a in acls :: EnvAcl(doc, UserOf(doc, e, p), a) == []) <==>
            forall r | r in p.groups :: GroupRightIn(e, p, r)
  {
    hide EnvAcl; hide IT; hide GroupRightIn; hide GroupAcl; hide UserOf;
    forall i | 0 <= i < |acls|
      ensures EnvAcl(doc, UserOf(doc, e, p), acls[i]) == [] <==> GroupRightIn(e, p, p.groups[i])
    {
      GroupAclFine(doc, e, p, p.groups[i]);
    }
    assert forall i | 0 <= i < |acls| :: acls[i] in acls && p.groups[i] in p.groups;
  }

  lemma ClusterFine(doc: Doc, u: User, ops: set<Op>)
    ensures EnvAcl(doc, u, Acl(Cluster, "", Literal, ops)) == [] <==> ops <= {Describe}
  {
  }

  /** Of what render makes, check refuses nothing but the declaration's own rights: never a missing user,
      a wrong quota or an ACL outside its environment. */
  lemma RenderedPassesIff(doc: Doc)
    requires forall e | e in doc.environments :: e.name != ""
    requires forall i, j | 0 <= i < j < |doc.environments| :: doc.environments[i].name != doc.environments[j].name
    requires forall e, p | e in doc.environments && p in doc.principals :: UserOf(doc, e, p).name != IT
    ensures Accepted(doc, Rendered(doc)) <==>
            && TopicsDeclared(doc)
            && (forall e, p | e in doc.environments && p in doc.principals :: RightsFine(e, p))
            && (forall p | p in doc.platformPrincipals :: UserFine(doc, PlatformUser(p)))
  {
    hide UserFine; hide RightsFine; hide UserOf; hide PlatformUser; hide Rendered; hide IT; hide PrincipalOf;
    RenderedAre(doc);
    forall e, p | e in doc.environments && p in doc.principals
      ensures UserFine(doc, UserOf(doc, e, p)) <==> RightsFine(e, p)
      ensures UserOf(doc, e, p) in Rendered(doc) && IsEnvUser(doc, UserOf(doc, e, p))
      ensures !UserOf(doc, e, p).platform && PrincipalOf(UserOf(doc, e, p)) == (p.name, e.name)
    {
      FirstPrefix(doc.environments, e);
      EnvUserFine(doc, e, p);
      OneEnvUser(doc, e, p);
      PrincipalOfRendered(doc, e, p);
      EnvUserScope(doc, e, p);
    }
    forall p | p in doc.platformPrincipals ensures IsPlatformUser(doc, PlatformUser(p)) {}
    assert Covered(doc, Rendered(doc));
  }

  lemma EnvUserScope(doc: Doc, e: Environment, p: Principal)
    ensures !UserOf(doc, e, p).platform && UserOf(doc, e, p).env == e.name
  {
  }
}
