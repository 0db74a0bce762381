/** What the rendered KafkaUsers may do, against the declaration, and what the check lets an ACL say, rule by
    rule (scripts/kafka_users.py). */
module KafkaRights {
  import opened Options
  import opened Strings
  import opened KafkaUsers
  import opened KafkaIsolation

  ghost predicate Allows(ops: set<Op>, op: Op) { op in ops || All in ops }

  ghost predicate HoldsGroup(u: User, op: Op, g: string) {
    exists a | a in u.acls :: a.kind == Group && Covers(a, g) && Allows(a.ops, op)
  }

  ghost predicate HoldsCluster(u: User, op: Op) {
    exists a | a in u.acls :: a.kind == Cluster && Allows(a.ops, op)
  }

  // ----- an environment's users ------------------------------------------

  /** Exactly the declared rights: each topic under the environment's prefix, each group by its prefix, the
      cluster; with the name, the label and the quotas. */
  ghost predicate AsDeclared(doc: Doc, u: User, e: Environment, p: Principal) {
    && u.name == p.name + "-" + e.name && u.env == e.name && !u.platform
    && (u.quotas.Some? <==> e.name in doc.quotas) && (u.quotas.Some? ==> u.quotas.value == doc.quotas[e.name])
    && (forall op, t :: HoldsTopic(u, op, t) <==>
                        exists r | r in p.topics :: t == e.prefix + "." + r.name && Allows(r.ops, op))
    && (forall op, g :: HoldsGroup(u, op, g) <==>
                        exists r | r in p.groups :: StartsWith(g, r.name + "-" + e.name) && Allows(r.ops, op))
    && (forall op :: HoldsCluster(u, op) <==> Allows(p.cluster, op))
    && (forall a | a in u.acls :: a.kind == Topic || a.kind == Group || a.kind == Cluster)
  }

  lemma NotStar(prefix: string, name: string)
    ensures prefix + "." + name != "*"
  {
    assert (prefix + "." + name)[|prefix|] == '.';
  }

  lemma AclsAre(e: Environment, p: Principal, a: Acl)
    ensures a in AclsOf(e, p) <==>
            || (exists r | r in p.topics :: a == TopicAcl(e.prefix, r))
            || (exists r | r in p.groups :: a == GroupAcl(e.name, r))
            || (p.cluster != {} && a == Acl(Cluster, "", Literal, p.cluster))
  {
    var ts := seq(|p.topics|, i requires 0 <= i < |p.topics| => TopicAcl(e.prefix, p.topics[i]));
    var gs := seq(|p.groups|, i requires 0 <= i < |p.groups| => GroupAcl(e.name, p.groups[i]));
    var cs := if p.cluster != {} then [Acl(Cluster, "", Literal, p.cluster)] else [];
    assert AclsOf(e, p) == ts + gs + cs;
    hide TopicAcl; hide GroupAcl;
    if r :| r in p.topics && a == TopicAcl(e.prefix, r) {
      var i :| 0 <= i < |p.topics| && p.topics[i] == r;
      assert ts[i] == a;
    }
    if r :| r in p.groups && a == GroupAcl(e.name, r) {
      var i :| 0 <= i < |p.groups| && p.groups[i] == r;
      assert gs[i] == a;
    }
  }

  lemma TopicRights(doc: Doc, e: Environment, p: Principal, op: Op, t: string)
    ensures HoldsTopic(UserOf(doc, e, p), op, t) <==>
            exists r | r in p.topics :: t == e.prefix + "." + r.name && Allows(r.ops, op)
  {
    hide AclsOf; hide StartsWith;
    var u := UserOf(doc, e, p);
    if HoldsTopic(u, op, t) {
      var a :| a in u.acls && a.kind == Topic && Covers(a, t) && Allows(a.ops, op);
      AclsAre(e, p, a);
      var r :| r in p.topics && a == TopicAcl(e.prefix, r);
      NotStar(e.prefix, r.name);
    }
    if r :| r in p.topics && t == e.prefix + "." + r.name && Allows(r.ops, op) {
      AclsAre(e, p, TopicAcl(e.prefix, r));
      assert Covers(TopicAcl(e.prefix, r), t);
    }
  }

  lemma GroupRights(doc: Doc, e: Environment, p: Principal, op: Op, g: string)
    ensures HoldsGroup(UserOf(doc, e, p), op, g) <==>
            exists r | r in p.groups :: StartsWith(g, r.name + "-" + e.name) && Allows(r.ops, op)
  {
    hide AclsOf; hide StartsWith;
    var u := UserOf(doc, e, p);
    if HoldsGroup(u, op, g) {
      var a :| a in u.acls && a.kind == Group && Covers(a, g) && Allows(a.ops, op);
      AclsAre(e, p, a);
      var r :| r in p.groups && a == GroupAcl(e.name, r);
    }
    if r :| r in p.groups && StartsWith(g, r.name + "-" + e.name) && Allows(r.ops, op) {
      AclsAre(e, p, GroupAcl(e.name, r));
      assert Covers(GroupAcl(e.name, r), g);
    }
  }

  lemma ClusterRights(doc: Doc, e: Environment, p: Principal, op: Op)
    ensures HoldsCluster(UserOf(doc, e, p), op) <==> Allows(p.cluster, op)
  {
    hide AclsOf;
    var u := UserOf(doc, e, p);
    if HoldsCluster(u, op) {
      var a :| a in u.acls && a.kind == Cluster && Allows(a.ops, op);
      AclsAre(e, p, a);
    }
    AclsAre(e, p, Acl(Cluster, "", Literal, p.cluster));
  }

  lemma UserAsDeclared(doc: Doc, e: Environment, p: Principal)
    ensures AsDeclared(doc, UserOf(doc, e, p), e, p)
  {
    var u := UserOf(doc, e, p);
    forall op, t ensures HoldsTopic(u, op, t) <==>
                         exists r | r in p.topics :: t == e.prefix + "." + r.name && Allows(r.ops, op)
    {
      TopicRights(doc, e, p, op, t);
    }
    forall op, g ensures HoldsGroup(u, op, g) <==>
                         exists r | r in p.groups :: StartsWith(g, r.name + "-" + e.name) && Allows(r.ops, op)
    {
      GroupRights(doc, e, p, op, g);
    }
    forall op ensures HoldsCluster(u, op) <==> Allows(p.cluster, op) { ClusterRights(doc, e, p, op); }
    forall a | a in u.acls ensures a.kind == Topic || a.kind == Group || a.kind == Cluster { AclsAre(e, p, a); }
    hide HoldsTopic; hide HoldsGroup; hide HoldsCluster; hide Allows; hide StartsWith; hide AclsOf;
  }

  // ----- the platform's users --------------------------------------------

  ghost predicate Meets(name: string, x: string) { name == x || name == "*" }

  /** A superuser has no ACL of its own; another platform principal exactly its declared topics and groups, by
      their names, and its prefixed groups. */
  ghost predicate PlatformAsDeclared(u: User, p: PlatformPrincipal) {
    && u.name == p.name && u.env == "" && u.platform && u.quotas == None
    && (p.superuser ==> u.acls == [])
    && (!p.superuser ==> forall op, t ::
          HoldsTopic(u, op, t) <==> exists r | r in p.topics :: Meets(r.name, t) && Allows(r.ops, op))
    && (!p.superuser ==> forall op, g ::
          HoldsGroup(u, op, g) <==>
            || (exists r | r in p.groups :: Meets(r.name, g) && Allows(r.ops, op))
            || (exists r | r in p.prefixedGroups :: StartsWith(g, r.name) && Allows(r.ops, op)))
    && forall a | a in u.acls :: a.kind == Topic || a.kind == Group
  }

  lemma PlatformAclsAre(p: PlatformPrincipal, a: Acl)
    requires !p.superuser
    ensures a in PlatformUser(p).acls <==>
            || (exists r | r in p.topics :: a == Acl(Topic, r.name, Literal, r.ops))
            || (exists r | r in p.groups :: a == Acl(Group, r.name, Literal, r.ops))
            || (exists r | r in p.prefixedGroups :: a == Acl(Group, r.name, Prefix, r.ops))
  {
    var ts := seq(|p.topics|, i requires 0 <= i < |p.topics| => Acl(Topic, p.topics[i].name, Literal, p.topics[i].ops));
    var gs := seq(|p.groups|, i requires 0 <= i < |p.groups| => Acl(Group, p.groups[i].name, Literal, p.groups[i].ops));
    var hs := seq(|p.prefixedGroups|, i requires 0 <= i < |p.prefixedGroups| =>
      Acl(Group, p.prefixedGroups[i].name, Prefix, p.prefixedGroups[i].ops));
    assert PlatformUser(p).acls == ts + gs + hs;
    if r :| r in p.topics && a == Acl(Topic, r.name, Literal, r.ops) {
      var i :| 0 <= i < |p.topics| && p.topics[i] == r;
      assert ts[i] == a;
    }
    if r :| r in p.groups && a == Acl(Group, r.name, Literal, r.ops) {
      var i :| 0 <= i < |p.groups| && p.groups[i] == r;
      assert gs[i] == a;
    }
    if r :| r in p.prefixedGroups && a == Acl(Group, r.name, Prefix, r.ops) {
      var i :| 0 <= i < |p.prefixedGroups| && p.prefixedGroups[i] == r;
      assert hs[i] == a;
    }
  }

  lemma PlatformTopicRights(p: PlatformPrincipal, op: Op, t: string)
    requires !p.superuser
    ensures HoldsTopic(PlatformUser(p), op, t) <==>
            exists r | r in p.topics :: Meets(r.name, t) && Allows(r.ops, op)
  {
    hide PlatformUser; hide StartsWith;
    var u := PlatformUser(p);
    if HoldsTopic(u, op, t) {
      var a :| a in u.acls && a.kind == Topic && Covers(a, t) && Allows(a.ops, op);
      PlatformAclsAre(p, a);
    }
    if r :| r in p.topics && Meets(r.name, t) && Allows(r.ops, op) {
      PlatformAclsAre(p, Acl(Topic, r.name, Literal, r.ops));
      assert Covers(Acl(Topic, r.name, Literal, r.ops), t);
    }
  }

  lemma PlatformGroupRights(p: PlatformPrincipal, op: Op, g: string)
    requires !p.superuser
    ensures HoldsGroup(PlatformUser(p), op, g) <==>
            || (exists r | r in p.groups :: Meets(r.name, g) && Allows(r.ops, op))
            || (exists r | r in p.prefixedGroups :: StartsWith(g, r.name) && Allows(r.ops, op))
  {
    hide PlatformUser; hide StartsWith;
    var u := PlatformUser(p);
    if HoldsGroup(u, op, g) {
      var a :| a in u.acls && a.kind == Group && Covers(a, g) && Allows(a.ops, op);
      PlatformAclsAre(p, a);
    }
    if r :| r in p.groups && Meets(r.name, g) && Allows(r.ops, op) {
      PlatformAclsAre(p, Acl(Group, r.name, Literal, r.ops));
      assert Covers(Acl(Group, r.name, Literal, r.ops), g);
    }
    if r :| r in p.prefixedGroups && StartsWith(g, r.name) && Allows(r.ops, op) {
      PlatformAclsAre(p, Acl(Group, r.name, Prefix, r.ops));
      assert Covers(Acl(Group, r.name, Prefix, r.ops), g);
    }
  }

  lemma PlatformUserAsDeclared(p: PlatformPrincipal)
    ensures PlatformAsDeclared(PlatformUser(p), p)
  {
    var u := PlatformUser(p);
    if !p.superuser {
      forall op, t ensures HoldsTopic(u, op, t) <==> exists r | r in p.topics :: Meets(r.name, t) && Allows(r.ops, op) {
        PlatformTopicRights(p, op, t);
      }
      forall op, g
        ensures HoldsGroup(u, op, g) <==>
                || (exists r | r in p.groups :: Meets(r.name, g) && Allows(r.ops, op))
                || (exists r | r in p.prefixedGroups :: StartsWith(g, r.name) && Allows(r.ops, op))
      {
        PlatformGroupRights(p, op, g);
      }
      forall a | a in u.acls ensures a.kind == Topic || a.kind == Group { PlatformAclsAre(p, a); }
    }
    hide HoldsTopic; hide HoldsGroup; hide Allows; hide StartsWith; hide Meets;
  }

  // ----- all of them -----------------------------------------------------

  /** The rendered users hold exactly the declared rights: every environment has every principal's, the platform
      its own, and no user is rendered beside them. */
  lemma RenderedRights(doc: Doc)
    ensures forall u | u in Rendered(doc) ::
              || (exists e, p :: e in doc.environments && p in doc.principals && AsDeclared(doc, u, e, p))
              || (exists p :: p in doc.platformPrincipals && PlatformAsDeclared(u, p))
    ensures forall e, p | e in doc.environments && p in doc.principals ::
              exists u :: u in Rendered(doc) && AsDeclared(doc, u, e, p)
    ensures forall p | p in doc.platformPrincipals :: exists u :: u in Rendered(doc) && PlatformAsDeclared(u, p)
  {
    hide AsDeclared; hide PlatformAsDeclared; hide UserOf; hide PlatformUser; hide Rendered;
    RenderedAre(doc);
    forall u | u in Rendered(doc)
      ensures || (exists e, p :: e in doc.environments && p in doc.principals && AsDeclared(doc, u, e, p))
              || (exists p :: p in doc.platformPrincipals && PlatformAsDeclared(u, p))
    {
      if IsEnvUser(doc, u) {
        var e, p :| e in doc.environments && p in doc.principals && u == UserOf(doc, e, p);
        UserAsDeclared(doc, e, p);
      } else {
        var p :| p in doc.platformPrincipals && u == PlatformUser(p);
        PlatformUserAsDeclared(p);
      }
    }
    forall e, p | e in doc.environments && p in doc.principals
      ensures exists u :: u in Rendered(doc) && AsDeclared(doc, u, e, p)
    {
      UserAsDeclared(doc, e, p);
      assert IsEnvUser(doc, UserOf(doc, e, p));
    }
    forall p | p in doc.platformPrincipals ensures exists u :: u in Rendered(doc) && PlatformAsDeclared(u, p) {
      PlatformUserAsDeclared(p);
      assert IsPlatformUser(doc, PlatformUser(p));
    }
  }

  // ----- the check, rule by rule -----------------------------------------

  lemma NoneOf(ops: set<Op>, bad: set<Op>)
    ensures ops * bad == {} <==> forall op | op in bad :: op !in ops
  {
    assert forall op | op in bad && op in ops :: op in ops * bad;
  }

  lemma TopicsBad(ops: set<Op>)
    ensures ops * TOPIC_FORBIDDEN == {} <==>
            Create !in ops && Alter !in ops && AlterConfigs !in ops && Delete !in ops && All !in ops
    ensures ops * TOPIC_FORBIDDEN - {Create, Delete} == {} <==> Alter !in ops && AlterConfigs !in ops && All !in ops
  {
    NoneOf(ops, TOPIC_FORBIDDEN);
    NoneOf(ops, TOPIC_FORBIDDEN - {Create, Delete});
    assert ops * TOPIC_FORBIDDEN - {Create, Delete} == ops * (TOPIC_FORBIDDEN - {Create, Delete});
    var f := TOPIC_FORBIDDEN;
    assert Create in f && Alter in f && AlterConfigs in f && Delete in f && All in f;
  }

  lemma GroupsBad(ops: set<Op>)
    ensures ops * GROUP_FORBIDDEN == {} <==> All !in ops && Alter !in ops && AlterConfigs !in ops && Create !in ops
    ensures ops * (GROUP_FORBIDDEN + {Delete}) == {} <==>
            All !in ops && Alter !in ops && AlterConfigs !in ops && Create !in ops && Delete !in ops
  {
    NoneOf(ops, GROUP_FORBIDDEN);
    NoneOf(ops, GROUP_FORBIDDEN + {Delete});
    var f := GROUP_FORBIDDEN;
    assert Create in f && Alter in f && AlterConfigs in f && All in f;
  }

  /** A topic ACL of an environment principal passes exactly when it names no wildcard, holds none of the
      operator's rights and lies under the environment's prefix; the suite's, when it is one of its two
      prefixes, with Create and Delete at most of them. */
  lemma EnvTopicIff(doc: Doc, u: User, a: Acl)
    requires a.kind == Topic
    ensures EnvAcl(doc, u, a) == [] <==>
            && '*' !in a.name && All !in a.ops && Alter !in a.ops && AlterConfigs !in a.ops
            && if u.name == "andara-it" then a.pattern == Prefix && (a.name == "andara.test." || a.name == "it")
               else
                 && Create !in a.ops && Delete !in a.ops
                 && PrefixOf(doc, u.env).Some? && StartsWith(a.name, PrefixOf(doc, u.env).value + ".")
  {
    TopicsBad(a.ops);
    assert a.name in IT_PREFIXES <==> a.name == "andara.test." || a.name == "it" by {
      assert IT_PREFIXES[0] == "andara.test." && IT_PREFIXES[1] == "it";
    }
    hide PrefixOf; hide PrincipalOf; hide StartsWith; hide TOPIC_FORBIDDEN; hide IT_PREFIXES;
    assert a.ops * TOPIC_FORBIDDEN - {} == a.ops * TOPIC_FORBIDDEN;
  }

  /** A group ACL of an environment principal passes exactly when it names no wildcard, holds no right over
      the group itself, and ends in the environment's name; only the state projector deletes, its own group.
      The suite's are prefixed under its own. */
  lemma EnvGroupIff(doc: Doc, u: User, a: Acl)
    requires a.kind == Group
    ensures EnvAcl(doc, u, a) == [] <==>
            && '*' !in a.name && All !in a.ops && Alter !in a.ops && AlterConfigs !in a.ops && Create !in a.ops
            && (u.name == "andara-it" ==> a.pattern == Prefix && StartsWith(a.name, "it-"))
            && (u.name != "andara-it" ==>
                  && EndsWith(a.name, "-" + u.env)
                  && (Delete in a.ops ==>
                        PrincipalOf(u).0 == "andara-projector-state" &&
                        a.name == "andara-projector-state" + "-" + u.env))
  {
    GroupsBad(a.ops);
    hide PrincipalOf; hide StartsWith; hide EndsWith; hide GROUP_FORBIDDEN;
  }

  /** Describe alone on the cluster, and no ACL of any other kind. */
  lemma EnvOtherIff(doc: Doc, u: User, a: Acl)
    requires a.kind != Topic && a.kind != Group
    ensures EnvAcl(doc, u, a) == [] <==> a.kind == Cluster && forall op | op in a.ops :: op == Describe
  {
    hide PrincipalOf;
    assert forall op | op in a.ops && op != Describe :: op in a.ops - {Describe};
  }

  /** A platform principal's ACL passes exactly when it is a literal one on a declared platform topic without
      the operator's rights, or on a group without rights over the group; but the registry may create its own
      topic and prefix its readers' groups. */
  lemma PlatformAclIff(doc: Doc, u: User, a: Acl)
    ensures PlatformAcl(doc, u, a) == [] <==>
            && '*' !in a.name && All !in a.ops && Alter !in a.ops && AlterConfigs !in a.ops && Delete !in a.ops
            && (Create in a.ops ==> a.kind == Topic && u.name == "andara-schema-registry" && a.name == "_schemas")
            && ((a.kind == Topic && a.pattern == Literal && a.name in doc.platformTopics) ||
                (a.kind == Group && (a.pattern == Literal ||
                                     (u.name == "andara-schema-registry" && a.pattern == Prefix
                                      && a.name == "karapace-autogenerated-"))))
  {
    TopicsBad(a.ops);
    GroupsBad(a.ops);
    RegistryBad(a.ops);
    hide TOPIC_FORBIDDEN; hide GROUP_FORBIDDEN;
    assert TOPIC_FORBIDDEN - {} == TOPIC_FORBIDDEN;
  }

  lemma RegistryBad(ops: set<Op>)
    ensures ops * (TOPIC_FORBIDDEN - {Create}) == {} <==>
            Alter !in ops && AlterConfigs !in ops && Delete !in ops && All !in ops
  {
    NoneOf(ops, TOPIC_FORBIDDEN - {Create});
    var f := TOPIC_FORBIDDEN - {Create};
    assert Alter in f && AlterConfigs in f && Delete in f && All in f;
  }
}
