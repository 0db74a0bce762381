/** The KafkaUsers rendered from the topic declaration and the check over them (scripts/kafka_users.py
    render, principal_of, check_platform, check). */
module KafkaUsers {
  import opened Options
  import opened Strings

  // ----- users and their ACLs --------------------------------------------

  datatype Op = Read | Write | Describe | Create | Alter | AlterConfigs | Delete | All | OtherOp(name: string)

  datatype Kind = Topic | Group | Cluster | OtherKind(name: string)

  datatype Pattern = Literal | Prefix | OtherPattern(name: string)

  datatype Acl = Acl(kind: Kind, name: string, pattern: Pattern, ops: set<Op>)

  type Quota = map<string, string>

  /** A KafkaUser: its name, its environment and scope labels, its ACLs and quotas. */
  datatype User = User(name: string, env: string, platform: bool, acls: seq<Acl>, quotas: Option<Quota>)

  // ----- the declaration -------------------------------------------------

  datatype Rights = Rights(name: string, ops: set<Op>)

  datatype Principal = Principal(name: string, topics: seq<Rights>, groups: seq<Rights>, cluster: set<Op>)

  datatype PlatformPrincipal = PlatformPrincipal(
    name: string, superuser: bool, topics: seq<Rights>, groups: seq<Rights>, prefixedGroups: seq<Rights>)

  datatype Environment = Environment(name: string, prefix: string)

  /** The environments are those with a prefix: the ones the shared broker serves. */
  datatype Doc = Doc(
    environments: seq<Environment>, principals: seq<Principal>, platformPrincipals: seq<PlatformPrincipal>,
    topics: set<string>, platformTopics: set<string>, quotas: map<string, Quota>)
  {
    function Quotas(env: string): Option<Quota> { if env in quotas then Some(quotas[env]) else None }
  }

  const IT := "andara-it"
  const IT_PREFIXES: seq<string> := ["andara.test.", "it"]
  const IT_GROUPS := "it-"
  const DELETER := "andara-projector-state"
  const REGISTRY := "andara-schema-registry"
  const SCHEMAS := "_schemas"
  const READER_GROUPS := "karapace-autogenerated-"
  const TOPIC_FORBIDDEN: set<Op> := {Create, Alter, AlterConfigs, Delete, All}
  const GROUP_FORBIDDEN: set<Op> := {All, Alter, AlterConfigs, Create}

  // ----- render ----------------------------------------------------------

  function TopicAcl(prefix: string, r: Rights): Acl { Acl(Topic, prefix + "." + r.name, Literal, r.ops) }

  function GroupAcl(env: string, r: Rights): Acl { Acl(Group, r.name + "-" + env, Prefix, r.ops) }

  function AclsOf(e: Environment, p: Principal): seq<Acl> {
    seq(|p.topics|, i requires 0 <= i < |p.topics| => TopicAcl(e.prefix, p.topics[i])) +
    seq(|p.groups|, i requires 0 <= i < |p.groups| => GroupAcl(e.name, p.groups[i])) +
    if p.cluster != {} then [Acl(Cluster, "", Literal, p.cluster)] else []
  }

  function UserOf(doc: Doc, e: Environment, p: Principal): User {
    User(p.name + "-" + e.name, e.name, false, AclsOf(e, p), doc.Quotas(e.name))
  }

  function PlatformUser(p: PlatformPrincipal): User {
    User(p.name, "", true,
      if p.superuser then []
      else
        seq(|p.topics|, i requires 0 <= i < |p.topics| => Acl(Topic, p.topics[i].name, Literal, p.topics[i].ops)) +
        seq(|p.groups|, i requires 0 <= i < |p.groups| => Acl(Group, p.groups[i].name, Literal, p.groups[i].ops)) +
        seq(|p.prefixedGroups|, i requires 0 <= i < |p.prefixedGroups| =>
          Acl(Group, p.prefixedGroups[i].name, Prefix, p.prefixedGroups[i].ops)),
      None)
  }

  function EnvUsers(doc: Doc, e: Environment, n: nat): (r: seq<User>)
    requires n <= |doc.principals|
    ensures |r| == n && forall j | 0 <= j < n :: r[j] == UserOf(doc, e, doc.principals[j])
  {
    seq(n, j requires 0 <= j < n => UserOf(doc, e, doc.principals[j]))
  }

  function AllEnvUsers(doc: Doc, n: nat): seq<User>
    requires n <= |doc.environments|
  {
    if n == 0 then [] else AllEnvUsers(doc, n - 1) + EnvUsers(doc, doc.environments[n - 1], |doc.principals|)
  }

  function PlatformUsers(doc: Doc, n: nat): (r: seq<User>)
    requires n <= |doc.platformPrincipals|
    ensures |r| == n && forall j | 0 <= j < n :: r[j] == PlatformUser(doc.platformPrincipals[j])
  {
    seq(n, j requires 0 <= j < n => PlatformUser(doc.platformPrincipals[j]))
  }

  function Rendered(doc: Doc): seq<User> {
    AllEnvUsers(doc, |doc.environments|) + PlatformUsers(doc, |doc.platformPrincipals|)
  }

  method Render(doc: Doc) returns (users: seq<User>)
    ensures users == Rendered(doc)
  {
    hide UserOf; hide PlatformUser;
    users := [];
    for i := 0 to |doc.environments|
      invariant users == AllEnvUsers(doc, i)
    {
      var e := doc.environments[i];
      for j := 0 to |doc.principals|
        invariant users == AllEnvUsers(doc, i) + EnvUsers(doc, e, j)
      {
        users := users + [UserOf(doc, e, doc.principals[j])];
      }
    }
    for i := 0 to |doc.platformPrincipals|
      invariant users == AllEnvUsers(doc, |doc.environments|) + PlatformUsers(doc, i)
    {
      users := users + [PlatformUser(doc.platformPrincipals[i])];
    }
  }

  ghost predicate IsEnvUser(doc: Doc, u: User) {
    exists e, p | e in doc.environments && p in doc.principals :: u == UserOf(doc, e, p)
  }

  ghost predicate IsPlatformUser(doc: Doc, u: User) { exists p | p in doc.platformPrincipals :: u == PlatformUser(p) }

  lemma {:induction false} EnvUsersAre(doc: Doc, n: nat)
    requires n <= |doc.environments|
    ensures forall u | u in AllEnvUsers(doc, n) :: IsEnvUser(doc, u)
  {
    hide UserOf; hide IsEnvUser;
    if n > 0 {
      EnvUsersAre(doc, n - 1);
      var more := EnvUsers(doc, doc.environments[n - 1], |doc.principals|);
      forall j | 0 <= j < |more| ensures IsEnvUser(doc, more[j]) {
        OneEnvUser(doc, doc.environments[n - 1], doc.principals[j]);
      }
    }
  }

  lemma OneEnvUser(doc: Doc, e: Environment, p: Principal)
    requires e in doc.environments && p in doc.principals
    ensures IsEnvUser(doc, UserOf(doc, e, p))
  {
  }

  lemma {:induction false} HasEnvUser(doc: Doc, n: nat, i: nat, j: nat)
    requires i < n <= |doc.environments| && j < |doc.principals|
    ensures UserOf(doc, doc.environments[i], doc.principals[j]) in AllEnvUsers(doc, n)
  {
    hide UserOf;
    if i < n - 1 {
      HasEnvUser(doc, n - 1, i, j);
    } else {
      var mine := EnvUsers(doc, doc.environments[i], |doc.principals|);
      assert mine[j] in mine;
    }
  }

  /** The rendered users are one for every environment and principal, and one for every platform
      principal. */
  lemma RenderedAre(doc: Doc)
    ensures forall u | u in Rendered(doc) :: IsEnvUser(doc, u) || IsPlatformUser(doc, u)
    ensures forall u | IsEnvUser(doc, u) || IsPlatformUser(doc, u) :: u in Rendered(doc)
  {
    hide UserOf; hide PlatformUser; hide AllEnvUsers; hide IsEnvUser;
    EnvUsersAre(doc, |doc.environments|);
    var mine, more := AllEnvUsers(doc, |doc.environments|), PlatformUsers(doc, |doc.platformPrincipals|);
    forall u | u in more ensures IsPlatformUser(doc, u) {
      var j :| 0 <= j < |more| && more[j] == u;
      assert u == PlatformUser(doc.platformPrincipals[j]);
    }
    forall u | IsPlatformUser(doc, u) ensures u in more {
      var j :| 0 <= j < |doc.platformPrincipals| && u == PlatformUser(doc.platformPrincipals[j]);
      assert more[j] in more;
    }
    forall u | IsEnvUser(doc, u) ensures u in mine { EnvUserThere(doc, u); }
  }

  lemma EnvUserThere(doc: Doc, u: User)
    requires IsEnvUser(doc, u)
    ensures u in AllEnvUsers(doc, |doc.environments|)
  {
    hide UserOf; hide AllEnvUsers;
    var e, p :| e in doc.environments && p in doc.principals && u == UserOf(doc, e, p);
    var i :| 0 <= i < |doc.environments| && doc.environments[i] == e;
    var j :| 0 <= j < |doc.principals| && doc.principals[j] == p;
    HasEnvUser(doc, |doc.environments|, i, j);
  }

  // ----- check -----------------------------------------------------------

  datatype Fault =
    | UndeclaredTopic | SharedName | NoSuchAcl | Wildcard | NotLiteral | NotPlatformTopic | OperatorOnly | GroupRight
    | OutsideSuite | OutsidePrefix | GroupDelete | OutsideGroup | ClusterRight | WrongQuota | NoUser

  datatype Error = Error(fault: Fault, who: string)

  function When(b: bool, fault: Fault, who: string): seq<Error> { if b then [Error(fault, who)] else [] }

  /** One of a platform principal's ACLs. */
  function PlatformAcl(doc: Doc, u: User, a: Acl): seq<Error> {
    var forbidden := TOPIC_FORBIDDEN - if u.name == REGISTRY && a.name == SCHEMAS then {Create} else {};
    if a.kind != Topic && a.kind != Group then [Error(NoSuchAcl, u.name)]
    else if '*' in a.name then [Error(Wildcard, u.name)]
    else if a.pattern != Literal
            && !(u.name == REGISTRY && a.kind == Group && a.pattern == Prefix && a.name == READER_GROUPS) then
      [Error(NotLiteral, u.name)]
    else if a.kind == Topic && a.name !in doc.platformTopics then [Error(NotPlatformTopic, u.name)]
    else if a.kind == Topic && a.ops * forbidden != {} then [Error(OperatorOnly, u.name)]
    else if a.kind == Group && a.ops * (GROUP_FORBIDDEN + {Delete}) != {} then [Error(GroupRight, u.name)]
    else []
  }

  /** (principal, env), from a user's name and label. */
  function PrincipalOf(u: User): (string, string) {
    if u.env != "" && EndsWith(u.name, "-" + u.env) then (u.name[..|u.name| - |u.env| - 1], u.env) else (u.name, u.env)
  }

  function PrefixOf(doc: Doc, env: string): Option<string> { PrefixIn(doc.environments, env) }

  function PrefixIn(es: seq<Environment>, env: string): Option<string> {
    if es == [] then None else if es[0].name == env then Some(es[0].prefix) else PrefixIn(es[1..], env)
  }

  /** One of an environment principal's ACLs. */
  function EnvAcl(doc: Doc, u: User, a: Acl): seq<Error> {
    var it := u.name == IT;
    var principal := PrincipalOf(u).0;
    if (a.kind == Topic || a.kind == Group) && '*' in a.name then [Error(Wildcard, u.name)]
    else match a.kind
      case Topic =>
        var suite := a.pattern == Prefix && a.name in IT_PREFIXES;
        var bad := a.ops * TOPIC_FORBIDDEN - if it && suite then {Create, Delete} else {};
        var prefix := PrefixOf(doc, u.env);
        When(bad != {}, OperatorOnly, u.name) + When(it && !suite, OutsideSuite, u.name) +
        When(!it && (prefix.None? || !StartsWith(a.name, prefix.value + ".")), OutsidePrefix, u.name)
      case Group =>
        var suite := a.pattern == Prefix && StartsWith(a.name, IT_GROUPS);
        var own := (principal == DELETER && a.name == DELETER + "-" + u.env) || (it && suite);
        When(Delete in a.ops && !own, GroupDelete, u.name) + When(a.ops * GROUP_FORBIDDEN != {}, GroupRight, u.name) +
        When(it && !suite, OutsideSuite, u.name) + When(!it && !EndsWith(a.name, "-" + u.env), OutsideGroup, u.name)
      case Cluster => When(a.ops - {Describe} != {}, ClusterRight, u.name)
      case OtherKind(_) => [Error(NoSuchAcl, u.name)]
  }

  /** What check and check_platform find in one user. */
  ghost predicate UserFine(doc: Doc, u: User) {
    if u.platform then
      && u.name != IT && (forall p | p in doc.principals :: p.name != u.name)
      && (forall a | a in u.acls :: PlatformAcl(doc, u, a) == [])
    else
      (u.name == IT || u.quotas == doc.Quotas(u.env)) && forall a | a in u.acls :: EnvAcl(doc, u, a) == []
  }

  ghost predicate Covered(doc: Doc, users: seq<User>) {
    forall e, p | e in doc.environments && p in doc.principals ::
      exists u | u in users :: !u.platform && PrincipalOf(u) == (p.name, e.name)
  }

  ghost predicate TopicsDeclared(doc: Doc) {
    forall p, r | p in doc.principals && r in p.topics :: r.name in doc.topics
  }

  /** No error, exactly when the declaration's topics are known, every user is fine and none is missing. */
  method Check(doc: Doc, users: seq<User>) returns (errors: seq<Error>)
    ensures errors == [] <==> TopicsDeclared(doc) && (forall u | u in users :: UserFine(doc, u)) && Covered(doc, users)
  {
    hide EnvAcl; hide PlatformAcl; hide PrincipalOf;
    errors := CheckTopics(doc);
    var named := set p | p in doc.principals :: p.name;
    var seen: set<(string, string)> := {};
    for i := 0 to |users|
      invariant errors == [] <==> TopicsDeclared(doc) && forall j | 0 <= j < i :: UserFine(doc, users[j])
      invariant forall s :: s in seen <==> exists j | 0 <= j < i :: !users[j].platform && PrincipalOf(users[j]) == s
    {
      var u := users[i];
      if !u.platform { seen := seen + {PrincipalOf(u)}; }
      var found := CheckUser(doc, u, named);
      errors := errors + found;
    }
    var missing := CheckCovered(doc, seen);
    errors := errors + missing;
    assert Covered(doc, users) <==>
           forall e, p | e in doc.environments && p in doc.principals :: (p.name, e.name) in seen;
  }

  method CheckTopics(doc: Doc) returns (errors: seq<Error>)
    ensures errors == [] <==> TopicsDeclared(doc)
  {
    errors := [];
    for i := 0 to |doc.principals|
      invariant errors == [] <==> forall a, r | 0 <= a < i && r in doc.principals[a].topics :: r.name in doc.topics
    {
      var p := doc.principals[i];
      for j := 0 to |p.topics|
        invariant errors == [] <==>
                  && (forall a, r | 0 <= a < i && r in doc.principals[a].topics :: r.name in doc.topics)
                  && forall b | 0 <= b < j :: p.topics[b].name in doc.topics
      {
        if p.topics[j].name !in doc.topics { errors := errors + [Error(UndeclaredTopic, p.name)]; }
      }
    }
  }

  method CheckUser(doc: Doc, u: User, named: set<string>) returns (errors: seq<Error>)
    requires named == set p | p in doc.principals :: p.name
    ensures errors == [] <==> UserFine(doc, u)
  {
    hide EnvAcl; hide PlatformAcl;
    if u.platform {
      errors := CheckPlatformAcls(doc, u);
      errors := When(u.name in named || u.name == IT, SharedName, u.name) + errors;
    } else {
      errors := CheckEnvAcls(doc, u);
      errors := errors + When(u.name != IT && u.quotas != doc.Quotas(u.env), WrongQuota, u.name);
    }
  }

  method CheckPlatformAcls(doc: Doc, u: User) returns (errors: seq<Error>)
    ensures errors == [] <==> forall a | a in u.acls :: PlatformAcl(doc, u, a) == []
  {
    hide PlatformAcl;
    errors := [];
    for i := 0 to |u.acls|
      invariant errors == [] <==> forall j | 0 <= j < i :: PlatformAcl(doc, u, u.acls[j]) == []
    {
      errors := errors + PlatformAcl(doc, u, u.acls[i]);
    }
  }

  method CheckEnvAcls(doc: Doc, u: User) returns (errors: seq<Error>)
    ensures errors == [] <==> forall a | a in u.acls :: EnvAcl(doc, u, a) == []
  {
    hide EnvAcl;
    errors := [];
    for i := 0 to |u.acls|
      invariant errors == [] <==> forall j | 0 <= j < i :: EnvAcl(doc, u, u.acls[j]) == []
    {
      errors := errors + EnvAcl(doc, u, u.acls[i]);
    }
  }

  method CheckCovered(doc: Doc, seen: set<(string, string)>) returns (errors: seq<Error>)
    ensures errors == [] <==> forall e, p | e in doc.environments && p in doc.principals :: (p.name, e.name) in seen
  {
    errors := [];
    for i := 0 to |doc.environments|
      invariant errors == [] <==>
                forall a, p | 0 <= a < i && p in doc.principals :: (p.name, doc.environments[a].name) in seen
    {
      var e := doc.environments[i];
      for j := 0 to |doc.principals|
        invariant errors == [] <==>
                  && (forall a, p | 0 <= a < i && p in doc.principals :: (p.name, doc.environments[a].name) in seen)
                  && forall b | 0 <= b < j :: (doc.principals[b].name, e.name) in seen
      {
        if (doc.principals[j].name, e.name) !in seen { errors := errors + [Error(NoUser, doc.principals[j].name)]; }
      }
    }
  }
}
