/** The environment stamp, compiled from one table into relabel rules, Loki stages and OTTL
    statements (scripts/collectors.py). */
module StampCompiler {
  import opened Options
  import opened Strings
  import opened Relabel
  import opened MetricValidator

  // ----- the sources -----------------------------------------------------

  /** environments.yaml in file order: namespace, environment. */
  type Dict = seq<(string, string)>

  ghost predicate DistinctKeys(d: Dict) { forall i, j | 0 <= i < j < |d| :: d[i].0 != d[j].0 }

  function KeysOf(d: Dict): seq<string> { if d == [] then [] else [d[0].0] + KeysOf(d[1..]) }

  function TableOf(d: Dict): Table { if d == [] then map[] else TableOf(d[..|d| - 1])[d[|d| - 1].0 := d[|d| - 1].1] }

  /** The namespaces of one environment, in file order. */
  function NamesOf(d: Dict, env: string): seq<string> {
    if d == [] then [] else (if d[0].1 == env then [d[0].0] else []) + NamesOf(d[1..], env)
  }

  /** One environment's stamp: its value and its namespaces. */
  datatype Group = Group(env: string, names: seq<string>)

  function Groups(d: Dict, values: seq<string>): seq<Group> {
    if values == [] then []
    else
      var names := NamesOf(d, values[0]);
      (if names == [] then [] else [Group(values[0], Sort(names))]) + Groups(d, values[1..])
  }

  /** by_environment: the environments in their fixed order, each one's namespaces sorted. */
  function ByEnvironment(d: Dict): seq<Group> { Groups(d, ENV_VALUES) }

  /** Stamps that say what a table says, in whatever order and however divided. */
  ghost predicate Encodes(groups: seq<Group>, envs: Table) {
    && (forall g | g in groups :: g.names != [] && forall n | n in g.names :: n in envs && envs[n] == g.env)
    && (forall n | n in envs :: exists g :: g in groups && n in g.names)
  }

  lemma {:induction false} TableHas(d: Dict, i: nat)
    requires DistinctKeys(d) && i < |d|
    ensures d[i].0 in TableOf(d) && TableOf(d)[d[i].0] == d[i].1
  {
    if i < |d| - 1 { TableHas(d[..|d| - 1], i); }
  }

  lemma {:induction false} TableOnly(d: Dict, n: string)
    requires n in TableOf(d)
    ensures exists i :: 0 <= i < |d| && d[i].0 == n
  {
    if d[|d| - 1].0 != n {
      TableOnly(d[..|d| - 1], n);
      var i :| 0 <= i < |d| - 1 && d[..|d| - 1][i].0 == n;
      assert d[i].0 == n;
    }
  }

  lemma {:induction false} NamesAre(d: Dict, env: string, n: string)
    ensures n in NamesOf(d, env) <==> exists i :: 0 <= i < |d| && d[i] == (n, env)
  {
    if d != [] {
      NamesAre(d[1..], env, n);
      assert forall i | 0 <= i < |d| - 1 :: d[1..][i] == d[i + 1];
      if n in NamesOf(d[1..], env) {
        var i :| 0 <= i < |d[1..]| && d[1..][i] == (n, env);
        assert d[i + 1] == (n, env);
      }
      if i :| 0 <= i < |d| && d[i] == (n, env) {
        assert i > 0 ==> d[1..][i - 1] == (n, env);
      }
    }
  }

  lemma {:induction false} GroupsAre(d: Dict, values: seq<string>)
    ensures forall g | g in Groups(d, values) :: g.env in values && g.names == Sort(NamesOf(d, g.env)) != []
    ensures forall v | v in values && NamesOf(d, v) != [] :: Group(v, Sort(NamesOf(d, v))) in Groups(d, values)
  {
    hide NamesOf; hide Sort;
    if values != [] {
      GroupsAre(d, values[1..]);
      SortMembers(NamesOf(d, values[0]));
      assert NamesOf(d, values[0]) != [] ==> NamesOf(d, values[0])[0] in Sort(NamesOf(d, values[0]));
    }
  }

  /** by_environment says what environments.yaml says. */
  lemma ByEnvironmentEncodes(d: Dict)
    requires DistinctKeys(d) && forall n | n in TableOf(d) :: TableOf(d)[n] in ENV_VALUES
    ensures Encodes(ByEnvironment(d), TableOf(d))
  {
    hide NamesOf; hide Sort; hide TableOf;
    GroupsAre(d, ENV_VALUES);
    forall g, n | g in ByEnvironment(d) && n in g.names ensures n in TableOf(d) && TableOf(d)[n] == g.env {
      SortMembers(NamesOf(d, g.env));
      NamesAre(d, g.env, n);
      var i :| 0 <= i < |d| && d[i] == (n, g.env);
      TableHas(d, i);
    }
    forall n | n in TableOf(d) ensures exists g :: g in ByEnvironment(d) && n in g.names {
      TableOnly(d, n);
      var i :| 0 <= i < |d| && d[i].0 == n;
      TableHas(d, i);
      var v := d[i].1;
      assert d[i] == (n, v);
      NamesAre(d, v, n);
      SortMembers(NamesOf(d, v));
      assert Group(v, Sort(NamesOf(d, v))) in ByEnvironment(d);
    }
  }

  /** sorted(envs): the namespaces, each once, in order. */
  lemma KeysListed(d: Dict)
    requires DistinctKeys(d)
    ensures SortedListing(Sort(KeysOf(d)), TableOf(d).Keys)
  {
    SortIs(KeysOf(d));
    KeysOnce(d);
  }

  lemma {:induction false} KeysOnce(d: Dict)
    requires DistinctKeys(d)
    ensures multiset(KeysOf(d)) == multiset(TableOf(d).Keys)
  {
    if d == [] {
      assert TableOf(d).Keys == {};
    } else {
      var k := d[|d| - 1].0;
      KeysOnce(d[..|d| - 1]);
      KeysFromTheEnd(d);
      var before := TableOf(d[..|d| - 1]);
      var front := d[..|d| - 1];
      assert forall i | 0 <= i < |front| :: front[i].0 != k;
      assert k !in before by { if k in before { TableOnly(front, k); } }
      assert TableOf(d).Keys == before.Keys + {k};
      assert multiset(before.Keys + {k}) == multiset(before.Keys) + multiset{k};
    }
  }

  lemma {:induction false} KeysFromTheEnd(d: Dict)
    requires d != []
    ensures KeysOf(d) == KeysOf(d[..|d| - 1]) + [d[|d| - 1].0]
  {
    if |d| > 1 {
      KeysFromTheEnd(d[1..]);
      assert d[1..][..|d| - 2] == d[..|d| - 1][1..];
    }
  }

  // ----- relabel rules ---------------------------------------------------

  function Alternation(names: seq<string>): string { Join(names, '|') }

  function StampRule(g: Group): Rule {
    Rule([Namespace], Some(Alternation(g.names)), Some(Environment), Some(g.env), Replace, None)
  }

  function StampRules(groups: seq<Group>): seq<Rule> {
    if groups == [] then [] else StampRules(groups[..|groups| - 1]) + [StampRule(groups[|groups| - 1])]
  }

  const GUARD_RULE := Rule([Environment], Some(""), Some(Environment), Some(GUARD), Replace, None)

  function ClearRegex(namespaces: seq<string>): string { CLEAR_HEAD + Alternation(namespaces) + ")" }

  function ClearRule(namespaces: seq<string>): Rule {
    Rule([TmpKube, Namespace], Some(ClearRegex(namespaces)), Some(TmpKube), Some(""), Replace, Some(";"))
  }

  function KeepRule(keep: seq<string>): Rule {
    Rule([Name], Some(Alternation(Sort(keep))), None, None, Keep, None)
  }

  function Tail(namespaces: seq<string>, keep: seq<string>): seq<Rule> {
    [GUARD_RULE, KUBE_MARK, ClearRule(namespaces), KUBE_DROP, KeepRule(keep)]
  }

  function Rules(groups: seq<Group>, namespaces: seq<string>, keep: seq<string>): seq<Rule> {
    StampRules(groups) + Tail(namespaces, keep)
  }

  /** The compiled rules with another clear rule in place of theirs. */
  function RulesWith(groups: seq<Group>, clear: Rule, keep: seq<string>): seq<Rule> {
    StampRules(groups) + [GUARD_RULE, KUBE_MARK, clear, KUBE_DROP, KeepRule(keep)]
  }

  /** metric_rules: the stamps, the guard, the three kube_ rules, the keep rule, appended in turn. */
  method MetricRules(d: Dict, keep: seq<string>) returns (rules: seq<Rule>)
    ensures rules == Rules(ByEnvironment(d), Sort(KeysOf(d)), keep)
  {
    rules := [];
    var groups := ByEnvironment(d);
    for i := 0 to |groups|
      invariant rules == StampRules(groups[..i])
    {
      assert groups[..i + 1][..i] == groups[..i];
      rules := rules + [StampRule(groups[i])];
    }
    assert groups[..|groups|] == groups;
    rules := rules + [GUARD_RULE];
    rules := rules + [KUBE_MARK];
    rules := rules + [ClearRule(Sort(KeysOf(d)))];
    rules := rules + [KUBE_DROP];
    rules := rules + [KeepRule(keep)];
  }

  // ----- the validator reads them back -----------------------------------

  lemma {:induction false} StampCount(groups: seq<Group>)
    ensures |StampRules(groups)| == |groups|
    ensures forall i | 0 <= i < |groups| :: StampRules(groups)[i] == StampRule(groups[i])
  {
    if groups != [] { StampCount(groups[..|groups| - 1]); }
  }

  /** What a list of stamps reads as, in order. */
  function GroupTable(groups: seq<Group>): map<string, Option<string>> {
    if groups == [] then map[]
    else
      var g := groups[|groups| - 1];
      PutAll(GroupTable(groups[..|groups| - 1]), g.names, Some(g.env))
  }

  predicate LiteralGroups(groups: seq<Group>) {
    forall g | g in groups :: g.names != [] && forall n | n in g.names :: Literal(n)
  }

  lemma NoBar(names: seq<string>)
    requires names != [] && forall n | n in names :: Literal(n)
    ensures Split(Alternation(names), '|') == names
  {
    SplitJoin(names, '|');
  }

  lemma {:induction false} ReadStamps(groups: seq<Group>)
    requires LiteralGroups(groups)
    ensures Read(StampRules(groups)) == BLANK.(table := GroupTable(groups))
  {
    hide Split; hide Literal;
    if groups != [] {
      var before, g := groups[..|groups| - 1], groups[|groups| - 1];
      ReadStamps(before);
      NoBar(g.names);
      var rules := StampRules(groups);
      assert rules[..|rules| - 1] == StampRules(before) && rules[|rules| - 1] == StampRule(g);
    }
  }

  ghost predicate InSome(groups: seq<Group>, n: string) { exists g :: g in groups && n in g.names }

  lemma InSomeStep(groups: seq<Group>, n: string)
    requires groups != []
    ensures InSome(groups, n) <==> InSome(groups[..|groups| - 1], n) || n in groups[|groups| - 1].names
  {
    var before, g := groups[..|groups| - 1], groups[|groups| - 1];
    assert groups == before + [g];
    if x :| x in groups && n in x.names { assert x in before || x == g; }
    if x :| x in before && n in x.names { assert x in groups; }
    if n in g.names { assert g in groups; }
  }

  /** One group's names, over what the groups before it set. */
  lemma GroupTableStep(groups: seq<Group>, n: string)
    requires groups != []
    ensures var before, g := groups[..|groups| - 1], groups[|groups| - 1];
            && (n in GroupTable(groups) <==> n in GroupTable(before) || n in g.names)
            && (n in GroupTable(groups) ==>
                  GroupTable(groups)[n] == if n in g.names then Some(g.env) else GroupTable(before)[n])
  {
  }

  lemma {:induction false} GroupTableAt(groups: seq<Group>, envs: Table, n: string)
    requires forall g | g in groups && n in g.names :: n in envs && envs[n] == g.env
    ensures n in GroupTable(groups) <==> InSome(groups, n)
    ensures n in GroupTable(groups) ==> n in envs && GroupTable(groups)[n] == Some(envs[n])
    decreases |groups|
  {
    if groups != [] {
      InSomeStep(groups, n);
      GroupTableStep(groups, n);
      hide GroupTable; hide InSome;
      var before, g := groups[..|groups| - 1], groups[|groups| - 1];
      assert g in groups && forall x | x in before :: x in groups;
      GroupTableAt(before, envs, n);
    }
  }

  lemma GroupTableIs(groups: seq<Group>, envs: Table)
    requires forall g, n | g in groups && n in g.names :: n in envs && envs[n] == g.env
    ensures forall n :: n in GroupTable(groups) <==> exists g :: g in groups && n in g.names
    ensures forall n | n in GroupTable(groups) :: n in envs && GroupTable(groups)[n] == Some(envs[n])
  {
    hide GroupTable;
    forall n
      ensures n in GroupTable(groups) <==> InSome(groups, n)
      ensures n in GroupTable(groups) ==> n in envs && GroupTable(groups)[n] == Some(envs[n])
    {
      GroupTableAt(groups, envs, n);
    }
  }

  lemma EncodesReads(groups: seq<Group>, envs: Table)
    requires Encodes(groups, envs)
    ensures GroupTable(groups) == (map n | n in envs :: Some(envs[n]))
  {
    GroupTableIs(groups, envs);
  }

  lemma ClearReads(namespaces: seq<string>)
    requires namespaces != [] && SortedNames(namespaces) && forall n | n in namespaces :: Literal(n)
    ensures ClearReading(ClearRule(namespaces), true) == namespaces
    ensures ClearTail(ClearRegex(namespaces)) == ""
  {
    hide Sort; hide Split; hide Literal;
    var inner := Alternation(namespaces);
    var re := ClearRegex(namespaces);
    assert re[|re| - 1] == ')' && re[..6] == CLEAR_HEAD && re[6..|re| - 1] == inner;
    NoNewline(namespaces);
    assert '\n' !in re;
    NoBar(namespaces);
    SortIdempotent(namespaces);
  }

  lemma {:induction false} NoNewline(names: seq<string>)
    requires forall n | n in names :: Literal(n)
    ensures '\n' !in Alternation(names)
  {
    if |names| > 1 {
      NoNewline(names[1..]);
      assert names[0] in names && '\n' !in names[0] + ['|'];
    } else if |names| == 1 {
      assert names[0] in names;
    }
  }

  function ShapeOf(n: nat): Shape { Shape(n, n + 1, n + 2, n + 3, n + 4) }

  lemma RulesWithShaped(groups: seq<Group>, clear: Rule, keep: seq<string>)
    requires KindOf(clear) == KubeClear
    ensures Shaped(RulesWith(groups, clear, keep), ShapeOf(|groups|))
    ensures RulesWith(groups, clear, keep)[|groups| + 2] == clear
  {
    hide Alternation; hide Sort;
    StampCount(groups);
    var rules, n := RulesWith(groups, clear, keep), |groups|;
    assert rules[n] == GUARD_RULE && rules[n + 1] == KUBE_MARK && rules[n + 2] == clear;
    assert rules[n + 3] == KUBE_DROP && rules[n + 4] == KeepRule(keep);
    forall i | 0 <= i < n ensures KindOf(rules[i]) == Stamp {
      assert rules[i] == StampRule(groups[i]);
    }
  }

  lemma RulesShaped(groups: seq<Group>, namespaces: seq<string>, keep: seq<string>)
    ensures Shaped(Rules(groups, namespaces, keep), ShapeOf(|groups|))
  {
    hide Shaped; hide ClearRegex;
    RulesWithShaped(groups, ClearRule(namespaces), keep);
  }

  /** Reading one rule more. */
  lemma ReadMore(rules: seq<Rule>, r: Rule)
    ensures Read(rules + [r]) == ReadRule(Read(rules), r)
  {
    assert (rules + [r])[..|rules|] == rules;
  }

  lemma ReadFive(s: seq<Rule>, a: Rule, b: Rule, c: Rule, d: Rule, e: Rule)
    ensures Read(s + [a, b, c, d, e]) == ReadRule(ReadRule(ReadRule(ReadRule(ReadRule(Read(s), a), b), c), d), e)
  {
    hide Read; hide ReadRule;
    ReadMore(s, a);
    ReadMore(s + [a], b);
    ReadMore(s + [a] + [b], c);
    ReadMore(s + [a] + [b] + [c], d);
    ReadMore(s + [a] + [b] + [c] + [d], e);
    assert s + [a] + [b] + [c] + [d] + [e] == s + [a, b, c, d, e];
  }

  /** The rules after the stamps, read in order, whatever clear rule reads as the namespaces. */
  lemma TailReads(st: Reading, clear: Rule, namespaces: seq<string>, keep: seq<string>)
    requires st == BLANK.(table := st.table) && namespaces != []
    requires KindOf(clear) == KubeClear && ClearReading(clear, true) == namespaces
    requires Sort(Split(Alternation(Sort(keep)), '|')) == Sort(keep)
    ensures var cleared := ReadRule(ReadRule(ReadRule(st, GUARD_RULE), KUBE_MARK), clear);
            ReadRule(ReadRule(cleared, KUBE_DROP), KeepRule(keep)) ==
            Reading(st.table, true, true, Some(namespaces), true, Some(Sort(keep)), false)
  {
    hide Alternation; hide Sort; hide Split; hide ClearReading;
    var a := ReadRule(st, GUARD_RULE);
    assert a == st.(guarded := true);
    var b := ReadRule(a, KUBE_MARK);
    assert b == a.(mark := true);
    var c := ReadRule(b, clear);
    assert c == b.(clear := Some(namespaces));
    var d := ReadRule(c, KUBE_DROP);
    assert d == c.(drop := true);
  }

  lemma RulesWithReadAs(groups: seq<Group>, clear: Rule, namespaces: seq<string>, envs: Table, keep: seq<string>)
    requires ValidTable(envs) && ValidKeep(keep) && Encodes(groups, envs) && SortedListing(namespaces, envs.Keys)
    requires namespaces != [] && KindOf(clear) == KubeClear && ClearReading(clear, true) == namespaces
    ensures ReadsAs(RulesWith(groups, clear, keep), envs, keep)
  {
    LiteralStamps(groups, envs);
    hide Alternation; hide Sort; hide Split; hide Literal; hide ClearReading; hide Read; hide PutAll; hide GroupTable;
    hide StampRules; hide Less; hide ReadRule; hide KeepRule; hide KUBE_MARK; hide KUBE_DROP; hide GUARD_RULE;
    hide Encodes; hide ValidTable; hide SortedListing; hide LiteralGroups; hide KindOf;
    ReadStamps(groups);
    EncodesReads(groups, envs);
    KeepReads(keep);
    ReadFive(StampRules(groups), GUARD_RULE, KUBE_MARK, clear, KUBE_DROP, KeepRule(keep));
    TailReads(Read(StampRules(groups)), clear, namespaces, keep);
  }

  lemma RulesReadAs(groups: seq<Group>, namespaces: seq<string>, envs: Table, keep: seq<string>)
    requires ValidTable(envs) && ValidKeep(keep) && Encodes(groups, envs) && SortedListing(namespaces, envs.Keys)
    ensures ReadsAs(Rules(groups, namespaces, keep), envs, keep)
  {
    hide ReadsAs; hide ClearReading; hide Encodes; hide ValidTable; hide ValidKeep; hide Literal; hide ClearRegex;
    ListedNames(namespaces, envs);
    ClearReads(namespaces);
    RulesWithReadAs(groups, ClearRule(namespaces), namespaces, envs, keep);
  }

  // ----- what the validator lets through ---------------------------------

  /** The compiled clear rule with a newline after its regex. */
  function NewlineClear(namespaces: seq<string>): Rule {
    ClearRule(namespaces).(regex := Some(ClearRegex(namespaces) + "\n"))
  }

  lemma NewlineClearReads(namespaces: seq<string>)
    requires namespaces != [] && SortedNames(namespaces) && forall n | n in namespaces :: Literal(n)
    ensures ClearReading(NewlineClear(namespaces), true) == namespaces
    ensures ClearTail(ClearRegex(namespaces) + "\n") == "\n"
  {
    hide Sort; hide Split; hide Literal;
    var inner, core := Alternation(namespaces), ClearRegex(namespaces);
    var re := core + "\n";
    assert re[|re| - 1] == '\n' && re[..|re| - 1] == core;
    assert core[|core| - 1] == ')' && core[..6] == CLEAR_HEAD && core[6..|core| - 1] == inner;
    NoNewline(namespaces);
    assert '\n' !in core;
    NoBar(namespaces);
    SortIdempotent(namespaces);
  }

  /** For every table and keep-list there is a list of rules of the right shape that reads back as them and
      whose clear regex ends in a newline: the compiled one with the newline put there. */
  lemma NewlineReadsAs(groups: seq<Group>, namespaces: seq<string>, envs: Table, keep: seq<string>)
    requires ValidTable(envs) && ValidKeep(keep) && Encodes(groups, envs) && SortedListing(namespaces, envs.Keys)
    ensures var rules, x := RulesWith(groups, NewlineClear(namespaces), keep), ShapeOf(|groups|);
            Shaped(rules, x) && ReadsAs(rules, envs, keep) && TrailingNewline(rules, x)
  {
    var clear := NewlineClear(namespaces);
    ListedNames(namespaces, envs);
    NewlineClearReads(namespaces);
    hide Encodes; hide ValidTable; hide ValidKeep; hide Literal; hide ClearRegex; hide ClearReading; hide ReadsAs;
    hide Shaped;
    hide RulesWith; hide ClearTail;
    RulesWithReadAs(groups, clear, namespaces, envs, keep);
    RulesWithShaped(groups, clear, keep);
    Inside(RulesWith(groups, clear, keep), ShapeOf(|groups|));
  }

  lemma Inside(rules: seq<Rule>, x: Shape)
    requires Shaped(rules, x)
    ensures x.clear < |rules|
  {
  }

  /** With a kube_ name kept, it does not do what the sources ask. */
  lemma NewlineMisses(groups: seq<Group>, namespaces: seq<string>, envs: Table, keep: seq<string>, name: string)
    requires ValidTable(envs) && ValidKeep(keep) && Encodes(groups, envs) && SortedListing(namespaces, envs.Keys)
    requires name in keep && IsKube(name)
    ensures exists l: Labels ::
              && Normal(l) && TmpKube !in l
              && Run(RulesWith(groups, NewlineClear(namespaces), keep), l) != Wanted(envs, keep, l)
  {
    hide *;
    NewlineReadsAs(groups, namespaces, envs, keep);
    MissesOne(RulesWith(groups, NewlineClear(namespaces), keep), ShapeOf(|groups|), envs, keep, name);
  }

  lemma LiteralStamps(groups: seq<Group>, envs: Table)
    requires ValidTable(envs) && Encodes(groups, envs)
    ensures LiteralGroups(groups)
  {
  }

  lemma ListedNames(namespaces: seq<string>, envs: Table)
    requires ValidTable(envs) && SortedListing(namespaces, envs.Keys)
    ensures namespaces != [] && forall n | n in namespaces :: Literal(n)
  {
    hide Literal;
    var ns :| ns in envs;
    assert ns in multiset(envs.Keys);
    forall n | n in namespaces ensures n in envs { assert n in multiset(namespaces); }
  }

  lemma KeepReads(keep: seq<string>)
    requires ValidKeep(keep)
    ensures Sort(Split(Alternation(Sort(keep)), '|')) == Sort(keep)
  {
    SortMembers(keep);
    SortIs(keep);
    assert keep[0] in Sort(keep);
    NoBar(Sort(keep));
    SortIdempotent(Sort(keep));
  }

  /** Compiler correctness for metrics: whatever the table, its order, the keep-list and the series,
      the emitted rules do exactly what the sources ask, and leave no temporary label. */
  lemma MetricRulesCorrect(groups: seq<Group>, namespaces: seq<string>, envs: Table, keep: seq<string>, l: Labels)
    requires ValidTable(envs) && ValidKeep(keep) && Encodes(groups, envs) && SortedListing(namespaces, envs.Keys)
    requires Normal(l) && TmpKube !in l
    ensures Run(Rules(groups, namespaces, keep), l) == Wanted(envs, keep, l)
    ensures Wanted(envs, keep, l).Some? ==> TmpKube !in Wanted(envs, keep, l).value
  {
    hide Run; hide Shaped; hide ReadsAs; hide Rules; hide Encodes; hide SortedListing; hide ValidTable; hide ValidKeep;
    var rules, x := Rules(groups, namespaces, keep), ShapeOf(|groups|);
    RulesShaped(groups, namespaces, keep);
    RulesReadAs(groups, namespaces, envs, keep);
    ValidatorSoundIff(rules, x, envs, keep);
    NoTrailingNewline(groups, namespaces, envs, keep);
  }

  lemma NoTrailingNewline(groups: seq<Group>, namespaces: seq<string>, envs: Table, keep: seq<string>)
    requires ValidTable(envs) && SortedListing(namespaces, envs.Keys)
    ensures !TrailingNewline(Rules(groups, namespaces, keep), ShapeOf(|groups|))
  {
    hide Alternation; hide Sort; hide Literal; hide SortedListing; hide ValidTable;
    StampCount(groups);
    ListedNames(namespaces, envs);
    assert Rules(groups, namespaces, keep)[|groups| + 2] == ClearRule(namespaces);
    var re := ClearRegex(namespaces);
    assert re[|re| - 1] == ')';
  }

  // ----- Loki stages -----------------------------------------------------

  datatype Stage = Match(selector: string, env: string) | LabelKeep(values: seq<Label>)

  const LOG_LABELS := [Environment, Namespace, Plain("cluster"), Plain("job"), Plain("container")]
  const SELECTOR_HEAD := "{namespace=~\""
  const SELECTOR_TAIL := "\"}"
  const EMPTY_ENVIRONMENT := "{environment=\"\"}"

  function Selector(names: seq<string>): string { SELECTOR_HEAD + Alternation(names) + SELECTOR_TAIL }

  /** The two selectors the stages use. */
  predicate Selects(selector: string, l: Labels) {
    if selector == EMPTY_ENVIRONMENT then Get(l, Environment) == ""
    else
      && |selector| >= 15 && selector[..13] == SELECTOR_HEAD && selector[|selector| - 2..] == SELECTOR_TAIL
      && Matches(selector[13..|selector| - 2], Get(l, Namespace))
  }

  function StageStep(st: Stage, l: Labels): Labels {
    match st
    case Match(selector, env) => if Selects(selector, l) then Set(l, Environment, env) else l
    case LabelKeep(values) => OnlyLabels(l, values)
  }

  function OnlyLabels(l: Labels, values: seq<Label>): Labels { map k | k in l && k in values :: l[k] }

  function RunStages(stages: seq<Stage>, l: Labels): Labels {
    if stages == [] then l else StageStep(stages[|stages| - 1], RunStages(stages[..|stages| - 1], l))
  }

  function StampStages(groups: seq<Group>): seq<Stage> {
    if groups == [] then []
    else StampStages(groups[..|groups| - 1]) + [Match(Selector(groups[|groups| - 1].names), groups[|groups| - 1].env)]
  }

  function Stages(groups: seq<Group>): seq<Stage> {
    StampStages(groups) + [Match(EMPTY_ENVIRONMENT, GUARD), LabelKeep(LOG_LABELS)]
  }

  /** log_stages: the stamps, the guard, the allow-list. */
  method LogStages(d: Dict) returns (stages: seq<Stage>)
    ensures stages == Stages(ByEnvironment(d))
  {
    stages := [];
    var groups := ByEnvironment(d);
    for i := 0 to |groups|
      invariant stages == StampStages(groups[..i])
    {
      assert groups[..i + 1][..i] == groups[..i];
      stages := stages + [Match(Selector(groups[i].names), groups[i].env)];
    }
    assert groups[..|groups|] == groups;
    stages := stages + [Match(EMPTY_ENVIRONMENT, GUARD)];
    stages := stages + [LabelKeep(LOG_LABELS)];
  }

  // ----- OTTL statements -------------------------------------------------

  /** A resource's two attributes; nil is None. */
  datatype Resource = Resource(namespace: Option<string>, environment: Option<string>)
  datatype Condition = NamespaceIs(names: seq<string>) | EnvironmentNil
  datatype Statement = SetEnvironment(env: string, cond: Condition)

  predicate Holds(c: Condition, r: Resource) {
    match c
    case NamespaceIs(names) => r.namespace.Some? && r.namespace.value in names
    case EnvironmentNil => r.environment.None?
  }

  function RunStatements(stmts: seq<Statement>, r: Resource): Resource {
    if stmts == [] then r
    else
      var before, s := RunStatements(stmts[..|stmts| - 1], r), stmts[|stmts| - 1];
      if Holds(s.cond, before) then before.(environment := Some(s.env)) else before
  }

  function StampStatements(groups: seq<Group>): seq<Statement> {
    if groups == [] then []
    else StampStatements(groups[..|groups| - 1]) +
         [SetEnvironment(groups[|groups| - 1].env, NamespaceIs(groups[|groups| - 1].names))]
  }

  function Statements(groups: seq<Group>): seq<Statement> {
    StampStatements(groups) + [SetEnvironment(GUARD, EnvironmentNil)]
  }

  /** trace_statements: the stamps, then the guard. */
  method TraceStatements(d: Dict) returns (stmts: seq<Statement>)
    ensures stmts == Statements(ByEnvironment(d))
  {
    stmts := [];
    var groups := ByEnvironment(d);
    for i := 0 to |groups|
      invariant stmts == StampStatements(groups[..i])
    {
      assert groups[..i + 1][..i] == groups[..i];
      stmts := stmts + [SetEnvironment(groups[i].env, NamespaceIs(groups[i].names))];
    }
    assert groups[..|groups|] == groups;
    stmts := stmts + [SetEnvironment(GUARD, EnvironmentNil)];
  }

  // ----- the three agree -------------------------------------------------

  /** What stamps in order leave in the environment: the last that names the namespace. */
  function Stamped(groups: seq<Group>, ns: string, prior: string): string {
    if groups == [] then prior
    else if ns in groups[|groups| - 1].names then groups[|groups| - 1].env
    else Stamped(groups[..|groups| - 1], ns, prior)
  }

  /** Stamps that encode a table stamp its value, in whatever order they run. */
  lemma {:induction false} StampedIs(groups: seq<Group>, envs: Table, ns: string, prior: string)
    requires forall g, n | g in groups && n in g.names :: n in envs && envs[n] == g.env
    ensures Stamped(groups, ns, prior) == if exists g :: g in groups && ns in g.names then envs[ns] else prior
  {
    if groups != [] {
      var before, g := groups[..|groups| - 1], groups[|groups| - 1];
      assert groups == before + [g];
      StampedIs(before, envs, ns, prior);
    }
  }

  lemma SelectorForm(names: seq<string>, l: Labels)
    requires names != [] && forall n | n in names :: Literal(n)
    ensures Selects(Selector(names), l) <==> Get(l, Namespace) in names
  {
    hide Matches; hide Literal;
    var sel := Selector(names);
    assert sel[..13] == SELECTOR_HEAD && sel[|sel| - 2..] == SELECTOR_TAIL && sel[13..|sel| - 2] == Alternation(names);
    assert sel[1] == 'n' && EMPTY_ENVIRONMENT[1] == 'e';
    NoBar(names);
    LiteralAlternation(Alternation(names), Get(l, Namespace));
  }

  lemma {:induction false} StagesStamp(groups: seq<Group>, l: Labels)
    requires LiteralGroups(groups) && Normal(l)
    ensures RunStages(StampStages(groups), l) ==
            Set(l, Environment, Stamped(groups, Get(l, Namespace), Get(l, Environment)))
  {
    hide Selects; hide Selector; hide Literal;
    if groups == [] {
      assert Set(l, Environment, Get(l, Environment)) == l;
    } else {
      var before, g := groups[..|groups| - 1], groups[|groups| - 1];
      StagesStamp(before, l);
      var stages, mid := StampStages(groups), RunStages(StampStages(before), l);
      assert stages[..|stages| - 1] == StampStages(before);
      SelectorForm(g.names, mid);
      SetLemmas(l, Stamped(before, Get(l, Namespace), Get(l, Environment)), g.env);
    }
  }

  lemma SetLemmas(l: Labels, a: string, b: string)
    ensures Get(Set(l, Environment, a), Namespace) == Get(l, Namespace) && Get(Set(l, Environment, a), Environment) == a
    ensures Set(Set(l, Environment, a), Environment, b) == Set(l, Environment, b)
  {
  }

  lemma {:induction false} StatementsStamp(groups: seq<Group>, ns: string, prior: Option<string>)
    requires forall g | g in groups :: "" !in g.names
    ensures var r := Resource(if ns == "" then None else Some(ns), prior);
            RunStatements(StampStatements(groups), r) ==
            r.(environment := if exists g :: g in groups && ns in g.names
                              then Some(Stamped(groups, ns, "")) else prior)
  {
    if groups != [] {
      var before, g := groups[..|groups| - 1], groups[|groups| - 1];
      assert groups == before + [g];
      StatementsStamp(before, ns, prior);
      var stmts := StampStatements(groups);
      assert stmts[..|stmts| - 1] == StampStatements(before);
    }
  }

  lemma EncodedLiterals(groups: seq<Group>, envs: Table)
    requires ValidTable(envs) && Encodes(groups, envs)
    ensures LiteralGroups(groups) && forall g | g in groups :: "" !in g.names
    ensures forall ns :: ns in envs <==> exists g :: g in groups && ns in g.names
  {
  }

  /** Logs: the table's value, else the one it came with, else `unknown`; and no label outside the
      allow-list. */
  lemma LogStagesCorrect(groups: seq<Group>, envs: Table, l: Labels)
    requires ValidTable(envs) && Encodes(groups, envs) && Normal(l)
    ensures var out := RunStages(Stages(groups), l);
            && Get(out, Environment) == EnvironmentOf(envs, Get(l, Namespace), Get(l, Environment))
            && (forall k | k in out :: k in LOG_LABELS)
            && (forall k | k in LOG_LABELS && k != Environment :: Get(out, k) == Get(l, k))
  {
    EncodedLiterals(groups, envs);
    var ns, prior := Get(l, Namespace), Get(l, Environment);
    StagesStamp(groups, l);
    StampedIs(groups, envs, ns, prior);
    hide Encodes; hide LiteralGroups; hide RunStages; hide Stages; hide LOG_LABELS; hide Stamped; hide OnlyLabels;
    StampedValues(envs, ns);
    hide ValidTable;
    var v := Stamped(groups, ns, prior);
    var mid := Set(l, Environment, v);
    LastStages(groups, l);
    SetLemmas(l, v, GUARD);
    SetKeeps(l, v);
    SetKeeps(l, GUARD);
    hide Set; hide Get;
    OnlyLabelsIs(if Get(mid, Environment) == "" then Set(mid, Environment, GUARD) else mid);
  }

  lemma SetKeeps(l: Labels, v: string)
    ensures Get(Set(l, Environment, v), Environment) == v
    ensures forall k | k != Environment :: Get(Set(l, Environment, v), k) == Get(l, k)
  {
  }

  /** The guard and the allow-list, after the stamps. */
  lemma LastStages(groups: seq<Group>, l: Labels)
    ensures var mid := RunStages(StampStages(groups), l);
            RunStages(Stages(groups), l) ==
            OnlyLabels(if Get(mid, Environment) == "" then Set(mid, Environment, GUARD) else mid, LOG_LABELS)
  {
    hide OnlyLabels; hide LOG_LABELS; hide GUARD; hide StampStages;
    var s := StampStages(groups);
    assert Stages(groups)[..|s| + 1] == s + [Match(EMPTY_ENVIRONMENT, GUARD)];
    assert Stages(groups)[..|s| + 1][..|s|] == s;
  }

  lemma OnlyLabelsIs(l: Labels)
    ensures (forall k | k in OnlyLabels(l, LOG_LABELS) :: k in LOG_LABELS) && Environment in LOG_LABELS
    ensures forall k | k in LOG_LABELS :: Get(OnlyLabels(l, LOG_LABELS), k) == Get(l, k)
  {
    assert LOG_LABELS[0] == Environment;
  }

  lemma StampedValues(envs: Table, ns: string)
    requires ValidTable(envs)
    ensures ns in envs ==> envs[ns] != ""
  {
    assert forall v | v in ENV_VALUES :: v != "";
  }

  /** The three back ends agree: a record arriving with no environment gets the same one as a metric
      series, a log record and a trace resource, in whatever order the stamps run. */
  lemma BackEndsAgree(groups: seq<Group>, namespaces: seq<string>, envs: Table, keep: seq<string>, l: Labels)
    requires ValidTable(envs) && ValidKeep(keep) && Encodes(groups, envs) && SortedListing(namespaces, envs.Keys)
    requires Normal(l) && TmpKube !in l && Environment !in l
    ensures var ns := Get(l, Namespace);
            var env := EnvironmentOf(envs, ns, "");
            var kept := Run(Rules(groups, namespaces, keep), l);
            var r := Resource(if ns == "" then None else Some(ns), None);
            && (kept.Some? ==> Get(kept.value, Environment) == env)
            && Get(RunStages(Stages(groups), l), Environment) == env
            && RunStatements(Statements(groups), r).environment == Some(env)
  {
    hide Run; hide RunStages; hide Rules; hide Stages;
    var ns := Get(l, Namespace);
    MetricRulesCorrect(groups, namespaces, envs, keep, l);
    LogStagesCorrect(groups, envs, l);
    EncodedLiterals(groups, envs);
    StatementsStamp(groups, ns, None);
    StampedIs(groups, envs, ns, "");
    hide Encodes; hide ValidTable; hide SortedListing;
    var s := StampStatements(groups);
    assert Statements(groups)[..|s|] == s;
    SetGets(l, EnvironmentOf(envs, ns, ""));
  }

  /** Traces: the table's value, else the one it came with, else `unknown`. */
  lemma TraceStatementsCorrect(groups: seq<Group>, envs: Table, ns: string, prior: Option<string>)
    requires ValidTable(envs) && Encodes(groups, envs)
    ensures RunStatements(Statements(groups), Resource(if ns == "" then None else Some(ns), prior)).environment ==
            Some(if ns in envs then envs[ns] else if prior.Some? then prior.value else GUARD)
  {
    EncodedLiterals(groups, envs);
    StatementsStamp(groups, ns, prior);
    StampedIs(groups, envs, ns, "");
    hide Encodes; hide ValidTable;
    var s := StampStatements(groups);
    assert Statements(groups)[..|s|] == s;
  }

  lemma TableValues(envs: Table)
    requires ValidTable(envs)
    ensures forall n | n in envs :: envs[n] in ENV_VALUES
  {
  }

  // ----- from the table itself -------------------------------------------

  /** environments.yaml through each compiler: the metric rules, the log stages and the trace statements made
      of it do what it says, and agree. */
  lemma TableStamps(d: Dict, keep: seq<string>, l: Labels)
    requires DistinctKeys(d) && ValidTable(TableOf(d)) && ValidKeep(keep) && Normal(l) && TmpKube !in l
    ensures var envs, groups := TableOf(d), ByEnvironment(d);
            var ns, prior := Get(l, Namespace), Get(l, Environment);
            var r := Resource(if ns == "" then None else Some(ns), if prior == "" then None else Some(prior));
            && Run(Rules(groups, Sort(KeysOf(d)), keep), l) == Wanted(envs, keep, l)
            && Get(RunStages(Stages(groups), l), Environment) == EnvironmentOf(envs, ns, prior)
            && (forall k | k in RunStages(Stages(groups), l) :: k in LOG_LABELS)
            && RunStatements(Statements(groups), r).environment == Some(EnvironmentOf(envs, ns, prior))
  {
    hide Run; hide RunStages; hide Rules; hide Stages; hide ByEnvironment; hide TableOf; hide KeysOf; hide Sort;
    hide Encodes;
    hide ValidTable; hide ValidKeep; hide SortedListing; hide RunStatements; hide Statements; hide LOG_LABELS;
    hide Wanted;
    var envs, groups := TableOf(d), ByEnvironment(d);
    var ns, prior := Get(l, Namespace), Get(l, Environment);
    TableValues(envs);
    ByEnvironmentEncodes(d);
    KeysListed(d);
    MetricRulesCorrect(groups, Sort(KeysOf(d)), envs, keep, l);
    LogStagesCorrect(groups, envs, l);
    TraceStatementsCorrect(groups, envs, ns, if prior == "" then None else Some(prior));
  }

  lemma SetGets(l: Labels, env: string)
    ensures Get(Set(l, Environment, env), Environment) == env
  {
  }
}
