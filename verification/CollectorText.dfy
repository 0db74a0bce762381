/** The relabel rules as text and back (scripts/collectors.py metric_rules, scripts/collectors_check.py
    metric_rules and expected), and the whole path from the sources to what a series meets. */
module CollectorText {
  import opened Options
  import opened Strings
  import R = Relabel
  import opened AlloyText
  import opened AlloyRoundTrip
  import C = StampCompiler
  import V = MetricValidator

  // ----- labels and actions ----------------------------------------------

  function LabelText(l: R.Label): string {
    match l
    case Name => "__name__"
    case Namespace => "namespace"
    case Environment => "environment"
    case TmpKube => "__tmp_kube_namespace"
    case Plain(t) => t
  }

  function LabelFrom(s: string): R.Label {
    if s == "__name__" then R.Name
    else if s == "namespace" then R.Namespace
    else if s == "environment" then R.Environment
    else if s == "__tmp_kube_namespace" then R.TmpKube
    else R.Plain(s)
  }

  /** One label, one spelling. */
  predicate Canonical(l: R.Label) { LabelFrom(LabelText(l)) == l }

  lemma NamedLabels()
    ensures Canonical(R.Name) && Canonical(R.Namespace) && Canonical(R.Environment) && Canonical(R.TmpKube)
    ensures Clean(LabelText(R.Name)) && Clean(LabelText(R.Namespace)) && Clean(LabelText(R.Environment))
    ensures Clean(LabelText(R.TmpKube))
  {
  }

  function ActionText(a: R.Action): string {
    match a case Replace => "replace" case Drop => "drop" case Keep => "keep" case Unmodelled(t) => t
  }

  function ActionFrom(s: string): R.Action {
    if s == "replace" then R.Replace
    else if s == "drop" then R.Drop
    else if s == "keep" then R.Keep
    else R.Unmodelled(s)
  }

  // ----- a rule's attributes ---------------------------------------------

  const SOURCE := "source_labels"
  const SEPARATOR := "separator"
  const REGEX := "regex"
  const TARGET := "target_label"
  const REPLACEMENT := "replacement"
  const ACTION := "action"

  function Optional(key: string, v: Option<string>): seq<Field> {
    if v.Some? then [Field(key, Text(v.value))] else []
  }

  function Texts_(src: seq<R.Label>): seq<string> { if src == [] then [] else [LabelText(src[0])] + Texts_(src[1..]) }

  function Labels_(items: seq<string>): seq<R.Label> {
    if items == [] then [] else [LabelFrom(items[0])] + Labels_(items[1..])
  }

  /** The attributes of a rule's block, in the order they are printed. */
  function FieldsOf(r: R.Rule): seq<Field> {
    [Field(SOURCE, Texts(Texts_(r.src)))] + Optional(SEPARATOR, r.sep) + Optional(REGEX, r.regex)
    + Optional(TARGET, if r.target.Some? then Some(LabelText(r.target.value)) else None)
    + Optional(REPLACEMENT, r.repl)
    + Optional(ACTION, if r.action == R.Replace then None else Some(ActionText(r.action)))
  }

  function FieldsOfAll(rules: seq<R.Rule>): seq<seq<Field>> {
    if rules == [] then [] else [FieldsOf(rules[0])] + FieldsOfAll(rules[1..])
  }

  function AsText(v: Option<Value>): Option<string> {
    if v.Some? && v.value.Text? then Some(v.value.s) else None
  }

  /** A rule from a block's body: each attribute looked for by name, the action defaulting to replace. */
  function RuleFrom(get: string -> Option<Value>): R.Rule {
    var src := get(SOURCE);
    var target, action := AsText(get(TARGET)), AsText(get(ACTION));
    R.Rule(if src.Some? && src.value.Texts? then Labels_(src.value.items) else [],
           AsText(get(REGEX)),
           if target.Some? then Some(LabelFrom(target.value)) else None,
           AsText(get(REPLACEMENT)),
           if action.Some? then ActionFrom(action.value) else R.Replace,
           AsText(get(SEPARATOR)))
  }

  function RulesFrom(bodies: seq<string>): seq<R.Rule> {
    if bodies == [] then []
    else [RuleFrom(key => Attr(true, bodies[0], key))] + RulesFrom(bodies[1..])
  }

  /** metric_rules of a configuration. */
  function ReadRules(cfg: string): Option<seq<R.Rule>> {
    var bodies := RuleBodies(cfg);
    if bodies.None? then None else Some(RulesFrom(bodies.value))
  }

  /** The text collectors.py renders for a list of rules. */
  function RulesText(rules: seq<R.Rule>): string { Blocks(RULE, FieldsOfAll(rules)) }

  // ----- round trip ------------------------------------------------------

  ghost predicate Printable(r: R.Rule) {
    && (forall l | l in r.src :: Canonical(l) && Clean(LabelText(l)))
    && (r.target.Some? ==> Canonical(r.target.value) && Clean(LabelText(r.target.value)))
    && (r.regex.Some? ==> Clean(r.regex.value)) && (r.repl.Some? ==> Clean(r.repl.value))
    && (r.sep.Some? ==> Clean(r.sep.value))
    && !r.action.Unmodelled?
  }

  lemma {:induction false} LabelsBack(src: seq<R.Label>)
    requires forall l | l in src :: Canonical(l) && Clean(LabelText(l))
    ensures Labels_(Texts_(src)) == src && forall s | s in Texts_(src) :: Clean(s)
  {
    hide LabelText; hide LabelFrom;
    if src != [] {
      LabelsBack(src[1..]);
      assert src == [src[0]] + src[1..];
    }
  }

  lemma KeyWords()
    ensures Word(SOURCE) && Word(SEPARATOR) && Word(REGEX) && Word(TARGET) && Word(REPLACEMENT) && Word(ACTION)
    ensures SOURCE != SEPARATOR && SOURCE != REGEX && SOURCE != TARGET && SOURCE != REPLACEMENT && SOURCE != ACTION
    ensures SEPARATOR != REGEX && SEPARATOR != TARGET && SEPARATOR != REPLACEMENT && SEPARATOR != ACTION
    ensures REGEX != TARGET && REGEX != REPLACEMENT && REGEX != ACTION
    ensures TARGET != REPLACEMENT && TARGET != ACTION && REPLACEMENT != ACTION
  {
    assert SOURCE[0] == 's' && SEPARATOR[0] == 's' && REGEX[0] == 'r';
    assert TARGET[0] == 't' && REPLACEMENT[0] == 'r' && ACTION[0] == 'a';
    assert SOURCE[1] != SEPARATOR[1] && REGEX[2] != REPLACEMENT[2];
  }

  lemma {:induction false} LookupConcat(a: seq<Field>, b: seq<Field>, key: string)
    ensures Lookup(a + b, key) == if Lookup(a, key).Some? then Lookup(a, key) else Lookup(b, key)
  {
    if a == [] {
      assert a + b == b;
    } else {
      assert (a + b)[0] == a[0] && (a + b)[1..] == a[1..] + b;
      LookupConcat(a[1..], b, key);
    }
  }

  /** Each attribute of a printed rule is found under its own key. */
  lemma LookupFields(r: R.Rule, key: string)
    ensures Lookup(FieldsOf(r), key) ==
            if key == SOURCE then Some(Texts(Texts_(r.src)))
            else if key == SEPARATOR then Given(r.sep)
            else if key == REGEX then Given(r.regex)
            else if key == TARGET then Given(if r.target.Some? then Some(LabelText(r.target.value)) else None)
            else if key == REPLACEMENT then Given(r.repl)
            else if key == ACTION then Given(if r.action == R.Replace then None else Some(ActionText(r.action)))
            else None
  {
    KeyWords();
    hide LabelText; hide ActionText;
    var a := [Field(SOURCE, Texts(Texts_(r.src)))];
    var b, c := Optional(SEPARATOR, r.sep), Optional(REGEX, r.regex);
    var d := Optional(TARGET, if r.target.Some? then Some(LabelText(r.target.value)) else None);
    var e := Optional(REPLACEMENT, r.repl);
    var f := Optional(ACTION, if r.action == R.Replace then None else Some(ActionText(r.action)));
    LookupConcat(a, b, key);
    LookupConcat(a + b, c, key);
    LookupConcat(a + b + c, d, key);
    LookupConcat(a + b + c + d, e, key);
    LookupConcat(a + b + c + d + e, f, key);
  }

  function Given(v: Option<string>): Option<Value> { if v.Some? then Some(Text(v.value)) else None }

  lemma RuleBack(r: R.Rule, get: string -> Option<Value>)
    requires Printable(r) && forall key | Word(key) :: get(key) == Lookup(FieldsOf(r), key)
    ensures RuleFrom(get) == r
  {
    KeyWords();
    LabelsBack(r.src);
    LookupFields(r, SOURCE);
    LookupFields(r, SEPARATOR);
    LookupFields(r, REGEX);
    LookupFields(r, TARGET);
    LookupFields(r, REPLACEMENT);
    LookupFields(r, ACTION);
    hide Lookup; hide FieldsOf; hide LabelText; hide LabelFrom; hide Word; hide Labels_; hide Texts_;
    ActionBack(r.action);
  }

  lemma ActionBack(a: R.Action)
    requires !a.Unmodelled?
    ensures ActionFrom(ActionText(a)) == a && Clean(ActionText(a))
  {
  }

  lemma FieldsGood(r: R.Rule)
    requires Printable(r)
    ensures GoodFields(FieldsOf(r))
  {
    KeyWords();
    LabelsBack(r.src);
    ActionBack(r.action);
    hide Word; hide Clean; hide LabelText; hide ActionText;
  }

  lemma {:induction false} AllGood(rules: seq<R.Rule>)
    requires forall r | r in rules :: Printable(r)
    ensures GoodBlocks(FieldsOfAll(rules)) && |FieldsOfAll(rules)| == |rules|
    ensures forall i | 0 <= i < |rules| :: FieldsOfAll(rules)[i] == FieldsOf(rules[i])
  {
    hide FieldsOf; hide Printable; hide GoodFields;
    if rules != [] {
      FieldsGood(rules[0]);
      AllGood(rules[1..]);
    }
  }

  lemma {:induction false} RulesBack(rules: seq<R.Rule>, bodies: seq<string>)
    requires |rules| == |bodies| && forall r | r in rules :: Printable(r)
    requires forall i, key | 0 <= i < |rules| && Word(key) ::
               Attr(true, bodies[i], key) == Lookup(FieldsOf(rules[i]), key)
    ensures RulesFrom(bodies) == rules
  {
    hide FieldsOf; hide Printable; hide Attr; hide Lookup; hide Word; hide RuleFrom;
    if rules != [] {
      var get := key => Attr(true, bodies[0], key);
      RuleBack(rules[0], get);
      forall i, key | 0 <= i < |rules[1..]| && Word(key)
        ensures Attr(true, bodies[1..][i], key) == Lookup(FieldsOf(rules[1..][i]), key)
      {
        assert bodies[1..][i] == bodies[i + 1] && rules[1..][i] == rules[i + 1];
      }
      RulesBack(rules[1..], bodies[1..]);
      assert rules == [rules[0]] + rules[1..];
    }
  }

  /** What is rendered and wrapped as a destination is read back as the same rules, in order. */
  lemma RulesRoundTrip(rules: seq<R.Rule>)
    requires forall r | r in rules :: Printable(r)
    ensures ReadRules(Wrap(RulesText(rules))) == Some(rules)
  {
    hide RuleBodies; hide Wrap; hide Blocks; hide FieldsOf; hide Printable; hide Attr; hide Lookup; hide Word;
    hide GoodBlocks; hide Inners;
    AllGood(rules);
    var all := FieldsOfAll(rules);
    TextRoundTrip(all);
    forall i, key | 0 <= i < |rules| && Word(key)
      ensures Attr(true, Inners(all)[i], key) == Lookup(FieldsOf(rules[i]), key)
    {
    }
    RulesBack(rules, Inners(all));
  }

  // ----- end to end ------------------------------------------------------

  lemma LiteralClean(s: string)
    requires R.Literal(s)
    ensures Clean(s)
  {
    forall i | 0 <= i < |s| ensures s[i] >= ' ' { assert s[i] in s; }
  }

  lemma CleanConcat(a: string, b: string)
    requires Clean(a) && Clean(b)
    ensures Clean(a + b)
  {
  }

  lemma {:induction false} JoinClean(names: seq<string>, c: char)
    requires c >= ' ' && forall n | n in names :: Clean(n)
    ensures Clean(Join(names, c))
  {
    if |names| > 1 {
      JoinClean(names[1..], c);
      CleanConcat(names[0], [c]);
      CleanConcat(names[0] + [c], Join(names[1..], c));
    }
  }

  lemma AlternationClean(names: seq<string>)
    requires forall n | n in names :: R.Literal(n)
    ensures Clean(C.Alternation(names))
  {
    forall n | n in names ensures Clean(n) { LiteralClean(n); }
    JoinClean(names, '|');
  }

  lemma StampPrintable(g: C.Group)
    requires (forall n | n in g.names :: R.Literal(n)) && g.env in R.ENV_VALUES
    ensures Printable(C.StampRule(g))
  {
    NamedLabels();
    AlternationClean(g.names);
    EnvClean(g.env);
    hide LabelText; hide LabelFrom; hide Clean; hide R.Literal; hide R.ENV_VALUES;
  }

  /** The rules after the stamps. */
  lemma TailPrintable(namespaces: seq<string>, keep: seq<string>)
    requires (forall n | n in namespaces :: R.Literal(n)) && R.ValidKeep(keep)
    ensures forall r | r in C.Tail(namespaces, keep) :: Printable(r)
  {
    NamedLabels();
    AlternationClean(namespaces);
    SortMembers(keep);
    AlternationClean(Sort(keep));
    ConstantsClean(C.Alternation(namespaces));
    hide LabelText; hide LabelFrom; hide Clean; hide R.Literal; hide Less; hide C.Alternation; hide Sort;
  }

  lemma CompiledPrintable(groups: seq<C.Group>, namespaces: seq<string>, envs: R.Table, keep: seq<string>)
    requires R.ValidTable(envs) && R.ValidKeep(keep) && C.Encodes(groups, envs)
    requires V.SortedListing(namespaces, envs.Keys)
    ensures forall r | r in C.Rules(groups, namespaces, keep) :: Printable(r)
  {
    hide Printable; hide R.Literal; hide C.Tail; hide C.StampRule; hide V.SortedListing; hide R.ENV_VALUES;
    hide R.ValidKeep; hide C.StampRules;
    C.StampCount(groups);
    C.ListedNames(namespaces, envs);
    C.EncodedLiterals(groups, envs);
    forall i | 0 <= i < |groups| ensures Printable(C.StampRule(groups[i])) {
      assert groups[i] in groups;
      assert groups[i].names[0] in groups[i].names;
      StampPrintable(groups[i]);
    }
    TailPrintable(namespaces, keep);
  }

  lemma EnvClean(v: string)
    requires v in R.ENV_VALUES
    ensures Clean(v)
  {
    LiteralValues();
    LiteralClean(v);
  }

  lemma LiteralValues()
    ensures forall v | v in R.ENV_VALUES :: R.Literal(v)
  {
    assert R.Literal("local") && R.Literal("dev") && R.Literal("staging") && R.Literal("prod");
  }

  lemma ConstantsClean(names: string)
    requires Clean(names)
    ensures Clean(R.CLEAR_HEAD + names + ")") && Clean("kube_.+") && Clean("drop") && Clean("") && Clean(R.GUARD)
    ensures Clean(";")
  {
  }

  /** From the sources to the series: the text rendered from a table and a keep-list, read back out of a
      destination, is a list of rules that does to every series what the sources ask. */
  lemma SourcesToSeries(groups: seq<C.Group>, namespaces: seq<string>, envs: R.Table, keep: seq<string>, l: R.Labels)
    requires R.ValidTable(envs) && R.ValidKeep(keep) && C.Encodes(groups, envs)
    requires V.SortedListing(namespaces, envs.Keys)
    requires R.Normal(l) && R.TmpKube !in l
    ensures var read := ReadRules(Wrap(RulesText(C.Rules(groups, namespaces, keep))));
            read.Some? && R.Run(read.value, l) == R.Wanted(envs, keep, l)
  {
    hide *;
    CompiledPrintable(groups, namespaces, envs, keep);
    RulesRoundTrip(C.Rules(groups, namespaces, keep));
    C.MetricRulesCorrect(groups, namespaces, envs, keep, l);
  }

  /** metric_rules itself: the text rendered from environments.yaml and the keep-list, read back out of a
      destination, does to every series what they ask. */
  lemma TableToSeries(d: C.Dict, keep: seq<string>, l: R.Labels)
    requires C.DistinctKeys(d) && R.ValidTable(C.TableOf(d)) && R.ValidKeep(keep) && R.Normal(l) && R.TmpKube !in l
    ensures var read := ReadRules(Wrap(RulesText(C.Rules(C.ByEnvironment(d), Sort(C.KeysOf(d)), keep))));
            read.Some? && R.Run(read.value, l) == R.Wanted(C.TableOf(d), keep, l)
  {
    hide *;
    C.TableValues(C.TableOf(d));
    C.ByEnvironmentEncodes(d);
    C.KeysListed(d);
    SourcesToSeries(C.ByEnvironment(d), Sort(C.KeysOf(d)), C.TableOf(d), keep, l);
  }
}
