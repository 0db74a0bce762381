/** Prometheus relabelling, on the part of it the collectors' rules use (scripts/collectors.py), and
    what those rules must do to a series. */
module Relabel {
  import opened Options
  import opened Strings

  /** The four labels the rules name, and any other. */
  datatype Label = Name | Namespace | Environment | TmpKube | Plain(text: string)

  datatype Action = Replace | Drop | Keep | Unmodelled(text: string)

  const GUARD := "unknown"
  const ENV_VALUES := ["local", "dev", "staging", "prod"]

  // ----- series ----------------------------------------------------------

  /** A series' labels; a label with an empty value is a label it does not have. */
  type Labels = map<Label, string>

  predicate Normal(l: Labels) { forall k | k in l :: l[k] != "" }

  function Get(l: Labels, k: Label): string { if k in l then l[k] else "" }

  function Set(l: Labels, k: Label, v: string): Labels { if v == "" then l - {k} else l[k := v] }

  // ----- regexes ---------------------------------------------------------

  predicate IsKube(name: string) { |name| > 5 && name[..5] == "kube_" }

  predicate LiteralChar(c: char) {
    'a' <= c <= 'z' || 'A' <= c <= 'Z' || '0' <= c <= '9' || c == '_' || c == ':' || c == '-'
  }

  /** A name no regex metacharacter is part of. */
  predicate Literal(s: string) { s != "" && forall c | c in s :: LiteralChar(c) }

  /** `kube_.+`: the prefix and something after it. */
  lemma KubeIff(name: string)
    ensures IsKube(name) <==> exists rest: string :: rest != "" && name == "kube_" + rest
  {
    if IsKube(name) { assert name == "kube_" + name[5..] && name[5..] != ""; }
    if rest: string :| rest != "" && name == "kube_" + rest { assert name[..5] == "kube_"; }
  }

  /** ASCII letters and digits, the underscore, the colon and the hyphen. */
  lemma LiteralCharIff(c: char)
    ensures var n := c as int;
            LiteralChar(c) <==> 65 <= n <= 90 || 97 <= n <= 122 || 48 <= n <= 58 || n == 95 || n == 45
  {
  }

  function LastIndexOf(s: string, c: char): (i: nat)
    ensures i <= |s| && (i < |s| ==> s[i] == c) && (i == |s| ==> c !in s)
    ensures forall j | i < j < |s| :: s[j] != c
  {
    if s == "" then 0
    else if s[|s| - 1] == c then |s| - 1
    else
      var i := LastIndexOf(s[..|s| - 1], c);
      if i == |s| - 1 then |s| else i
  }

  const CLEAR_HEAD := "drop;("

  /** An anchored match, for the three forms a rule has: `kube_.+`, `drop;(a|b)` with literal text
      after it, and an alternation of literals. */
  predicate Matches(re: string, s: string) {
    if re == "kube_.+" then IsKube(s)
    else if |re| >= 6 && re[..6] == CLEAR_HEAD && LastIndexOf(re, ')') < |re| && LastIndexOf(re, ')') >= 6 then
      var j := LastIndexOf(re, ')');
      exists x :: x in Split(re[6..j], '|') && s == "drop;" + x + re[j + 1..]
    else s in Split(re, '|')
  }

  lemma LiteralAlternation(re: string, s: string)
    requires forall n | n in Split(re, '|') :: Literal(n) || n == ""
    ensures Matches(re, s) <==> s in Split(re, '|')
  {
    assert re == "kube_.+" ==> re[5] in re;
    assert |re| >= 6 && re[..6] == CLEAR_HEAD ==> re[..6][5] == '(' && re[5] in re;
    if '(' in re { SplitCovers(re, '|', '('); }
    if '.' in re { SplitCovers(re, '|', '.'); }
  }

  // ----- rules -----------------------------------------------------------

  /** A rule as the validator reads it back; an attribute the block does not set is None. */
  datatype Rule = Rule(src: seq<Label>, regex: Option<string>, target: Option<Label>, repl: Option<string>,
                       action: Action, sep: Option<string>)

  function OrEmpty(o: Option<string>): string { if o.Some? then o.value else "" }

  function Concat(l: Labels, src: seq<Label>, sep: string): string {
    if src == [] then "" else if |src| == 1 then Get(l, src[0]) else Get(l, src[0]) + sep + Concat(l, src[1..], sep)
  }

  /** One rule on a series: None when the series is dropped. */
  function Step(r: Rule, l: Labels): Option<Labels> {
    var v := Concat(l, r.src, if r.sep.Some? then r.sep.value else ";");
    var hit := r.regex.None? || Matches(r.regex.value, v);
    match r.action
    case Replace => if hit && r.target.Some? then Some(Set(l, r.target.value, OrEmpty(r.repl))) else Some(l)
    case Drop => if hit then None else Some(l)
    case Keep => if hit then Some(l) else None
    case Unmodelled(_) => Some(l)
  }

  /** A drop or keep on two labels looks at both, the separator between them: `;` where the rule sets none. */
  lemma TwoLabels(r: Rule, l: Labels, a: Label, b: Label)
    requires r.src == [a, b] && r.regex.Some? && (r.action == Drop || r.action == Keep)
    ensures var sep := if r.sep == None then ";" else r.sep.value;
            var hit := Matches(r.regex.value, Get(l, a) + sep + Get(l, b));
            Step(r, l) == if hit == (r.action == Keep) then Some(l) else None
  {
    hide Matches;
    var sep := if r.sep == None then ";" else r.sep.value;
    assert r.src[1..] == [b];
    assert Concat(l, r.src, sep) == Get(l, a) + sep + Concat(l, [b], sep);
    assert Concat(l, [b], sep) == Get(l, b);
  }

  /** Rules in order, from the last back. */
  function Run(rules: seq<Rule>, l: Labels): Option<Labels> {
    if rules == [] then Some(l)
    else
      var before := Run(rules[..|rules| - 1], l);
      if before.None? then None else Step(rules[|rules| - 1], before.value)
  }

  // ----- what the rules must do ------------------------------------------

  type Table = map<string, string>

  predicate ValidTable(envs: Table) {
    envs != map[] && forall ns | ns in envs :: Literal(ns) && envs[ns] in ENV_VALUES
  }

  predicate ValidKeep(keep: seq<string>) { keep != [] && forall n | n in keep :: Literal(n) }

  function EnvironmentOf(envs: Table, ns: string, prior: string): string {
    if ns in envs then envs[ns] else if prior != "" then prior else GUARD
  }

  predicate Survives(envs: Table, keep: seq<string>, name: string, ns: string) {
    name in keep && (IsKube(name) ==> ns in envs)
  }

  /** The series as it must reach the stack: dropped unless its name is kept and, for a kube_ name,
      its namespace is mapped; stamped with its environment; everything else as it came. */
  function Wanted(envs: Table, keep: seq<string>, l: Labels): Option<Labels> {
    var name, ns := Get(l, Name), Get(l, Namespace);
    if Survives(envs, keep, name, ns)
    then Some(Set(l, Environment, EnvironmentOf(envs, ns, Get(l, Environment))))
    else None
  }
}
