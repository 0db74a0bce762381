/** What metric_table lets through (scripts/collectors_check.py): it has no branch for a rule it does not know,
    and of two rules of one kind it remembers the last. For every table and keep-list, a list with a rule no
    branch reads, or with a second guard, mark, clear, drop or keep, reads back as the sources and does
    otherwise. Nothing here is emitted by the compiler. */
module ValidatorGaps {
  import opened Options
  import opened Strings
  import opened Relabel
  import opened MetricValidator
  import opened StampCompiler

  /** The sources, as the compiler takes them. */
  ghost predicate Sources(groups: seq<Group>, namespaces: seq<string>, envs: Table, keep: seq<string>) {
    ValidTable(envs) && ValidKeep(keep) && Encodes(groups, envs) && SortedListing(namespaces, envs.Keys)
  }

  // ----- reading ---------------------------------------------------------

  /** What one rule does to a reading that has not failed. */
  lemma ReadsRule(st: Reading, namespaces: seq<string>, keep: seq<string>)
    requires !st.failed
    ensures ReadRule(st, GUARD_RULE) == st.(guarded := true)
    ensures ReadRule(st, KUBE_MARK) == st.(mark := true)
    ensures ReadRule(st, ClearRule(namespaces)) == st.(clear := Some(ClearReading(ClearRule(namespaces), st.mark)))
    ensures ReadRule(st, KUBE_DROP) == st.(drop := st.clear.Some?)
    ensures ReadRule(st, KeepRule(keep)) == st.(keep := Some(Sort(Split(Alternation(Sort(keep)), '|'))))
  {
    hide Alternation; hide Sort; hide Split; hide ClearReading; hide ClearRegex;
  }

  /** The stamps read as the table, and nothing else. */
  lemma StampsRead(groups: seq<Group>, namespaces: seq<string>, envs: Table, keep: seq<string>)
    requires Sources(groups, namespaces, envs, keep)
    ensures Read(StampRules(groups)) == BLANK.(table := map n | n in envs :: Some(envs[n]))
    ensures namespaces != [] && ClearReading(ClearRule(namespaces), true) == namespaces
    ensures Sort(Split(Alternation(Sort(keep)), '|')) == Sort(keep)
  {
    LiteralStamps(groups, envs);
    ListedNames(namespaces, envs);
    hide Read; hide Encodes; hide Literal; hide ValidTable; hide LiteralGroups; hide StampRules; hide GroupTable;
    hide ClearReading; hide Alternation; hide Sort; hide Split;
    ReadStamps(groups);
    EncodesReads(groups, envs);
    ClearReads(namespaces);
    KeepReads(keep);
  }

  /** A reading that answers with the sources. */
  lemma Answers(rules: seq<Rule>, st: Reading, namespaces: seq<string>, envs: Table, keep: seq<string>)
    requires Read(rules) == st && SortedListing(namespaces, envs.Keys)
    requires st.table == map n | n in envs :: Some(envs[n])
    requires st == Reading(st.table, true, true, Some(namespaces), true, Some(Sort(keep)), false)
    ensures ReadsAs(rules, envs, keep)
  {
    hide Read; hide SortedListing; hide Sort;
  }

  /** The list with a rule put in after the stamps, after the mark, or after the clear. */
  function WithExtra(groups: seq<Group>, namespaces: seq<string>, keep: seq<string>,
                     first: seq<Rule>, second: seq<Rule>, third: seq<Rule>): seq<Rule>
  {
    StampRules(groups) + first + [GUARD_RULE] + [KUBE_MARK] + second + [ClearRule(namespaces)] + third + [KUBE_DROP]
    + [KeepRule(keep)]
  }

  /** At most one rule. */
  ghost predicate One(s: seq<Rule>) { |s| <= 1 }

  /** Reading a rule more, if there is one. */
  lemma ReadOne(rules: seq<Rule>, s: seq<Rule>)
    requires One(s)
    ensures Read(rules + s) == if s == [] then Read(rules) else ReadRule(Read(rules), s[0])
  {
    hide Read; hide ReadRule;
    if s == [] {
      assert rules + s == rules;
    } else {
      assert s == [s[0]];
      ReadMore(rules, s[0]);
    }
  }

  /** What a rule that is no stamp may change of a reading. */
  lemma ExtraReads(st: Reading, r: Rule)
    requires !st.failed && KindOf(r) != Stamp
    ensures var t := ReadRule(st, r);
            && !t.failed && t.table == st.table
            && (KindOf(r) == KubeClear || KindOf(r) == KubeDrop || KindOf(r) == Other ==>
                  t == st.(clear := t.clear, drop := t.drop))
            && (KindOf(r) == KubeMark || KindOf(r) == Other ==> st.mark ==> t == st)
  {
    hide Sort; hide Split; hide ClearReading; hide GuardWorks;
  }

  /** Up to the mark. */
  lemma ReadsToMark(a: seq<Rule>, first: seq<Rule>)
    requires One(first) && !Read(a).failed && forall r | r in first :: KindOf(r) != Stamp
    ensures var t := Read(a + first + [GUARD_RULE] + [KUBE_MARK]);
            !t.failed && t.guarded && t.mark && t.table == Read(a).table
  {
    hide Read; hide ReadRule; hide KindOf; hide GUARD_RULE; hide KUBE_MARK;
    ReadOne(a, first);
    if first != [] {
      assert first[0] in first;
      ExtraReads(Read(a), first[0]);
    }
    var s := a + first;
    ReadMore(s, GUARD_RULE);
    ReadsRule(Read(s), [], []);
    ReadMore(s + [GUARD_RULE], KUBE_MARK);
    ReadsRule(Read(s + [GUARD_RULE]), [], []);
  }

  /** Up to the clear. */
  lemma ReadsToClear(b: seq<Rule>, second: seq<Rule>, namespaces: seq<string>)
    requires One(second) && !Read(b).failed && Read(b).mark
    requires forall r | r in second :: KindOf(r) == KubeClear || KindOf(r) == KubeDrop || KindOf(r) == Other
    requires ClearReading(ClearRule(namespaces), true) == namespaces
    ensures var t := Read(b + second + [ClearRule(namespaces)]);
            t == Read(b).(clear := Some(namespaces), drop := t.drop)
  {
    hide Read; hide ReadRule; hide KindOf; hide ClearRule; hide ClearReading;
    ReadOne(b, second);
    if second != [] {
      assert second[0] in second;
      ExtraReads(Read(b), second[0]);
    }
    ReadMore(b + second, ClearRule(namespaces));
    ReadsRule(Read(b + second), namespaces, []);
  }

  /** To the end. */
  lemma ReadsToKeep(c: seq<Rule>, third: seq<Rule>, keep: seq<string>)
    requires One(third) && !Read(c).failed && Read(c).mark && Read(c).clear.Some?
    requires forall r | r in third :: KindOf(r) == KubeMark || KindOf(r) == Other
    requires Sort(Split(Alternation(Sort(keep)), '|')) == Sort(keep)
    ensures Read(c + third + [KUBE_DROP] + [KeepRule(keep)]) == Read(c).(drop := true, keep := Some(Sort(keep)))
  {
    hide Read; hide ReadRule; hide KindOf; hide KUBE_DROP; hide KeepRule; hide Sort; hide Split; hide Alternation;
    ReadOne(c, third);
    if third != [] {
      assert third[0] in third;
      ExtraReads(Read(c), third[0]);
    }
    ReadMore(c + third, KUBE_DROP);
    ReadsRule(Read(c + third), [], keep);
    ReadMore(c + third + [KUBE_DROP], KeepRule(keep));
    ReadsRule(Read(c + third + [KUBE_DROP]), [], keep);
  }

  /** A rule that leaves the table alone may go in any of the three places: one no branch reads, another mark,
      clear, drop or keep, or, before the guard, another guard. */
  lemma ExtraReadsAs(groups: seq<Group>, namespaces: seq<string>, envs: Table, keep: seq<string>,
                     first: seq<Rule>, second: seq<Rule>, third: seq<Rule>)
    requires Sources(groups, namespaces, envs, keep) && One(first) && One(second) && One(third)
    requires forall r | r in first :: KindOf(r) != Stamp
    requires forall r | r in second :: KindOf(r) == KubeClear || KindOf(r) == KubeDrop || KindOf(r) == Other
    requires forall r | r in third :: KindOf(r) == KubeMark || KindOf(r) == Other
    ensures ReadsAs(WithExtra(groups, namespaces, keep, first, second, third), envs, keep)
  {
    StampsRead(groups, namespaces, envs, keep);
    SourcesList(groups, namespaces, envs, keep);
    hide Read; hide Sources; hide StampRules; hide ClearReading; hide Sort; hide Split; hide Alternation; hide ReadsAs;
    hide ClearRule; hide KeepRule; hide KUBE_MARK; hide KUBE_DROP; hide GUARD_RULE; hide KindOf; hide SortedListing;
    var a := StampRules(groups);
    ReadsToMark(a, first);
    var b := a + first + [GUARD_RULE] + [KUBE_MARK];
    ReadsToClear(b, second, namespaces);
    var c := b + second + [ClearRule(namespaces)];
    ReadsToKeep(c, third, keep);
    var all := WithExtra(groups, namespaces, keep, first, second, third);
    assert all == c + third + [KUBE_DROP] + [KeepRule(keep)];
    Answers(all, Read(all), namespaces, envs, keep);
  }

  lemma SourcesList(groups: seq<Group>, namespaces: seq<string>, envs: Table, keep: seq<string>)
    requires Sources(groups, namespaces, envs, keep)
    ensures SortedListing(namespaces, envs.Keys)
  {
  }

  // ----- running ---------------------------------------------------------

  lemma RunMore(rules: seq<Rule>, r: Rule, l: Labels)
    ensures Run(rules + [r], l) == var b := Run(rules, l); if b.None? then None else Step(r, b.value)
  {
    hide Step;
    assert (rules + [r])[..|rules|] == rules;
  }

  /** Where two runs have come to the same, they go on the same. */
  lemma {:induction false} SameRest(a: seq<Rule>, l: Labels, b: seq<Rule>, m: Labels, rest: seq<Rule>)
    requires Run(a, l) == Run(b, m)
    ensures Run(a + rest, l) == Run(b + rest, m)
    decreases |rest|
  {
    hide Run; hide Step;
    if rest == [] {
      assert a + rest == a && b + rest == b;
    } else {
      var front, r := rest[..|rest| - 1], rest[|rest| - 1];
      SameRest(a, l, b, m, front);
      RunMore(a + front, r, l);
      RunMore(b + front, r, m);
      assert a + rest == a + front + [r] && b + rest == b + front + [r];
    }
  }

  /** A series dropped stays dropped. */
  lemma {:induction false} StaysDropped(a: seq<Rule>, rest: seq<Rule>, l: Labels)
    requires Run(a, l) == None
    ensures Run(a + rest, l) == None
    decreases |rest|
  {
    hide Run; hide Step;
    if rest == [] {
      assert a + rest == a;
    } else {
      var front, r := rest[..|rest| - 1], rest[|rest| - 1];
      StaysDropped(a, front, l);
      RunMore(a + front, r, l);
      assert a + rest == a + front + [r];
    }
  }

  /** Rules that write the environment and the mark only. */
  predicate Writes(r: Rule) { r.target == None || r.target == Some(Environment) || r.target == Some(TmpKube) }

  lemma {:induction false} NameKept(rules: seq<Rule>, l: Labels)
    requires forall r | r in rules :: Writes(r)
    ensures Run(rules, l).Some? ==> Get(Run(rules, l).value, Name) == Get(l, Name)
    decreases |rules|
  {
    hide Matches;
    if rules != [] {
      NameKept(rules[..|rules| - 1], l);
      assert rules[|rules| - 1] in rules;
    }
  }

  /** A mark with a drop straight after it drops every kube_ series, whatever comes before and after. */
  lemma MarkDropKills(a: seq<Rule>, rest: seq<Rule>, l: Labels)
    requires (forall r | r in a :: Writes(r)) && IsKube(Get(l, Name))
    ensures Run(a + [KUBE_MARK] + [KUBE_DROP] + rest, l) == None
  {
    NameKept(a, l);
    RunMore(a, KUBE_MARK, l);
    RunMore(a + [KUBE_MARK], KUBE_DROP, l);
    if Run(a, l).Some? { MarkThenDrop(Run(a, l).value); }
    hide Run; hide Step; hide IsKube;
    StaysDropped(a + [KUBE_MARK] + [KUBE_DROP], rest, l);
  }

  lemma MarkThenDrop(l: Labels)
    requires IsKube(Get(l, Name))
    ensures Step(KUBE_MARK, l) == Some(Set(l, TmpKube, "drop")) && Step(KUBE_DROP, Set(l, TmpKube, "drop")) == None
  {
    OneName("drop");
    LiteralAlternation("drop", "drop");
    hide Split;
  }

  lemma {:induction false} StampsWrite(groups: seq<Group>)
    ensures forall r | r in StampRules(groups) :: Writes(r) && r.target == Some(Environment)
  {
    hide Alternation;
    if groups != [] { StampsWrite(groups[..|groups| - 1]); }
  }

  /** A series from a namespace no stamp names passes the stamps as it is. */
  lemma {:induction false} StampsPass(groups: seq<Group>, l: Labels)
    requires LiteralGroups(groups) && forall g | g in groups :: Get(l, Namespace) !in g.names
    ensures Run(StampRules(groups), l) == Some(l)
  {
    hide Matches; hide Literal; hide Step;
    if groups != [] {
      var before, g := groups[..|groups| - 1], groups[|groups| - 1];
      assert groups == before + [g] && g in groups;
      StampsPass(before, l);
      RunMore(StampRules(before), StampRule(g), l);
      OneStampPasses(g, l);
    }
  }

  lemma OneStampPasses(g: Group, l: Labels)
    requires g.names != [] && (forall n | n in g.names :: Literal(n)) && Get(l, Namespace) !in g.names
    ensures Step(StampRule(g), l) == Some(l)
  {
    hide Literal; hide Matches;
    NoBar(g.names);
    LiteralAlternation(Alternation(g.names), Get(l, Namespace));
  }

  /** So it is of an unmapped namespace. */
  lemma UnmappedPasses(groups: seq<Group>, namespaces: seq<string>, envs: Table, keep: seq<string>, l: Labels)
    requires Sources(groups, namespaces, envs, keep) && Get(l, Namespace) !in envs
    ensures Run(StampRules(groups), l) == Some(l)
  {
    LiteralStamps(groups, envs);
    hide ValidTable; hide LiteralGroups; hide Run;
    StampsPass(groups, l);
  }

  // ----- a rule no branch reads ------------------------------------------

  const UNREAD := Rule([Plain("x")], None, None, None, Drop, None)
  const OTHER_GUARD := Rule([Environment], Some(""), Some(Environment), Some("prod"), Replace, None)

  /** What the extra rules are to the validator. */
  lemma Kinds(few: seq<string>, namespaces: seq<string>)
    ensures KindOf(UNREAD) == Other && KindOf(OTHER_GUARD) == Guard && KindOf(KUBE_MARK) == KubeMark
    ensures KindOf(KUBE_DROP) == KubeDrop && KindOf(KeepRule(few)) == Kept && KindOf(ClearRule(namespaces)) == KubeClear
    ensures Writes(GUARD_RULE) && Writes(KUBE_MARK) && Writes(ClearRule(namespaces))
  {
    hide Alternation; hide Sort; hide ClearRegex;
  }

  lemma UnreadDrops(l: Labels)
    ensures Step(UNREAD, l) == None
  {
  }

  lemma FirstPlace(groups: seq<Group>, namespaces: seq<string>, keep: seq<string>, r: Rule)
    ensures WithExtra(groups, namespaces, keep, [r], [], []) == StampRules(groups) + [r] + Tail(namespaces, keep)
  {
    hide StampRules; hide GUARD_RULE; hide KUBE_MARK; hide KUBE_DROP; hide ClearRule; hide KeepRule;
  }

  lemma SecondPlace(groups: seq<Group>, namespaces: seq<string>, keep: seq<string>, r: Rule)
    ensures WithExtra(groups, namespaces, keep, [], [r], []) ==
            StampRules(groups) + [GUARD_RULE] + [KUBE_MARK] + [r] + [ClearRule(namespaces), KUBE_DROP, KeepRule(keep)]
  {
    hide StampRules; hide GUARD_RULE; hide KUBE_MARK; hide KUBE_DROP; hide ClearRule; hide KeepRule;
  }

  lemma ThirdPlace(groups: seq<Group>, namespaces: seq<string>, keep: seq<string>, r: Rule)
    ensures WithExtra(groups, namespaces, keep, [], [], [r]) ==
            StampRules(groups) + [GUARD_RULE] + [KUBE_MARK] + [ClearRule(namespaces)] + [r] + [KUBE_DROP]
            + [KeepRule(keep)]
  {
    hide StampRules; hide GUARD_RULE; hide KUBE_MARK; hide KUBE_DROP; hide ClearRule; hide KeepRule;
  }

  lemma ExtraFirst(groups: seq<Group>, namespaces: seq<string>, envs: Table, keep: seq<string>, r: Rule)
    requires Sources(groups, namespaces, envs, keep) && KindOf(r) != Stamp
    ensures ReadsAs(WithExtra(groups, namespaces, keep, [r], [], []), envs, keep)
  {
    hide Sources; hide ReadsAs; hide KindOf; hide WithExtra;
    ExtraReadsAs(groups, namespaces, envs, keep, [r], [], []);
  }

  lemma ExtraSecond(groups: seq<Group>, namespaces: seq<string>, envs: Table, keep: seq<string>, r: Rule)
    requires Sources(groups, namespaces, envs, keep) && (KindOf(r) == KubeClear || KindOf(r) == KubeDrop)
    ensures ReadsAs(WithExtra(groups, namespaces, keep, [], [r], []), envs, keep)
  {
    hide Sources; hide ReadsAs; hide KindOf; hide WithExtra;
    ExtraReadsAs(groups, namespaces, envs, keep, [], [r], []);
  }

  lemma ExtraThird(groups: seq<Group>, namespaces: seq<string>, envs: Table, keep: seq<string>, r: Rule)
    requires Sources(groups, namespaces, envs, keep) && KindOf(r) == KubeMark
    ensures ReadsAs(WithExtra(groups, namespaces, keep, [], [], [r]), envs, keep)
  {
    hide Sources; hide ReadsAs; hide KindOf; hide WithExtra;
    ExtraReadsAs(groups, namespaces, envs, keep, [], [], [r]);
  }

  /** A rule that is ignored, and drops everything. */
  lemma UnreadSlips(groups: seq<Group>, namespaces: seq<string>, envs: Table, keep: seq<string>)
    requires Sources(groups, namespaces, envs, keep)
    ensures var rules := WithExtra(groups, namespaces, keep, [UNREAD], [], []);
            ReadsAs(rules, envs, keep) && forall l: Labels :: Run(rules, l) == None
  {
    hide *;
    Kinds([], []);
    ExtraFirst(groups, namespaces, envs, keep, UNREAD);
    FirstPlace(groups, namespaces, keep, UNREAD);
    forall l: Labels ensures Run(WithExtra(groups, namespaces, keep, [UNREAD], [], []), l) == None {
      RunMore(StampRules(groups), UNREAD, l);
      if Run(StampRules(groups), l).Some? { UnreadDrops(Run(StampRules(groups), l).value); }
      StaysDropped(StampRules(groups) + [UNREAD], Tail(namespaces, keep), l);
    }
  }

  // ----- a second rule of a kind -----------------------------------------

  /** A narrower keep before the last: names it does not keep are dropped. */
  lemma SecondKeepSlips(groups: seq<Group>, namespaces: seq<string>, envs: Table, keep: seq<string>, few: seq<string>)
    requires Sources(groups, namespaces, envs, keep) && ValidKeep(few)
    ensures var rules := WithExtra(groups, namespaces, keep, [KeepRule(few)], [], []);
            ReadsAs(rules, envs, keep) && forall l: Labels | Get(l, Name) !in few :: Run(rules, l) == None
  {
    hide *;
    Kinds(few, []);
    ExtraFirst(groups, namespaces, envs, keep, KeepRule(few));
    FirstPlace(groups, namespaces, keep, KeepRule(few));
    StampsWrite(groups);
    forall l: Labels | Get(l, Name) !in few
      ensures Run(WithExtra(groups, namespaces, keep, [KeepRule(few)], [], []), l) == None
    {
      NameKept(StampRules(groups), l);
      RunMore(StampRules(groups), KeepRule(few), l);
      if Run(StampRules(groups), l).Some? { NotKept(few, Run(StampRules(groups), l).value); }
      StaysDropped(StampRules(groups) + [KeepRule(few)], Tail(namespaces, keep), l);
    }
  }

  lemma NotKept(few: seq<string>, l: Labels)
    requires ValidKeep(few) && Get(l, Name) !in few
    ensures Step(KeepRule(few), l) == None
  {
    hide Matches; hide Sort; hide Literal;
    SortMembers(few);
    assert Sort(few) != [] by { assert few[0] in Sort(few); }
    NoBar(Sort(few));
    LiteralAlternation(Alternation(Sort(few)), Get(l, Name));
  }

  /** A second drop between the mark and the clear: every kube_ series is dropped. */
  lemma SecondDropSlips(groups: seq<Group>, namespaces: seq<string>, envs: Table, keep: seq<string>)
    requires Sources(groups, namespaces, envs, keep)
    ensures var rules := WithExtra(groups, namespaces, keep, [], [KUBE_DROP], []);
            ReadsAs(rules, envs, keep) && forall l: Labels | IsKube(Get(l, Name)) :: Run(rules, l) == None
  {
    hide *;
    Kinds([], []);
    ExtraSecond(groups, namespaces, envs, keep, KUBE_DROP);
    SecondPlace(groups, namespaces, keep, KUBE_DROP);
    StampsWrite(groups);
    var a := StampRules(groups) + [GUARD_RULE];
    forall l: Labels | IsKube(Get(l, Name))
      ensures Run(WithExtra(groups, namespaces, keep, [], [KUBE_DROP], []), l) == None
    {
      MarkDropKills(a, [ClearRule(namespaces), KUBE_DROP, KeepRule(keep)], l);
    }
  }

  /** A second mark between the clear and the drop: every kube_ series is dropped. */
  lemma SecondMarkSlips(groups: seq<Group>, namespaces: seq<string>, envs: Table, keep: seq<string>)
    requires Sources(groups, namespaces, envs, keep)
    ensures var rules := WithExtra(groups, namespaces, keep, [], [], [KUBE_MARK]);
            ReadsAs(rules, envs, keep) && forall l: Labels | IsKube(Get(l, Name)) :: Run(rules, l) == None
  {
    hide *;
    Kinds([], namespaces);
    ExtraThird(groups, namespaces, envs, keep, KUBE_MARK);
    ThirdPlace(groups, namespaces, keep, KUBE_MARK);
    StampsWrite(groups);
    var a := StampRules(groups) + [GUARD_RULE] + [KUBE_MARK] + [ClearRule(namespaces)];
    forall l: Labels | IsKube(Get(l, Name))
      ensures Run(WithExtra(groups, namespaces, keep, [], [], [KUBE_MARK]), l) == None
    {
      MarkDropKills(a, [KeepRule(keep)], l);
    }
  }

  /** A second guard before the last: an unmapped series with no environment is given that guard's. */
  lemma SecondGuardSlips(groups: seq<Group>, namespaces: seq<string>, envs: Table, keep: seq<string>, l: Labels)
    requires Sources(groups, namespaces, envs, keep)
    requires Normal(l) && TmpKube !in l && Environment !in l && Get(l, Namespace) !in envs
    ensures var rules := WithExtra(groups, namespaces, keep, [OTHER_GUARD], [], []);
            && ReadsAs(rules, envs, keep)
            && Run(rules, l) == Wanted(envs, keep, Set(l, Environment, "prod"))
            && (Wanted(envs, keep, l).Some? ==> Run(rules, l) != Wanted(envs, keep, l))
  {
    hide *;
    var m, a, rest := Set(l, Environment, "prod"), StampRules(groups), Tail(namespaces, keep);
    Kinds([], []);
    OtherGuardSets(l);
    WantedDiffer(envs, keep, l);
    ExtraFirst(groups, namespaces, envs, keep, OTHER_GUARD);
    FirstPlace(groups, namespaces, keep, OTHER_GUARD);
    UnmappedPasses(groups, namespaces, envs, keep, l);
    UnmappedPasses(groups, namespaces, envs, keep, m);
    RunMore(a, OTHER_GUARD, l);
    SameRest(a + [OTHER_GUARD], l, a, m, rest);
    CompiledRuns(groups, namespaces, envs, keep, m);
  }

  lemma CompiledRuns(groups: seq<Group>, namespaces: seq<string>, envs: Table, keep: seq<string>, l: Labels)
    requires Sources(groups, namespaces, envs, keep) && Normal(l) && TmpKube !in l
    ensures Run(StampRules(groups) + Tail(namespaces, keep), l) == Wanted(envs, keep, l)
  {
    hide Run; hide ValidTable; hide ValidKeep; hide Encodes; hide SortedListing; hide Wanted; hide StampRules;
    hide Tail; hide Normal;
    MetricRulesCorrect(groups, namespaces, envs, keep, l);
  }

  lemma OtherGuardSets(l: Labels)
    requires Environment !in l
    ensures Step(OTHER_GUARD, l) == Some(Set(l, Environment, "prod"))
    ensures Get(Set(l, Environment, "prod"), Namespace) == Get(l, Namespace)
    ensures Normal(l) ==> Normal(Set(l, Environment, "prod"))
    ensures TmpKube !in l ==> TmpKube !in Set(l, Environment, "prod")
  {
    EmptyAlternation();
    LiteralAlternation("", "");
    hide Split;
  }

  lemma WantedDiffer(envs: Table, keep: seq<string>, l: Labels)
    requires Environment !in l && Get(l, Namespace) !in envs
    ensures Wanted(envs, keep, l).Some? ==> Wanted(envs, keep, Set(l, Environment, "prod")) != Wanted(envs, keep, l)
  {
    var m := Set(l, Environment, "prod");
    SetKeeps(l, "prod");
    SetKeeps(l, GUARD);
    SetKeeps(m, "prod");
    assert "prod"[0] == 'p' && GUARD[0] == 'u';
    if Wanted(envs, keep, l).Some? {
      assert Get(Wanted(envs, keep, l).value, Environment) == GUARD;
      assert Get(Wanted(envs, keep, m).value, Environment) == "prod";
    }
  }

  /** A second clear before the last: a kube_ series from the namespace it names is let through, unmapped. */
  lemma SecondClearSlips(groups: seq<Group>, namespaces: seq<string>, envs: Table, keep: seq<string>, l: Labels)
    requires Sources(groups, namespaces, envs, keep) && Normal(l) && TmpKube !in l
    requires Get(l, Name) in keep && IsKube(Get(l, Name)) && Get(l, Namespace) !in envs && Literal(Get(l, Namespace))
    ensures var rules := WithExtra(groups, namespaces, keep, [], [ClearRule([Get(l, Namespace)])], []);
            ReadsAs(rules, envs, keep) && Run(rules, l).Some? && Wanted(envs, keep, l) == None
  {
    hide *;
    NotWanted(envs, keep, l);
    Kinds([], [Get(l, Namespace)]);
    ExtraSecond(groups, namespaces, envs, keep, ClearRule([Get(l, Namespace)]));
    SecondClearRuns(groups, namespaces, envs, keep, l);
  }

  lemma SecondClearRuns(groups: seq<Group>, namespaces: seq<string>, envs: Table, keep: seq<string>, l: Labels)
    requires Sources(groups, namespaces, envs, keep) && Normal(l) && TmpKube !in l
    requires Get(l, Name) in keep && IsKube(Get(l, Name)) && Get(l, Namespace) !in envs && Literal(Get(l, Namespace))
    ensures Run(WithExtra(groups, namespaces, keep, [], [ClearRule([Get(l, Namespace)])], []), l).Some?
  {
    hide *;
    var other := ClearRule([Get(l, Namespace)]);
    SecondPlace(groups, namespaces, keep, other);
    UnmappedPasses(groups, namespaces, envs, keep, l);
    LetThrough(groups, namespaces, envs, keep, l);
    var m := Mark(l, if Get(l, Environment) == "" then GUARD else Get(l, Environment), "");
    RunThree(StampRules(groups), l, GUARD_RULE, KUBE_MARK, other, m);
    var a := StampRules(groups) + [GUARD_RULE] + [KUBE_MARK] + [other];
    LastThree(a, l, ClearRule(namespaces), KUBE_DROP, KeepRule(keep), m);
  }

  lemma LastThree(a: seq<Rule>, l: Labels, r1: Rule, r2: Rule, r3: Rule, m: Labels)
    requires Run(a, l) == Some(m) && Step(r1, m) == Some(m) && Step(r2, m) == Some(m) && Step(r3, m) == Some(m)
    ensures Run(a + [r1, r2, r3], l) == Some(m)
  {
    hide Run; hide Step;
    RunThree(a, l, r1, r2, r3, m);
    assert a + [r1, r2, r3] == a + [r1] + [r2] + [r3];
  }

  /** Three rules that all let a series through. */
  lemma RunThree(a: seq<Rule>, l: Labels, r1: Rule, r2: Rule, r3: Rule, m: Labels)
    requires Run(a, l).Some? && Step(r1, Run(a, l).value).Some? && Step(r2, Step(r1, Run(a, l).value).value).Some?
    requires Step(r3, Step(r2, Step(r1, Run(a, l).value).value).value) == Some(m)
    ensures Run(a + [r1] + [r2] + [r3], l) == Some(m)
  {
    hide Run; hide Step;
    RunMore(a, r1, l);
    RunMore(a + [r1], r2, l);
    RunMore(a + [r1] + [r2], r3, l);
  }

  lemma NotWanted(envs: Table, keep: seq<string>, l: Labels)
    requires IsKube(Get(l, Name)) && Get(l, Namespace) !in envs
    ensures Wanted(envs, keep, l) == None
  {
  }

  /** The steps of that series after the stamps. */
  lemma LetThrough(groups: seq<Group>, namespaces: seq<string>, envs: Table, keep: seq<string>, l: Labels)
    requires Sources(groups, namespaces, envs, keep) && Normal(l) && TmpKube !in l
    requires Get(l, Name) in keep && IsKube(Get(l, Name)) && Literal(Get(l, Namespace))
    ensures var ns, e := Get(l, Namespace), Get(l, Environment);
            var e' := if e == "" then GUARD else e;
            && Step(GUARD_RULE, l) == Some(Mark(l, e', ""))
            && Step(KUBE_MARK, Mark(l, e', "")) == Some(Mark(l, e', "drop"))
            && Step(ClearRule([ns]), Mark(l, e', "drop")) == Some(Mark(l, e', ""))
            && Step(ClearRule(namespaces), Mark(l, e', "")) == Some(Mark(l, e', ""))
            && Step(KUBE_DROP, Mark(l, e', "")) == Some(Mark(l, e', ""))
            && Step(KeepRule(keep), Mark(l, e', "")) == Some(Mark(l, e', ""))
  {
    var ns, e := Get(l, Namespace), Get(l, Environment);
    var e' := if e == "" then GUARD else e;
    assert Mark(l, e, "") == l;
    assert KindOf(GUARD_RULE) == Guard && GuardWorks(GUARD_RULE);
    assert KindOf(KeepRule(keep)) == Kept;
    assert KindOf(ClearRule([ns])) == KubeClear && KindOf(ClearRule(namespaces)) == KubeClear;
    ListedNames(namespaces, envs);
    ClearWorksOn(namespaces, envs);
    OneCleared(ns, l);
    KeptByName(keep, Get(l, Name));
    hide Step; hide Mark; hide KindOf; hide GuardWorks; hide Sources; hide Literal; hide ClearRule; hide GUARD_RULE;
    hide KeepRule; hide KUBE_MARK; hide KUBE_DROP; hide ClearWorks; hide Matches;
    GuardStep(GUARD_RULE, l, e, "");
    KubeMarkStep(l, e', "");
    KubeClearStep(ClearRule([ns]), map[ns := "dev"], l, e', "drop");
    KubeClearStep(ClearRule(namespaces), envs, l, e', "");
    KubeDropStep(l, e', "");
    KeepStep(KeepRule(keep), l, e', "");
  }

  lemma ClearWorksOn(namespaces: seq<string>, envs: Table)
    requires SortedListing(namespaces, envs.Keys) && namespaces != [] && forall n | n in namespaces :: Literal(n)
    ensures ClearWorks(ClearRule(namespaces), envs)
  {
    hide Literal; hide ClearReading; hide ClearRule; hide ClearWorks;
    ClearReads(namespaces);
    ClearIsRead(ClearRule(namespaces), true, envs);
  }

  lemma OneCleared(ns: string, l: Labels)
    requires Literal(ns) && Get(l, Namespace) == ns
    ensures ClearWorks(ClearRule([ns]), map[ns := "dev"]) && Cleared(ClearRule([ns]), l)
  {
    var envs: Table := map[ns := "dev"];
    assert envs.Keys == {ns} && multiset({ns}) == multiset([ns]);
    ClearWorksOn([ns], envs);
    ClearReads([ns]);
    var re := ClearRegex([ns]);
    assert ClearRule([ns]).regex == Some(re);
    hide Matches; hide ClearNames; hide Literal; hide ClearTail; hide ClearRegex;
    ClearMatches(re, "drop;" + ns);
    assert ns in envs && "drop;" + ns + "" == "drop;" + ns;
  }

  lemma KeptByName(keep: seq<string>, name: string)
    requires ValidKeep(keep) && name in keep
    ensures Matches(Alternation(Sort(keep)), name)
  {
    hide Matches; hide Sort; hide Literal;
    SortMembers(keep);
    NoBar(Sort(keep));
    LiteralAlternation(Alternation(Sort(keep)), name);
  }
}
