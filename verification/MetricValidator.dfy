/** metric_table (scripts/collectors_check.py): what a list of relabel rules is read back as, and how
    far that reading pins down what the rules do. Nothing here knows the generator. */
module MetricValidator {
  import opened Options
  import opened Strings
  import opened Relabel

  datatype Kind = Stamp | Guard | KubeMark | KubeClear | KubeDrop | Kept | Other

  const KUBE_MARK := Rule([Name], Some("kube_.+"), Some(TmpKube), Some("drop"), Replace, None)
  const KUBE_DROP := Rule([TmpKube], Some("drop"), None, None, Drop, None)

  /** Which branch reads a rule. */
  function KindOf(r: Rule): Kind {
    if r.src == [Namespace] && r.target == Some(Environment) then Stamp
    else if r.src == [Environment] && r.target == Some(Environment) then Guard
    else if r == KUBE_MARK then KubeMark
    else if r.src == [TmpKube, Namespace] then KubeClear
    else if r == KUBE_DROP then KubeDrop
    else if r.src == [Name] && r.action == Keep && r.target.None? && r.sep.None? then Kept
    else Other
  }

  /** Each branch's rules; no rule is of two. */
  lemma KindsAre(r: Rule)
    ensures KindOf(r) == Stamp <==> r.src == [Namespace] && r.target == Some(Environment)
    ensures KindOf(r) == Guard <==> r.src == [Environment] && r.target == Some(Environment)
    ensures KindOf(r) == KubeMark <==> r == Rule([Name], Some("kube_.+"), Some(TmpKube), Some("drop"), Replace, None)
    ensures KindOf(r) == KubeClear <==> r.src == [TmpKube, Namespace]
    ensures KindOf(r) == KubeDrop <==> r == Rule([TmpKube], Some("drop"), None, None, Drop, None)
    ensures KindOf(r) == Kept <==> r.src == [Name] && r.action == Keep && r.target == None && r.sep == None
  {
    assert [Namespace][0] != [Environment][0] && [Name][0] != [TmpKube][0] && [TmpKube, Namespace] != [TmpKube];
  }

  /** The validator's variables; `failed` is its early return. */
  datatype Reading = Reading(table: map<string, Option<string>>, guarded: bool, mark: bool,
                             clear: Option<seq<string>>, drop: bool, keep: Option<seq<string>>, failed: bool)
  const BLANK := Reading(map[], false, false, None, false, None, false)

  function PutAll(t: map<string, Option<string>>, names: seq<string>,
                  v: Option<string>): (r: map<string, Option<string>>)
    ensures r.Keys == t.Keys + (set n | n in names)
    ensures forall n | n in r :: r[n] == if n in names then v else t[n]
    decreases |names|
  {
    if names == [] then t
    else
      assert names == [names[0]] + names[1..];
      PutAll(t[names[0] := v], names[1..], v)
  }

  predicate GuardWorks(r: Rule) {
    r.regex == Some("") && r.repl == Some(GUARD) && r.action == Replace && r.sep.None?
  }

  /** `^drop;\((.*)\)$`: `.` stops at a newline, but `$` also matches before a final one. */
  function ClearNames(re: string): Option<seq<string>> {
    var core := if |re| > 0 && re[|re| - 1] == '\n' then re[..|re| - 1] else re;
    if |core| >= 7 && core[..6] == CLEAR_HEAD && core[|core| - 1] == ')' && '\n' !in core
    then Some(Split(core[6..|core| - 1], '|'))
    else None
  }

  function ClearReading(r: Rule, mark: bool): seq<string> {
    var names := ClearNames(OrEmpty(r.regex));
    if names.Some? && mark && r.target == Some(TmpKube) && r.repl == Some("") && r.action == Replace
       && r.sep == Some(";")
    then Sort(names.value) else []
  }

  function ReadRule(st: Reading, r: Rule): Reading {
    if st.failed then st
    else
      match KindOf(r)
      case Stamp =>
        if st.guarded || r.action != Replace || r.sep.Some? then st.(failed := true)
        else st.(table := PutAll(st.table, Split(OrEmpty(r.regex), '|'), r.repl))
      case Guard => st.(guarded := GuardWorks(r))
      case KubeMark => st.(mark := true)
      case KubeClear => st.(clear := Some(ClearReading(r, st.mark)))
      case KubeDrop => st.(drop := st.clear.Some?)
      case Kept => st.(keep := Some(Sort(Split(OrEmpty(r.regex), '|'))))
      case Other => st
  }

  function Read(rules: seq<Rule>): Reading {
    if rules == [] then BLANK else ReadRule(Read(rules[..|rules| - 1]), rules[|rules| - 1])
  }

  datatype Answer = Answer(
    table: map<string, Option<string>>, guarded: bool, kube: Option<seq<string>>, keep: Option<seq<string>>)

  function AnswerOf(st: Reading): Answer {
    if st.failed then Answer(map[], false, None, st.keep)
    else Answer(st.table, st.guarded, if st.mark && st.drop then st.clear else Some([]), st.keep)
  }

  /** The loop over flags and a dictionary. */
  method MetricTable(rules: seq<Rule>) returns (a: Answer)
    ensures a == AnswerOf(Read(rules))
  {
    var table: map<string, Option<string>>, guarded, keep := map[], false, None;
    var mark, drop := false, false;
    var clear: Option<seq<string>> := None;
    for i := 0 to |rules|
      invariant Read(rules[..i]) == Reading(table, guarded, mark, clear, drop, keep, false)
    {
      var r := rules[i];
      assert rules[..i + 1][..i] == rules[..i] && rules[..i + 1][i] == r;
      match KindOf(r) {
        case Stamp =>
          if guarded || r.action != Replace || r.sep.Some? {
            FailedForGood(rules, i + 1);
            return Answer(map[], false, None, keep);
          }
          table := PutAll(table, Split(OrEmpty(r.regex), '|'), r.repl);
        case Guard => guarded := GuardWorks(r);
        case KubeMark => mark := true;
        case KubeClear => clear := Some(ClearReading(r, mark));
        case KubeDrop => drop := clear.Some?;
        case Kept => keep := Some(Sort(Split(OrEmpty(r.regex), '|')));
        case Other =>
      }
    }
    assert rules[..|rules|] == rules;
    a := Answer(table, guarded, if mark && drop then clear else Some([]), keep);
  }

  /** The last guard before a rule works. */
  ghost predicate Guarded(rules: seq<Rule>, i: nat)
    requires i <= |rules|
  {
    exists j | 0 <= j < i :: KindOf(rules[j]) == Guard && GuardWorks(rules[j]) &&
                             forall k | j < k < i :: KindOf(rules[k]) != Guard
  }

  /** A stamp after a guard, or one that does not stamp. */
  ghost predicate BadStamp(rules: seq<Rule>, i: nat)
    requires i < |rules|
  {
    KindOf(rules[i]) == Stamp && (Guarded(rules, i) || rules[i].action != Replace || rules[i].sep.Some?)
  }

  lemma GuardedFront(rules: seq<Rule>, i: nat, n: nat)
    requires i <= n <= |rules|
    ensures Guarded(rules[..n], i) <==> Guarded(rules, i)
  {
    hide KindOf; hide GuardWorks;
    assert forall j | 0 <= j < n :: rules[..n][j] == rules[j];
  }

  lemma FailStep(rules: seq<Rule>)
    requires rules != []
    ensures var st, st', r := Read(rules[..|rules| - 1]), Read(rules), rules[|rules| - 1];
            && (st'.failed <==>
                  st.failed || (KindOf(r) == Stamp && (st.guarded || r.action != Replace || r.sep.Some?)))
            && (!st'.failed ==> (st'.guarded <==> if KindOf(r) == Guard then GuardWorks(r) else st.guarded))
  {
    hide KindOf; hide GuardWorks; hide PutAll; hide ClearReading;
  }

  lemma NotGuarded(rules: seq<Rule>)
    ensures !Guarded(rules, 0)
  {
  }

  lemma BadFront(rules: seq<Rule>, i: nat)
    requires i < |rules| - 1
    ensures BadStamp(rules[..|rules| - 1], i) <==> BadStamp(rules, i)
  {
    hide KindOf; hide Guarded;
    GuardedFront(rules, i, |rules| - 1);
  }

  /** metric_table gives up exactly on a bad stamp, and its answer then says nothing but the names kept before
      it; else it is guarded exactly when the last guard works. */
  lemma {:induction false} FailsIff(rules: seq<Rule>)
    ensures Read(rules).failed <==> exists i | 0 <= i < |rules| :: BadStamp(rules, i)
    ensures !Read(rules).failed ==> (Read(rules).guarded <==> Guarded(rules, |rules|))
    ensures Read(rules).failed ==>
              var a := AnswerOf(Read(rules)); a.table == map[] && !a.guarded && a.kube == None
  {
    hide Read; hide KindOf; hide GuardWorks; hide Guarded;
    if rules == [] {
      NothingRead();
      NotGuarded(rules);
    } else {
      var n := |rules| - 1;
      FailsIff(rules[..n]);
      FailStep(rules);
      GuardedFront(rules, n, n);
      GuardedMore(rules);
      forall i | 0 <= i < n ensures BadStamp(rules[..n], i) <==> BadStamp(rules, i) { BadFront(rules, i); }
      if Read(rules).failed && !Read(rules[..n]).failed { assert BadStamp(rules, n); }
      if i :| 0 <= i < n && BadStamp(rules[..n], i) { assert BadStamp(rules, i); }
    }
  }

  lemma GuardedMore(rules: seq<Rule>)
    requires rules != []
    ensures var n := |rules| - 1;
            Guarded(rules, n + 1) <==> if KindOf(rules[n]) == Guard then GuardWorks(rules[n]) else Guarded(rules, n)
  {
    hide KindOf; hide GuardWorks;
    var n := |rules| - 1;
    if Guarded(rules, n) && KindOf(rules[n]) != Guard {
      var j :| 0 <= j < n && KindOf(rules[j]) == Guard && GuardWorks(rules[j]) &&
               forall k | j < k < n :: KindOf(rules[k]) != Guard;
      assert forall k | j < k < n + 1 :: KindOf(rules[k]) != Guard;
    }
  }

  lemma {:induction false} FailedForGood(rules: seq<Rule>, i: nat)
    requires i <= |rules| && Read(rules[..i]).failed
    ensures Read(rules) == Read(rules[..i])
    decreases |rules|
  {
    if i == |rules| {
      assert rules[..i] == rules;
    } else {
      assert rules[..|rules| - 1][..i] == rules[..i];
      FailedForGood(rules[..|rules| - 1], i);
    }
  }

  // ----- where the five rules are ----------------------------------------

  /** The one guard, mark, clear, drop and keep of a list whose other rules are all stamps. */
  datatype Shape = Shape(guard: nat, mark: nat, clear: nat, drop: nat, keep: nat)

  ghost predicate Shaped(rules: seq<Rule>, x: Shape) {
    && x.guard < |rules| && x.mark < |rules| && x.clear < |rules| && x.drop < |rules| && x.keep < |rules|
    && KindOf(rules[x.guard]) == Guard && KindOf(rules[x.mark]) == KubeMark && KindOf(rules[x.clear]) == KubeClear
    && KindOf(rules[x.drop]) == KubeDrop && KindOf(rules[x.keep]) == Kept
    && forall i | 0 <= i < |rules| && i !in {x.guard, x.mark, x.clear, x.drop, x.keep} :: KindOf(rules[i]) == Stamp
  }

  function Names(r: Rule): seq<string> { Split(OrEmpty(r.regex), '|') }

  lemma Prefix(rules: seq<Rule>, i: nat)
    requires i < |rules|
    ensures rules[..i + 1][..i] == rules[..i] && rules[..i + 1][i] == rules[i]
    ensures Read(rules[..i + 1]) == ReadRule(Read(rules[..i]), rules[i])
  {
    assert rules[..i + 1][..i] == rules[..i];
  }

  /** What has been read after i rules. */
  lemma {:induction false} ReadAt(rules: seq<Rule>, x: Shape, i: nat)
    requires Shaped(rules, x) && i <= |rules| && !Read(rules[..i]).failed
    ensures var st := Read(rules[..i]);
            && st.guarded == (x.guard < i && GuardWorks(rules[x.guard]))
            && st.mark == (x.mark < i)
            && st.clear == (if x.clear < i then Some(ClearReading(rules[x.clear], x.mark < x.clear)) else None)
            && st.drop == (x.drop < i && x.clear < x.drop)
            && st.keep == (if x.keep < i then Some(Sort(Names(rules[x.keep]))) else None)
  {
    hide KindOf; hide ClearReading; hide Split; hide Sort; hide GuardWorks; hide PutAll; hide Read;
    if i > 0 {
      Prefix(rules, i - 1);
      ReadAt(rules, x, i - 1);
    } else {
      assert rules[..0] == [];
      NothingRead();
    }
  }

  lemma NothingRead()
    ensures Read([]) == BLANK
  {
  }

  lemma ReadRuleGrows(st: Reading, r: Rule)
    requires !ReadRule(st, r).failed
    ensures !st.failed && st.table.Keys <= ReadRule(st, r).table.Keys
  {
    hide KindOf; hide ClearReading; hide Split; hide Sort; hide GuardWorks;
  }

  /** A rule list that has not failed by the end never had. */
  lemma {:induction false} NotFailedBefore(rules: seq<Rule>, i: nat)
    requires i <= |rules| && !Read(rules).failed
    ensures !Read(rules[..i]).failed && Read(rules[..i]).table.Keys <= Read(rules).table.Keys
    decreases |rules|
  {
    hide ReadRule;
    if i == |rules| {
      assert rules[..i] == rules;
    } else {
      var before := rules[..|rules| - 1];
      assert before[..i] == rules[..i];
      ReadRuleGrows(Read(before), rules[|rules| - 1]);
      NotFailedBefore(before, i);
    }
  }

  // ----- the reading against the sources ---------------------------------

  ghost predicate SortedListing(s: seq<string>, names: set<string>) {
    SortedNames(s) && multiset(s) == multiset(names)
  }

  /** The list reads back as the sources: their table, a working guard, their namespaces, their names. */
  ghost predicate ReadsAs(rules: seq<Rule>, envs: Table, keep: seq<string>) {
    var a := AnswerOf(Read(rules));
    && a.table == (map ns | ns in envs :: Some(envs[ns]))
    && a.guarded
    && a.kube.Some? && SortedListing(a.kube.value, envs.Keys)
    && a.keep == Some(Sort(keep))
  }

  /** What that settles about each rule. */
  ghost predicate Sound(rules: seq<Rule>, x: Shape, envs: Table, keep: seq<string>) {
    && Shaped(rules, x) && !Read(rules).failed
    && Read(rules).table == (map ns | ns in envs :: Some(envs[ns]))
    && GuardWorks(rules[x.guard])
    && x.mark < x.clear < x.drop
    && ClearWorks(rules[x.clear], envs)
    && (forall n :: n in Names(rules[x.keep]) <==> n in keep)
    && (forall i | 0 <= i < |rules| && KindOf(rules[i]) == Stamp :: StampWorks(rules[i], envs) && i < x.guard)
  }

  ghost predicate ClearWorks(r: Rule, envs: Table) {
    && r.target == Some(TmpKube) && r.repl == Some("") && r.action == Replace && r.sep == Some(";")
    && r.regex.Some? && ClearNames(r.regex.value).Some?
    && forall n :: n in ClearNames(r.regex.value).value <==> n in envs
  }

  ghost predicate StampWorks(r: Rule, envs: Table) {
    r.action == Replace && r.sep.None? && r.regex.Some? && forall n | n in Names(r) :: n in envs
  }

  lemma ReadsAsMeansSound(rules: seq<Rule>, x: Shape, envs: Table, keep: seq<string>)
    requires Shaped(rules, x) && ValidTable(envs) && ReadsAs(rules, envs, keep)
    ensures Sound(rules, x, envs, keep)
  {
    hide KindOf; hide ClearReading; hide Split; hide Sort; hide GuardWorks; hide Read; hide ClearWorks;
    hide StampWorks; hide Literal; hide Less;
    var st := Read(rules);
    var ns :| ns in envs;
    assert ns in map n | n in envs :: Some(envs[n]);
    assert !st.failed;
    EmptyIsNoName();
    assert rules[..|rules|] == rules;
    ReadAt(rules, x, |rules|);
    assert ns in multiset(envs.Keys);
    assert AnswerOf(st).kube.value != [];
    ClearIsRead(rules[x.clear], x.mark < x.clear, envs);
    SortMembers(Names(rules[x.keep]));
    SortMembers(keep);
    forall i | 0 <= i < |rules| && KindOf(rules[i]) == Stamp ensures StampWorks(rules[i], envs) && i < x.guard {
      StampIsRead(rules, x, i, envs);
    }
  }

  lemma StampIsRead(rules: seq<Rule>, x: Shape, i: nat, envs: Table)
    requires Shaped(rules, x) && i < |rules| && KindOf(rules[i]) == Stamp && !Read(rules).failed
    requires Read(rules).table.Keys == envs.Keys && "" !in envs && GuardWorks(rules[x.guard])
    ensures StampWorks(rules[i], envs) && i < x.guard
  {
    hide KindOf; hide ClearReading; hide Split; hide Sort; hide GuardWorks; hide Read;
    NotFailedBefore(rules, i);
    NotFailedBefore(rules, i + 1);
    Prefix(rules, i);
    ReadAt(rules, x, i);
    assert Read(rules[..i + 1]).table == PutAll(Read(rules[..i]).table, Names(rules[i]), rules[i].repl);
    assert forall n | n in Names(rules[i]) :: n in Read(rules[..i + 1]).table.Keys;
    EmptyAlternation();
  }

  lemma EmptyIsNoName()
    ensures !Literal("")
  {
  }

  lemma EmptyAlternation()
    ensures Split("", '|') == [""]
  {
  }

  lemma ClearIsRead(r: Rule, mark: bool, envs: Table)
    requires SortedListing(ClearReading(r, mark), envs.Keys) && ClearReading(r, mark) != []
    ensures mark && ClearWorks(r, envs)
  {
    var names := ClearNames(OrEmpty(r.regex)).value;
    SortMembers(names);
    forall n ensures n in names <==> n in envs {
      assert n in Sort(names) <==> n in multiset(envs.Keys);
    }
  }

  // ----- what the rules do, from what was read ---------------------------

  function StampEnv(table: map<string, Option<string>>, ns: string, prior: string): string {
    if ns in table then OrEmpty(table[ns]) else prior
  }

  function EnvAt(rules: seq<Rule>, x: Shape, i: nat, l: Labels): string
    requires i <= |rules|
  {
    var e := StampEnv(Read(rules[..i]).table, Get(l, Namespace), Get(l, Environment));
    if x.guard < i && e == "" then GUARD else e
  }

  predicate Cleared(r: Rule, l: Labels)
    requires r.regex.Some?
  {
    Matches(r.regex.value, "drop;" + Get(l, Namespace))
  }

  function TmpAt(rules: seq<Rule>, x: Shape, i: nat, l: Labels): string
    requires x.clear < |rules| && rules[x.clear].regex.Some?
  {
    if x.mark < i && IsKube(Get(l, Name)) && !(x.clear < i && Cleared(rules[x.clear], l)) then "drop" else ""
  }

  predicate AliveAt(rules: seq<Rule>, x: Shape, i: nat, l: Labels)
    requires x.clear < |rules| && rules[x.clear].regex.Some? && x.keep < |rules|
  {
    && !(x.drop < i && TmpAt(rules, x, i, l) == "drop")
    && (x.keep < i ==> rules[x.keep].regex.None? || Matches(rules[x.keep].regex.value, Get(l, Name)))
  }

  /** The two labels the rules write. */
  function Mark(l: Labels, env: string, tmp: string): Labels { Set(Set(l, Environment, env), TmpKube, tmp) }

  lemma MarkGets(l: Labels, env: string, tmp: string)
    ensures var m := Mark(l, env, tmp);
            && Get(m, Name) == Get(l, Name) && Get(m, Namespace) == Get(l, Namespace)
            && Get(m, Environment) == env && Get(m, TmpKube) == tmp
  {
  }

  lemma MarkAgain(l: Labels, env: string, tmp: string, e: string, t: string)
    ensures Set(Mark(l, env, tmp), Environment, e) == Mark(l, e, tmp)
    ensures Set(Mark(l, env, tmp), TmpKube, t) == Mark(l, env, t)
  {
  }

  /** The text between the parentheses, and what follows them: nothing, or one newline. */
  function InnerNames(re: string): string
    requires ClearNames(re).Some?
  {
    var core := if re[|re| - 1] == '\n' then re[..|re| - 1] else re;
    core[6..|core| - 1]
  }

  function ClearTail(re: string): string { if |re| > 0 && re[|re| - 1] == '\n' then "\n" else "" }

  lemma LastParen(a: string, tail: string)
    requires ')' !in tail
    ensures LastIndexOf(a + ")" + tail, ')') == |a|
  {
    hide LastIndexOf;
    var re := a + ")" + tail;
    var j := LastIndexOf(re, ')');
    assert re[|a|] == ')' && re[|a| + 1..] == tail;
    assert |a| <= j < |re|;
  }

  lemma ClearForm(re: string)
    requires ClearNames(re).Some?
    ensures re == CLEAR_HEAD + InnerNames(re) + ")" + ClearTail(re)
    ensures LastIndexOf(re, ')') == 6 + |InnerNames(re)| && re != "kube_.+"
    ensures ClearNames(re).value == Split(InnerNames(re), '|')
  {
    var core := if re[|re| - 1] == '\n' then re[..|re| - 1] else re;
    assert core == core[..6] + core[6..|core| - 1] + [core[|core| - 1]];
    assert re == core + ClearTail(re);
    LastParen(CLEAR_HEAD + InnerNames(re), ClearTail(re));
    assert re[0] == CLEAR_HEAD[0];
  }

  /** A clear's regex matches its names, each with whatever follows the parentheses. */
  lemma ClearMatches(re: string, s: string)
    requires ClearNames(re).Some?
    ensures Matches(re, s) <==> exists x :: x in ClearNames(re).value && s == "drop;" + x + ClearTail(re)
  {
    ClearForm(re);
    var j := LastIndexOf(re, ')');
    assert re[6..j] == InnerNames(re) && re[j + 1..] == ClearTail(re) && re[..6] == CLEAR_HEAD;
  }

  // ----- each rule, on a marked series -----------------------------------

  lemma StampStep(r: Rule, envs: Table, l: Labels, env: string, tmp: string)
    requires KindOf(r) == Stamp && StampWorks(r, envs) && ValidTable(envs)
    ensures Step(r, Mark(l, env, tmp)) ==
            Some(Mark(l, if Get(l, Namespace) in Names(r) then OrEmpty(r.repl) else env, tmp))
  {
    hide Literal; hide Split; hide Matches;
    MarkGets(l, env, tmp);
    MarkAgain(l, env, tmp, OrEmpty(r.repl), tmp);
    LiteralAlternation(r.regex.value, Get(l, Namespace));
  }

  lemma GuardStep(r: Rule, l: Labels, env: string, tmp: string)
    requires KindOf(r) == Guard && GuardWorks(r)
    ensures Step(r, Mark(l, env, tmp)) == Some(Mark(l, if env == "" then GUARD else env, tmp))
  {
    hide Split; hide Matches; hide LastIndexOf;
    MarkGets(l, env, tmp);
    MarkAgain(l, env, tmp, GUARD, tmp);
    EmptyAlternation();
    LiteralAlternation("", env);
  }

  lemma KubeMarkStep(l: Labels, env: string, tmp: string)
    ensures Step(KUBE_MARK, Mark(l, env, tmp)) == Some(Mark(l, env, if IsKube(Get(l, Name)) then "drop" else tmp))
  {
    MarkGets(l, env, tmp);
    MarkAgain(l, env, tmp, env, "drop");
  }

  lemma KubeClearStep(r: Rule, envs: Table, l: Labels, env: string, tmp: string)
    requires KindOf(r) == KubeClear && ClearWorks(r, envs) && (tmp == "" || tmp == "drop")
    ensures Step(r, Mark(l, env, tmp)) == Some(Mark(l, env, if Cleared(r, l) then "" else tmp))
  {
    hide Matches; hide ClearNames;
    MarkGets(l, env, tmp);
    MarkAgain(l, env, tmp, env, "");
    var v := tmp + ";" + Get(l, Namespace);
    assert Concat(Mark(l, env, tmp), r.src, ";") == v;
    if tmp == "" {
      ClearMatches(r.regex.value, v);
      assert v[0] == ';';
      assert forall x :: ("drop;" + x + ClearTail(r.regex.value))[0] == 'd';
    } else {
      assert v == "drop;" + Get(l, Namespace);
    }
  }

  lemma KubeDropStep(l: Labels, env: string, tmp: string)
    ensures Step(KUBE_DROP, Mark(l, env, tmp)) == if tmp == "drop" then None else Some(Mark(l, env, tmp))
  {
    hide Matches;
    MarkGets(l, env, tmp);
    OneName("drop");
    LiteralAlternation("drop", tmp);
  }

  lemma OneName(s: string)
    requires '|' !in s
    ensures Split(s, '|') == [s]
  {
  }

  lemma KeepStep(r: Rule, l: Labels, env: string, tmp: string)
    requires KindOf(r) == Kept
    ensures Step(r, Mark(l, env, tmp)) ==
            if r.regex.None? || Matches(r.regex.value, Get(l, Name)) then Some(Mark(l, env, tmp)) else None
  {
    hide Matches;
    MarkGets(l, env, tmp);
  }

  // ----- the whole list --------------------------------------------------

  lemma RunPrefix(rules: seq<Rule>, i: nat, l: Labels)
    requires i < |rules|
    ensures Run(rules[..i + 1], l) == var b := Run(rules[..i], l); if b.None? then None else Step(rules[i], b.value)
  {
    assert rules[..i + 1][..i] == rules[..i];
  }

  /** Where a series is after i rules, from the reading alone. */
  function At(rules: seq<Rule>, x: Shape, i: nat, l: Labels): Option<Labels>
    requires i <= |rules| && x.clear < |rules| && rules[x.clear].regex.Some? && x.keep < |rules|
  {
    if AliveAt(rules, x, i, l) then Some(Mark(l, EnvAt(rules, x, i, l), TmpAt(rules, x, i, l))) else None
  }

  lemma StepAt(rules: seq<Rule>, x: Shape, envs: Table, keep: seq<string>, i: nat, l: Labels)
    requires Sound(rules, x, envs, keep) && ValidTable(envs) && i < |rules| && AliveAt(rules, x, i, l)
    ensures Step(rules[i], Mark(l, EnvAt(rules, x, i, l), TmpAt(rules, x, i, l))) == At(rules, x, i + 1, l)
  {
    hide KindOf; hide Read; hide Split; hide Matches; hide Step; hide Mark; hide ClearNames; hide Literal; hide Sort;
    hide IsKube; hide ValidTable;
    var env, tmp := EnvAt(rules, x, i, l), TmpAt(rules, x, i, l);
    SameTable(rules, i);
    if i == x.guard {
      GuardStep(rules[i], l, env, tmp);
    } else if i == x.mark {
      MarkRule(rules[i]);
      KubeMarkStep(l, env, tmp);
    } else if i == x.clear {
      KubeClearStep(rules[i], envs, l, env, tmp);
    } else if i == x.drop {
      DropRule(rules[i]);
      KubeDropStep(l, env, tmp);
    } else if i == x.keep {
      KeepStep(rules[i], l, env, tmp);
    } else {
      StampStep(rules[i], envs, l, env, tmp);
    }
  }

  lemma MarkRule(r: Rule)
    requires KindOf(r) == KubeMark
    ensures r == KUBE_MARK
  {
  }

  lemma DropRule(r: Rule)
    requires KindOf(r) == KubeDrop
    ensures r == KUBE_DROP
  {
  }

  /** Only a stamp changes the table. */
  lemma SameTable(rules: seq<Rule>, i: nat)
    requires i < |rules| && !Read(rules).failed
    ensures Read(rules[..i + 1]).table ==
            if KindOf(rules[i]) == Stamp then PutAll(Read(rules[..i]).table, Names(rules[i]), rules[i].repl)
            else Read(rules[..i]).table
  {
    hide KindOf; hide Split; hide Sort; hide ClearReading; hide GuardWorks; hide Read;
    Prefix(rules, i);
    NotFailedBefore(rules, i + 1);
    NotFailedBefore(rules, i);
  }

  lemma {:induction false} RunAt(rules: seq<Rule>, x: Shape, envs: Table, keep: seq<string>, i: nat, l: Labels)
    requires Sound(rules, x, envs, keep) && ValidTable(envs) && i <= |rules| && Normal(l) && TmpKube !in l
    requires x.clear < |rules| && x.keep < |rules| && rules[x.clear].regex.Some?
    ensures Run(rules[..i], l) == At(rules, x, i, l)
  {
    hide *;
    if i == 0 {
      StartAt(rules, x, l);
    } else {
      RunAt(rules, x, envs, keep, i - 1, l);
      OneMore(rules, x, envs, keep, i - 1, l);
    }
  }

  lemma OneMore(rules: seq<Rule>, x: Shape, envs: Table, keep: seq<string>, i: nat, l: Labels)
    requires Sound(rules, x, envs, keep) && ValidTable(envs) && i < |rules|
    requires x.clear < |rules| && x.keep < |rules| && rules[x.clear].regex.Some?
    requires Run(rules[..i], l) == At(rules, x, i, l)
    ensures Run(rules[..i + 1], l) == At(rules, x, i + 1, l)
  {
    hide Step; hide AliveAt; hide EnvAt; hide TmpAt; hide Mark; hide Sound; hide Run; hide ValidTable;
    RunPrefix(rules, i, l);
    if AliveAt(rules, x, i, l) {
      StepAt(rules, x, envs, keep, i, l);
    } else {
      StaysDead(rules, x, envs, keep, i, l);
    }
  }

  lemma SoundBounds(rules: seq<Rule>, x: Shape, envs: Table, keep: seq<string>)
    requires Sound(rules, x, envs, keep)
    ensures x.clear < |rules| && x.keep < |rules| && ClearWorks(rules[x.clear], envs) && rules[x.clear].regex.Some?
  {
  }

  lemma StartAt(rules: seq<Rule>, x: Shape, l: Labels)
    requires Normal(l) && TmpKube !in l && x.clear < |rules| && rules[x.clear].regex.Some? && x.keep < |rules|
    ensures Run(rules[..0], l) == At(rules, x, 0, l)
  {
    assert rules[..0] == [];
    assert Set(l, Environment, Get(l, Environment)) == l;
    assert Set(l, TmpKube, "") == l;
  }

  lemma StaysDead(rules: seq<Rule>, x: Shape, envs: Table, keep: seq<string>, i: nat, l: Labels)
    requires Sound(rules, x, envs, keep) && i < |rules| && !AliveAt(rules, x, i, l)
    ensures !AliveAt(rules, x, i + 1, l)
  {
    hide Matches; hide ClearNames; hide KindOf; hide Read; hide IsKube;
  }

  /** After the last rule: stamped from the table, kept by name, and dropped if it is a kube_ series
      whose namespace the clear rule does not match. */
  lemma RunIs(rules: seq<Rule>, x: Shape, envs: Table, keep: seq<string>, l: Labels)
    requires Sound(rules, x, envs, keep) && ValidTable(envs) && ValidKeep(keep) && Normal(l) && TmpKube !in l
    ensures Run(rules, l) ==
            if Get(l, Name) in keep && (IsKube(Get(l, Name)) ==> Cleared(rules[x.clear], l))
            then Some(Set(l, Environment, EnvironmentOf(envs, Get(l, Namespace), Get(l, Environment)))) else None
  {
    SoundBounds(rules, x, envs, keep);
    RunAt(rules, x, envs, keep, |rules|, l);
    assert rules[..|rules|] == rules;
    AtEnd(rules, x, envs, keep, l);
  }

  lemma AtEnd(rules: seq<Rule>, x: Shape, envs: Table, keep: seq<string>, l: Labels)
    requires Sound(rules, x, envs, keep) && ValidTable(envs) && ValidKeep(keep) && TmpKube !in l
    requires x.clear < |rules| && x.keep < |rules| && rules[x.clear].regex.Some?
    ensures At(rules, x, |rules|, l) ==
            if Get(l, Name) in keep && (IsKube(Get(l, Name)) ==> Cleared(rules[x.clear], l))
            then Some(Set(l, Environment, EnvironmentOf(envs, Get(l, Namespace), Get(l, Environment)))) else None
  {
    hide *;
    SoundEnds(rules, x, envs, keep);
    KeepIsList(rules[x.keep], keep, Get(l, Name));
    FinalEnv(rules, x, envs, l);
    EndIs(rules, x, envs, keep, l, EnvironmentOf(envs, Get(l, Namespace), Get(l, Environment)));
  }

  lemma SoundEnds(rules: seq<Rule>, x: Shape, envs: Table, keep: seq<string>)
    requires Sound(rules, x, envs, keep)
    ensures x.guard < |rules| && x.mark < |rules| && x.drop < |rules| && x.clear < |rules| && x.keep < |rules|
    ensures KindOf(rules[x.keep]) == Kept && (forall n :: n in Names(rules[x.keep]) <==> n in keep)
    ensures Read(rules).table == (map ns | ns in envs :: Some(envs[ns]))
  {
  }

  lemma EndIs(rules: seq<Rule>, x: Shape, envs: Table, keep: seq<string>, l: Labels, env: string)
    requires x.mark < |rules| && x.drop < |rules| && x.clear < |rules| && x.keep < |rules| && rules[x.clear].regex.Some?
    requires rules[x.keep].regex.Some? && (Matches(rules[x.keep].regex.value, Get(l, Name)) <==> Get(l, Name) in keep)
    requires env == EnvAt(rules, x, |rules|, l) && TmpKube !in l
    ensures At(rules, x, |rules|, l) ==
            if Get(l, Name) in keep && (IsKube(Get(l, Name)) ==> Cleared(rules[x.clear], l))
            then Some(Set(l, Environment, env)) else None
  {
    hide Cleared; hide IsKube; hide Matches; hide EnvAt;
    assert Mark(l, env, "") == Set(l, Environment, env);
  }

  lemma FinalEnv(rules: seq<Rule>, x: Shape, envs: Table, l: Labels)
    requires x.guard < |rules| && ValidTable(envs)
    requires Read(rules).table == (map ns | ns in envs :: Some(envs[ns]))
    ensures EnvAt(rules, x, |rules|, l) == EnvironmentOf(envs, Get(l, Namespace), Get(l, Environment))
  {
    hide Read; hide Literal;
    assert rules[..|rules|] == rules;
    assert forall v | v in ENV_VALUES :: v != "";
  }

  lemma KeepIsList(r: Rule, keep: seq<string>, name: string)
    requires KindOf(r) == Kept && ValidKeep(keep) && forall n :: n in Names(r) <==> n in keep
    ensures r.regex.Some? && (Matches(r.regex.value, name) <==> name in keep)
  {
    hide KindOf; hide Matches;
    EmptyAlternation();
    EmptyIsNoName();
    if r.regex.Some? { LiteralAlternation(r.regex.value, name); }
  }

  /** The clear rule's regex ends in a newline, which the reading does not see. */
  predicate TrailingNewline(rules: seq<Rule>, x: Shape) {
    x.clear < |rules| && ClearTail(OrEmpty(rules[x.clear].regex)) == "\n"
  }

  lemma ClearedIs(rules: seq<Rule>, x: Shape, envs: Table, keep: seq<string>, l: Labels)
    requires Sound(rules, x, envs, keep)
    ensures !TrailingNewline(rules, x) ==> (Cleared(rules[x.clear], l) <==> Get(l, Namespace) in envs)
    ensures TrailingNewline(rules, x) && Literal(Get(l, Namespace)) ==> !Cleared(rules[x.clear], l)
  {
    hide LastIndexOf; hide Split; hide Matches; hide ClearNames; hide KindOf; hide Read; hide Shaped;
    SoundBounds(rules, x, envs, keep);
    var re, ns := rules[x.clear].regex.value, Get(l, Namespace);
    ClearMatches(re, "drop;" + ns);
    forall n ensures "drop;" + ns == "drop;" + n + "" <==> ns == n {
      assert ("drop;" + ns)[5..] == ns && ("drop;" + n + "")[5..] == n;
    }
    forall n | "drop;" + ns == "drop;" + n + "\n" ensures ns != "" && ns[|ns| - 1] == '\n' {
      assert ("drop;" + ns)[5..] == ns && ("drop;" + n + "\n")[5..] == n + "\n";
    }
    assert ns != "" ==> ns[|ns| - 1] in ns;
  }

  /** The validator is sound exactly when the clear rule's regex has no final newline, or no kept
      name is a kube_ one: then, whatever generator wrote the rules, a list that reads back as the
      sources does to every series what the sources ask. */
  lemma ValidatorSoundIff(rules: seq<Rule>, x: Shape, envs: Table, keep: seq<string>)
    requires Shaped(rules, x) && ValidTable(envs) && ValidKeep(keep) && ReadsAs(rules, envs, keep)
    ensures (forall l: Labels | Normal(l) && TmpKube !in l :: Run(rules, l) == Wanted(envs, keep, l))
            <==> (!TrailingNewline(rules, x) || forall n | n in keep :: !IsKube(n))
  {
    hide *;
    if !TrailingNewline(rules, x) || forall n | n in keep :: !IsKube(n) {
      forall l: Labels | Normal(l) && TmpKube !in l ensures Run(rules, l) == Wanted(envs, keep, l) {
        DoesWhatIsAsked(rules, x, envs, keep, l);
      }
    } else {
      var n :| n in keep && IsKube(n);
      MissesOne(rules, x, envs, keep, n);
    }
  }

  lemma DoesWhatIsAsked(rules: seq<Rule>, x: Shape, envs: Table, keep: seq<string>, l: Labels)
    requires Shaped(rules, x) && ValidTable(envs) && ValidKeep(keep) && ReadsAs(rules, envs, keep) && Normal(l)
    requires TmpKube !in l
    requires !TrailingNewline(rules, x) || forall n | n in keep :: !IsKube(n)
    ensures Run(rules, l) == Wanted(envs, keep, l)
  {
    ReadsAsMeansSound(rules, x, envs, keep);
    SoundBounds(rules, x, envs, keep);
    hide Run; hide Sound; hide Shaped; hide ReadsAs; hide Cleared; hide Literal; hide IsKube; hide TrailingNewline;
    hide EnvironmentOf;
    RunIs(rules, x, envs, keep, l);
    ClearedIs(rules, x, envs, keep, l);
  }

  lemma MissesOne(rules: seq<Rule>, x: Shape, envs: Table, keep: seq<string>, n: string)
    requires Shaped(rules, x) && ValidTable(envs) && ValidKeep(keep) && ReadsAs(rules, envs, keep)
    requires TrailingNewline(rules, x) && n in keep && IsKube(n)
    ensures exists l: Labels :: Normal(l) && TmpKube !in l && Run(rules, l) != Wanted(envs, keep, l)
  {
    var ns :| ns in envs;
    var l: Labels := map[Name := n, Namespace := ns];
    EmptyIsNoName();
    assert n != "" && ns != "" && Literal(ns);
    MissesSeries(rules, x, envs, keep, l);
  }

  /** A mapped kube_ series that is kept by name is dropped. */
  lemma MissesSeries(rules: seq<Rule>, x: Shape, envs: Table, keep: seq<string>, l: Labels)
    requires Shaped(rules, x) && ValidTable(envs) && ValidKeep(keep) && ReadsAs(rules, envs, keep)
    requires TrailingNewline(rules, x) && Normal(l) && TmpKube !in l
    requires Get(l, Name) in keep && IsKube(Get(l, Name)) && Get(l, Namespace) in envs && Literal(Get(l, Namespace))
    ensures Run(rules, l) != Wanted(envs, keep, l)
  {
    ReadsAsMeansSound(rules, x, envs, keep);
    SoundBounds(rules, x, envs, keep);
    hide Run; hide Sound; hide Shaped; hide ReadsAs; hide Cleared; hide Literal; hide IsKube; hide TrailingNewline;
    hide EnvironmentOf; hide ValidTable; hide ValidKeep;
    RunIs(rules, x, envs, keep, l);
    ClearedIs(rules, x, envs, keep, l);
  }
}
