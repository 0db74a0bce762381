/** Markdown split into code and prose, and prose into paragraphs (scripts/builder_guide.py
    list_content_offset, split_blocks, paragraphs). */
module Markdown {
  import opened Options
  import opened Strings

  // ----- one line --------------------------------------------------------

  /** str.expandtabs(4), from a column on. */
  function ExpandTabs(s: string, column: nat): string {
    if s == "" then ""
    else if s[0] == '\t' then Spaces(4 - column % 4) + ExpandTabs(s[1..], column + 4 - column % 4)
    else [s[0]] + ExpandTabs(s[1..], column + 1)
  }

  /** How many characters, of one kind, a string starts with. */
  function Run(s: string, c: char): (n: nat)
    ensures n <= |s| && (forall i | 0 <= i < n :: s[i] == c) && (n < |s| ==> s[n] != c)
  {
    if s != "" && s[0] == c then 1 + Run(s[1..], c) else 0
  }

  function Digits(s: string): (n: nat)
    ensures n <= |s|
  {
    if s != "" && '0' <= s[0] <= '9' then 1 + Digits(s[1..]) else 0
  }

  function Count(s: string, c: char): nat { if s == "" then 0 else (if s[0] == c then 1 else 0) + Count(s[1..], c) }

  predicate Blank(line: string) { Lead(line) == |line| }

  function Indent(line: string): nat { Lead(ExpandTabs(line, 0)) }

  datatype Fence = Fence(mark: char, length: nat)

  /** `^ {0,3}(`{3,}|~{3,})(.*)$`, and no backquote after an opener of backquotes. */
  function FenceOpen(line: string): Option<Fence> {
    var sp := Run(line, ' ');
    if sp > 3 || sp == |line| then None
    else
      var c := line[sp];
      var n := Run(line[sp..], c);
      if (c == '`' || c == '~') && n >= 3 && !(c == '`' && '`' in line[sp + n..]) then Some(Fence(c, n)) else None
  }

  /** `^ {0,3}([-*_])(\s*\1){2,}\s*$`. */
  predicate Thematic(line: string) {
    var sp := Run(line, ' ');
    && sp <= 3 && sp < |line| && (line[sp] == '-' || line[sp] == '*' || line[sp] == '_')
    && (forall i | sp <= i < |line| :: line[i] == line[sp] || Space(line[i]))
    && Count(line[sp..], line[sp]) >= 3
  }

  /** `^ {0,3}#{1,6}(\s|$)`. */
  predicate Heading(line: string) {
    var sp := Run(line, ' ');
    && sp <= 3
    && var n := Run(line[sp..], '#');
       1 <= n <= 6 && (sp + n == |line| || Space(line[sp + n]))
  }

  /** `^ {0,3}>`. */
  predicate Quoted(line: string) {
    var sp := Run(line, ' ');
    sp <= 3 && sp < |line| && line[sp] == '>'
  }

  /** A list marker's length: a bullet, or up to nine digits and a delimiter. */
  function Marker(s: string): nat {
    if s == "" then 0
    else if s[0] == '-' || s[0] == '*' || s[0] == '+' then 1
    else
      var d := Digits(s);
      if 1 <= d <= 9 && d < |s| && (s[d] == '.' || s[d] == ')') then d + 1 else 0
  }

  /** Where a list item's content starts, or 0 when the line isn't one. */
  function ContentOffset(line: string): nat {
    var e := ExpandTabs(line, 0);
    var lead := Lead(e);
    var m := Marker(e[lead..]);
    if m == 0 || lead + m > |e| || Thematic(line) then 0
    else
      var gap := Lead(e[lead + m..]);
      if gap == 0 && lead + m < |e| then 0
      else lead + m + if gap <= 4 then gap else 1
  }

  function Trail(s: string): (n: nat)
    ensures n <= |s|
  {
    if s != "" && Space(s[|s| - 1]) then 1 + Trail(s[..|s| - 1]) else 0
  }

  function Strip(line: string): string {
    var s := line[Lead(line)..];
    s[..|s| - Trail(s)]
  }

  /** A run of the fence's own mark, at least as long, and nothing else. */
  predicate Closes(line: string, f: Fence) {
    var s := Strip(line);
    s != "" && |s| >= f.length && forall i | 0 <= i < |s| :: s[i] == f.mark
  }

  // ----- the state machine -----------------------------------------------

  datatype State = State(fence: Option<Fence>, since: nat, offset: nat, prevBlank: bool, prevCode: bool)

  datatype Class = Code | Prose | Opener | Closer

  const START := State(None, 0, 0, true, false)

  /** A line outside a fence. */
  function Outside(s: State, line: string, n: nat): (State, Class) {
    var indent := Indent(line);
    var open := if indent < s.offset + 4 then FenceOpen(line) else None;
    if open.Some? then (State(open, n, if indent < s.offset then 0 else s.offset, false, false), Opener)
    else if Blank(line) then (s.(prevBlank := true, prevCode := false), Prose)
    else if Thematic(line) then (s.(offset := 0, prevBlank := true, prevCode := false), Prose)
    else if ContentOffset(line) > 0 && indent < s.offset + 4 && !(s.prevBlank && indent >= 4 && s.offset == 0) then
      (s.(offset := ContentOffset(line), prevBlank := false, prevCode := false), Prose)
    else
      var offset := if s.offset > 0 && s.prevBlank && indent < s.offset then 0 else s.offset;
      if indent >= offset + 4 && (s.prevBlank || s.prevCode) then
        (s.(offset := offset, prevBlank := false, prevCode := true), Code)
      else (s.(offset := offset, prevBlank := Heading(line), prevCode := false), Prose)
  }

  function Step(s: State, line: string, n: nat): (State, Class) {
    if s.fence.None? then Outside(s, line, n)
    else if Closes(line, s.fence.value) && Indent(line) < 4 + s.offset then
      (s.(fence := None, prevBlank := true, prevCode := false), Closer)
    else (s, Code)
  }

  /** The state before a line, and the line's class; line numbers are from 1. */
  function Before(lines: seq<string>, i: nat): State
    requires i <= |lines|
  {
    if i == 0 then START else Step(Before(lines, i - 1), lines[i - 1], i).0
  }

  function ClassOf(lines: seq<string>, i: nat): Class
    requires i < |lines|
  {
    Step(Before(lines, i), lines[i], i + 1).1
  }

  // ----- split_blocks ----------------------------------------------------

  datatype Numbered = Numbered(n: nat, text: string)

  /** The lines of one class among the first `k`, numbered. */
  function Pick(lines: seq<string>, k: nat, c: Class): seq<Numbered>
    requires k <= |lines|
  {
    if k == 0 then []
    else Pick(lines, k - 1, c) + if ClassOf(lines, k - 1) == c then [Numbered(k, lines[k - 1])] else []
  }

  method SplitBlocks(lines: seq<string>) returns (code: seq<Numbered>, prose: seq<Numbered>, unclosed: nat)
    ensures code == Pick(lines, |lines|, Code) && prose == Pick(lines, |lines|, Prose)
    ensures unclosed == if Before(lines, |lines|).fence.Some? then Before(lines, |lines|).since else 0
  {
    hide Indent; hide FenceOpen; hide Blank; hide Thematic; hide ContentOffset; hide Heading; hide Closes;
    code, prose := [], [];
    var fence: Option<Fence> := None;
    var since, offset, prevBlank, prevCode := 0, 0, true, false;
    for k := 0 to |lines|
      invariant Before(lines, k) == State(fence, since, offset, prevBlank, prevCode)
      invariant code == Pick(lines, k, Code) && prose == Pick(lines, k, Prose)
    {
      var line, n := lines[k], k + 1;
      var indent := Indent(line);
      if fence.None? {
        var open := if indent < offset + 4 then FenceOpen(line) else None;
        if open.Some? {
          fence, since := open, n;
          if indent < offset { offset := 0; }
          prevBlank, prevCode := false, false;
          continue;
        }
        if Blank(line) {
          prose := prose + [Numbered(n, line)];
          prevBlank, prevCode := true, false;
          continue;
        }
        if Thematic(line) {
          offset := 0;
          prose := prose + [Numbered(n, line)];
          prevBlank, prevCode := true, false;
          continue;
        }
        var item := ContentOffset(line);
        if item > 0 && indent < offset + 4 && !(prevBlank && indent >= 4 && offset == 0) {
          offset := item;
          prose := prose + [Numbered(n, line)];
          prevBlank, prevCode := false, false;
          continue;
        }
        if offset > 0 && prevBlank && indent < offset { offset := 0; }
        if indent >= offset + 4 && (prevBlank || prevCode) {
          code := code + [Numbered(n, line)];
          prevBlank, prevCode := false, true;
          continue;
        }
        prose := prose + [Numbered(n, line)];
        prevBlank, prevCode := Heading(line), false;
      } else {
        if Closes(line, fence.value) && indent < 4 + offset {
          fence, prevBlank, prevCode := None, true, false;
          continue;
        }
        code := code + [Numbered(n, line)];
      }
    }
    unclosed := if fence.Some? then since else 0;
  }

  // ----- what the split is -----------------------------------------------

  lemma {:induction false} PickNumbers(lines: seq<string>, k: nat, c: Class, a: nat)
    requires k <= |lines| && a < |Pick(lines, k, c)|
    ensures var x := Pick(lines, k, c)[a];
            1 <= x.n <= k && x.text == lines[x.n - 1] && ClassOf(lines, x.n - 1) == c
  {
    hide ClassOf;
    if a < |Pick(lines, k - 1, c)| { PickNumbers(lines, k - 1, c, a); }
  }

  lemma {:induction false} PickHas(lines: seq<string>, k: nat, c: Class, i: nat)
    requires i < k <= |lines| && ClassOf(lines, i) == c
    ensures Numbered(i + 1, lines[i]) in Pick(lines, k, c)
  {
    hide ClassOf;
    if i < k - 1 { PickHas(lines, k - 1, c, i); }
  }

  lemma {:induction false} PickIncreases(lines: seq<string>, k: nat, c: Class, a: nat, b: nat)
    requires k <= |lines| && a < b < |Pick(lines, k, c)|
    ensures Pick(lines, k, c)[a].n < Pick(lines, k, c)[b].n
  {
    hide ClassOf;
    var before := Pick(lines, k - 1, c);
    if b < |before| { PickIncreases(lines, k - 1, c, a, b); } else { PickNumbers(lines, k - 1, c, a); }
  }

  /** A class's list holds exactly its lines, under their own numbers, in order: with one class to a line,
      the lists partition the text but for its fence lines. */
  lemma PickIs(lines: seq<string>, c: Class)
    ensures var r := Pick(lines, |lines|, c);
            && (forall i | 0 <= i < |lines| :: Numbered(i + 1, lines[i]) in r <==> ClassOf(lines, i) == c)
            && (forall a | 0 <= a < |r| :: 1 <= r[a].n <= |lines| && r[a].text == lines[r[a].n - 1])
            && forall a, b | 0 <= a < b < |r| :: r[a].n < r[b].n
  {
    hide ClassOf; hide Pick;
    var r := Pick(lines, |lines|, c);
    forall i | 0 <= i < |lines| ensures Numbered(i + 1, lines[i]) in r <==> ClassOf(lines, i) == c {
      if ClassOf(lines, i) == c {
        PickHas(lines, |lines|, c, i);
      } else if a :| 0 <= a < |r| && r[a] == Numbered(i + 1, lines[i]) {
        PickNumbers(lines, |lines|, c, a);
      }
    }
    forall a | 0 <= a < |r| ensures 1 <= r[a].n <= |lines| && r[a].text == lines[r[a].n - 1] {
      PickNumbers(lines, |lines|, c, a);
    }
    forall a, b | 0 <= a < b < |r| ensures r[a].n < r[b].n { PickIncreases(lines, |lines|, c, a, b); }
  }

  /** The opener of the fence open before a line: no closer since, and everything between is code. */
  ghost predicate OpenSince(lines: seq<string>, o: nat, i: nat)
    requires i <= |lines|
  {
    o < i && ClassOf(lines, o) == Opener && forall j | o < j < i :: ClassOf(lines, j) == Code
  }

  /** What one line does to the fence. */
  lemma StepFence(s: State, line: string, n: nat)
    ensures var (t, c) := Step(s, line, n);
            && (c == Opener ==> s.fence.None? && t.fence.Some? && t.fence == FenceOpen(line) && t.since == n)
            && (c == Closer ==> s.fence.Some? && t.fence.None? && Closes(line, s.fence.value))
            && (c == Code ==> t.fence == s.fence && t.since == s.since)
            && (c == Prose ==> s.fence.None? && t.fence.None?)
  {
    hide Indent; hide FenceOpen; hide Blank; hide Thematic; hide ContentOffset; hide Heading; hide Closes;
  }

  /** A fence is open exactly when an opener has only code after it; it is that one, numbered. */
  lemma {:induction false} FenceIs(lines: seq<string>, i: nat)
    requires i <= |lines|
    ensures var s := Before(lines, i);
            && (s.fence.Some? ==> s.since > 0 && OpenSince(lines, s.since - 1, i))
            && (s.fence.Some? ==> FenceOpen(lines[s.since - 1]) == s.fence)
            && (s.fence.None? ==> forall o | 0 <= o < i :: !OpenSince(lines, o, i))
  {
    hide Outside; hide Step; hide FenceOpen;
    if i > 0 {
      FenceIs(lines, i - 1);
      StepFence(Before(lines, i - 1), lines[i - 1], i);
      assert ClassOf(lines, i - 1) == Step(Before(lines, i - 1), lines[i - 1], i).1;
      assert forall o | 0 <= o < i - 1 && OpenSince(lines, o, i) :: ClassOf(lines, i - 1) == Code;
      assert forall o | 0 <= o < i - 1 && OpenSince(lines, o, i) :: OpenSince(lines, o, i - 1);
    }
  }

  /** The unclosed result: 0 when every opener has its closer, else the last opener's line. */
  lemma UnclosedIs(lines: seq<string>)
    ensures var s, n := Before(lines, |lines|), |lines|;
            var unclosed := if s.fence.Some? then s.since else 0;
            && (unclosed > 0 ==> OpenSince(lines, unclosed - 1, n) &&
                                 forall o | unclosed <= o < n :: ClassOf(lines, o) != Opener)
            && (unclosed == 0 <==> forall o | 0 <= o < n && ClassOf(lines, o) == Opener ::
                                     exists c | o < c < n :: ClassOf(lines, c) == Closer)
  {
    hide ClassOf; hide Before;
    FenceIs(lines, |lines|);
    var s, n := Before(lines, |lines|), |lines|;
    if s.fence.None? {
      forall o | 0 <= o < n && ClassOf(lines, o) == Opener ensures exists c | o < c < n :: ClassOf(lines, c) == Closer {
        LaterCloser(lines, o, n);
      }
    }
  }

  /** After an opener, the first line that is not code closes it. */
  lemma {:induction false} FirstNotCode(lines: seq<string>, o: nat, j: nat)
    requires j < |lines| && OpenSince(lines, o, j) && ClassOf(lines, j) != Code
    ensures ClassOf(lines, j) == Closer
    ensures FenceOpen(lines[o]).Some? && Closes(lines[j], FenceOpen(lines[o]).value)
  {
    hide Indent; hide FenceOpen; hide Blank; hide Thematic; hide ContentOffset; hide Heading; hide Closes;
    FenceIs(lines, j);
    OneOpener(lines, o, Before(lines, j).since - 1, j);
  }

  /** There is at most one open fence. */
  lemma OneOpener(lines: seq<string>, a: int, b: int, i: nat)
    requires i <= |lines| && 0 <= a && OpenSince(lines, a, i)
    requires Before(lines, i).fence.Some? ==> b >= 0 && OpenSince(lines, b, i)
    ensures Before(lines, i).fence.Some? && a == b
  {
    hide ClassOf; hide Before;
    FenceIs(lines, i);
  }

  lemma LaterCloser(lines: seq<string>, o: nat, n: nat)
    requires o < n <= |lines| && ClassOf(lines, o) == Opener && !OpenSince(lines, o, n)
    ensures exists c | o < c < n :: ClassOf(lines, c) == Closer
  {
    hide ClassOf; hide Closes; hide FenceOpen;
    var j := o + 1;
    while j < n && ClassOf(lines, j) == Code
      invariant o < j <= n && OpenSince(lines, o, j)
    {
      j := j + 1;
    }
    FirstNotCode(lines, o, j);
  }

  // ----- paragraphs ------------------------------------------------------

  /** A heading, a thematic break or a table row: a paragraph of its own. */
  predicate Single(line: string) { Heading(line) || Thematic(line) || (Lead(line) < |line| && line[Lead(line)] == '|') }

  predicate Starts(line: string) { Single(line) || Quoted(line) || ContentOffset(line) > 0 }

  function NonBlank(prose: seq<Numbered>): seq<Numbered> {
    if prose == [] then []
    else NonBlank(prose[..|prose| - 1]) + if Blank(prose[|prose| - 1].text) then [] else [prose[|prose| - 1]]
  }

  function Flatten(out: seq<seq<Numbered>>): seq<Numbered> {
    if out == [] then [] else Flatten(out[..|out| - 1]) + out[|out| - 1]
  }

  /** One paragraph: consecutive lines, a line that starts one only first, and a single alone. */
  ghost predicate IsParagraph(p: seq<Numbered>) {
    && p != []
    && (forall i | 0 <= i < |p| - 1 :: p[i + 1].n == p[i].n + 1)
    && (forall i | 1 <= i < |p| :: !Starts(p[i].text))
    && (Single(p[0].text) ==> |p| == 1)
  }

  /** Two paragraphs that could not have been one. */
  ghost predicate Apart(p: seq<Numbered>, q: seq<Numbered>)
    requires p != [] && q != []
  {
    q[0].n != p[|p| - 1].n + 1 || Starts(q[0].text) || Single(p[|p| - 1].text)
  }

  ghost predicate Increasing(prose: seq<Numbered>) { forall i, j | 0 <= i < j < |prose| :: prose[i].n < prose[j].n }

  ghost predicate Paragraphed(out: seq<seq<Numbered>>) {
    && (forall i | 0 <= i < |out| :: IsParagraph(out[i]))
    && forall i | 0 <= i < |out| - 1 :: Apart(out[i], out[i + 1])
  }

  lemma FlattenMore(out: seq<seq<Numbered>>, p: seq<Numbered>)
    ensures Flatten(out + [p]) == Flatten(out) + p
  {
    assert (out + [p])[..|out|] == out;
  }

  function Last(p: seq<Numbered>): Numbered
    requires p != []
  {
    p[|p| - 1]
  }

  /** What is out, and the run if there is one. */
  function All(out: seq<seq<Numbered>>,
               run: seq<Numbered>): seq<seq<Numbered>> { if run == [] then out else out + [run] }

  /** A line may start a paragraph after the last one out. */
  ghost predicate MayStart(out: seq<seq<Numbered>>, x: Numbered) {
    out != [] ==> out[|out| - 1] != [] && Apart(out[|out| - 1], [x])
  }

  /** The loop, `i` lines in: with no run under way, either the last line out was a single, or a blank line
      came after it. */
  ghost predicate Going(prose: seq<Numbered>, i: nat, out: seq<seq<Numbered>>, run: seq<Numbered>)
    requires i <= |prose|
  {
    && Flatten(out) + run == NonBlank(prose[..i]) && Paragraphed(All(out, run))
    && (run != [] ==> i > 0 && Last(run) == prose[i - 1] && !Single(Last(run).text))
    && (run == [] && out != [] ==> i > 0 && out[|out| - 1] != [] && AfterLast(Last(out[|out| - 1]), prose[i - 1]))
  }

  ghost predicate AfterLast(last: Numbered, seen: Numbered) { Single(last.text) || last.n < seen.n }

  /** The paragraphs, in order, are the non-blank prose, each as long as it can be. */
  method Paragraphs(prose: seq<Numbered>) returns (out: seq<seq<Numbered>>)
    requires Increasing(prose)
    ensures Flatten(out) == NonBlank(prose) && Paragraphed(out)
  {
    hide *;
    out := [];
    var run: seq<Numbered> := [];
    GoingStarts(prose);
    for i := 0 to |prose|
      invariant Going(prose, i, out, run)
    {
      var x := prose[i];
      if Blank(x.text) {
        BlankStep(prose, i, out, run);
        out := All(out, run);
        run := [];
        continue;
      }
      LineStep(prose, i, out, run);
      if run != [] && (run[|run| - 1].n != x.n - 1 || Starts(x.text)) {
        out := out + [run];
        run := [];
      }
      run := run + [x];
      if Single(x.text) {
        out := out + [run];
        run := [];
      }
    }
    GoingEnds(prose, out, run);
    out := All(out, run);
  }

  lemma GoingStarts(prose: seq<Numbered>)
    ensures Going(prose, 0, [], [])
  {
  }

  lemma GoingEnds(prose: seq<Numbered>, out: seq<seq<Numbered>>, run: seq<Numbered>)
    requires Going(prose, |prose|, out, run)
    ensures Flatten(All(out, run)) == NonBlank(prose) && Paragraphed(All(out, run))
  {
    assert prose[..|prose|] == prose;
    FlattenMore(out, run);
    assert run == [] ==> Flatten(out) + run == Flatten(out);
  }

  lemma OneMore(prose: seq<Numbered>, i: nat)
    requires i < |prose|
    ensures NonBlank(prose[..i + 1]) == NonBlank(prose[..i]) + if Blank(prose[i].text) then [] else [prose[i]]
  {
    assert prose[..i + 1][..i] == prose[..i];
  }

  lemma BlankStep(prose: seq<Numbered>, i: nat, out: seq<seq<Numbered>>, run: seq<Numbered>)
    requires i < |prose| && Going(prose, i, out, run) && Blank(prose[i].text) && Increasing(prose)
    ensures Going(prose, i + 1, All(out, run), [])
  {
    hide Single; hide Blank; hide Flatten; hide Paragraphed; hide NonBlank;
    OneMore(prose, i);
    FlattenMore(out, run);
    var all := All(out, run);
    assert NonBlank(prose[..i]) + [] == NonBlank(prose[..i]);
    assert Flatten(out) + [] == Flatten(out) && Flatten(all) + [] == Flatten(all);
  }

  lemma LineStep(prose: seq<Numbered>, i: nat, out: seq<seq<Numbered>>, run: seq<Numbered>)
    requires i < |prose| && Going(prose, i, out, run) && !Blank(prose[i].text) && Increasing(prose)
    ensures var x := prose[i];
            var cut := run != [] && (run[|run| - 1].n != x.n - 1 || Starts(x.text));
            var out', run' := if cut then out + [run] else out, (if cut then [] else run) + [x];
            if Single(x.text) then Going(prose, i + 1, out' + [run'], []) else Going(prose, i + 1, out', run')
  {
    hide Single; hide Starts; hide Blank; hide Flatten; hide Paragraphed; hide NonBlank;
    var x := prose[i];
    var cut := run != [] && (run[|run| - 1].n != x.n - 1 || Starts(x.text));
    var out', run' := if cut then out + [run] else out, (if cut then [] else run) + [x];
    OneMore(prose, i);
    if cut { FlattenMore(out, run); }
    assert Flatten(out') + run' == NonBlank(prose[..i + 1]);
    FlattenMore(out', run');
    assert Flatten(out' + [run']) + [] == Flatten(out' + [run']);
    if run != [] && !cut {
      Join(out, run, x);
    } else {
      assert i > 0 ==> prose[i - 1].n < x.n;
      assert MayStart(out', x);
      assert run == [] && !cut ==> out' == All(out, run);
      StartNew(out', x);
      assert [] + [x] == [x] && run' == [x];
    }
  }

  lemma StartNew(out: seq<seq<Numbered>>, x: Numbered)
    requires Paragraphed(out) && MayStart(out, x)
    ensures Paragraphed(out + [[x]])
  {
    hide Single; hide Starts;
    var all := out + [[x]];
    assert forall i | 0 <= i < |out| :: all[i] == out[i];
    assert IsParagraph([x]);
    hide IsParagraph; hide Apart;
    forall i | 0 <= i < |all| ensures IsParagraph(all[i]) {}
  }

  lemma Join(out: seq<seq<Numbered>>, run: seq<Numbered>, x: Numbered)
    requires run != [] && Paragraphed(out + [run]) && Last(run).n == x.n - 1 && !Starts(x.text)
    requires !Single(Last(run).text)
    ensures Paragraphed(out + [run + [x]])
  {
    hide Single; hide Starts;
    var r, was := run + [x], out + [run];
    var all := out + [r];
    assert was[|out|] == run && IsParagraph(run);
    assert run[0].text == r[0].text && (|run| == 1 ==> run[0] == Last(run));
    assert IsParagraph(r);
    assert forall i | 0 <= i < |out| :: all[i] == was[i];
    assert |out| > 0 ==> Apart(was[|out| - 1], was[|out|]);
    assert |out| > 0 ==> Apart(all[|out| - 1], all[|out|]);
    hide IsParagraph; hide Apart;
    forall i | 0 <= i < |all| ensures IsParagraph(all[i]) {}
  }
}
