/** Markdown's lines by their characters, and what makes a line open a fence, close one or be indented code
    (scripts/builder_guide.py). */
module MarkdownShapes {
  import opened Options
  import opened Strings
  import opened Markdown

  // ----- one line, character by character --------------------------------

  ghost predicate SpacesTo(line: string, k: nat) { k <= |line| && forall i | 0 <= i < k :: line[i] == ' ' }

  ghost predicate AllOf(line: string, a: nat, b: nat, c: char) {
    a <= b <= |line| && forall i | a <= i < b :: line[i] == c
  }

  ghost predicate AllSpace(line: string, a: nat, b: nat) {
    a <= b <= |line| && forall i | a <= i < b :: Space(line[i])
  }

  /** At most three spaces, exactly n >= 3 of the mark, and a rest that does not start with it; after
      backquotes, no backquote. */
  ghost predicate FenceAt(line: string, k: nat, c: char, n: nat) {
    && k <= 3 && n >= 3 && (c == '`' || c == '~') && SpacesTo(line, k) && AllOf(line, k, k + n, c)
    && (k + n < |line| ==> line[k + n] != c)
    && (c == '`' ==> forall i | k + n <= i < |line| :: line[i] != '`')
  }

  ghost predicate FenceLine(line: string, c: char, n: nat) { exists k: nat :: FenceAt(line, k, c, n) }

  /** Whitespace, at least as many of the fence's mark as opened it, whitespace. */
  ghost predicate CloseAt(line: string, f: Fence, a: nat, b: nat) {
    AllSpace(line, 0, a) && a < b && b - a >= f.length && AllOf(line, a, b, f.mark) && AllSpace(line, b, |line|)
  }

  /** At most three spaces, then nothing but one of -, * and _ and whitespace, the mark three times or more. */
  ghost predicate BreakAt(line: string, k: nat, p: nat, q: nat) {
    && k <= 3 && SpacesTo(line, k) && k < p < q < |line|
    && (line[k] == '-' || line[k] == '*' || line[k] == '_') && line[p] == line[k] && line[q] == line[k]
    && forall i | k <= i < |line| :: line[i] == line[k] || Space(line[i])
  }

  ghost predicate BreakLine(line: string) { exists k: nat, p: nat, q: nat :: BreakAt(line, k, p, q) }

  /** At most three spaces, one to six #, then whitespace or the end. */
  ghost predicate HeadingAt(line: string, k: nat, n: nat) {
    && k <= 3 && 1 <= n <= 6 && SpacesTo(line, k) && AllOf(line, k, k + n, '#')
    && (k + n < |line| ==> Space(line[k + n]))
  }

  ghost predicate HeadingLine(line: string) { exists k: nat, n: nat :: HeadingAt(line, k, n) }

  /** A bullet, or one to nine digits and a delimiter. */
  ghost predicate MarkerAt(e: string, a: nat, m: nat) {
    && a + m <= |e| && m >= 1
    && if m == 1 then e[a] == '-' || e[a] == '*' || e[a] == '+'
       else m <= 10 && (forall i | a <= i < a + m - 1 :: '0' <= e[i] <= '9')
            && (e[a + m - 1] == '.' || e[a + m - 1] == ')')
  }

  /** Whitespace, a marker, and a gap of whitespace, which only the line's end may spare. */
  ghost predicate ItemAt(e: string, a: nat, m: nat, g: nat) {
    && AllSpace(e, 0, a) && MarkerAt(e, a, m) && AllSpace(e, a + m, a + m + g)
    && (a + m + g < |e| ==> g > 0 && !Space(e[a + m + g]))
  }

  // ----- tabs ------------------------------------------------------------

  /** The column after the first k characters: a tab goes on to the next multiple of four. */
  function Column(s: string, from: nat, k: nat): nat
    requires k <= |s|
  {
    if k == 0 then from
    else
      var c := Column(s, from, k - 1);
      if s[k - 1] == '\t' then TabStop(c) else c + 1
  }

  /** The next multiple of four. */
  function TabStop(c: nat): (r: nat)
    ensures c < r <= c + 4 && r % 4 == 0
  {
    (c / 4 + 1) * 4
  }

  lemma Expands(s: string, from: nat)
    requires s != ""
    ensures ExpandTabs(s, from) ==
            (if s[0] == '\t' then Spaces(TabStop(from) - from) else [s[0]]) +
            ExpandTabs(s[1..], Column(s, from, 1))
    ensures Column(s, from, 1) == (if s[0] == '\t' then TabStop(from) else from + 1)
  {
    assert Column(s, from, 0) == from;
    assert TabStop(from) == from + 4 - from % 4;
  }

  lemma {:induction false} ColumnShift(s: string, from: nat, k: nat)
    requires s != "" && k < |s|
    ensures Column(s, from, k + 1) == Column(s[1..], Column(s, from, 1), k)
  {
    if k > 0 { ColumnShift(s, from, k - 1); }
    assert Column(s, from, 0) == from;
  }

  lemma {:induction false} ColumnGrows(s: string, from: nat, a: nat, b: nat)
    requires a <= b <= |s|
    ensures Column(s, from, a) + b - a <= Column(s, from, b)
    decreases b
  {
    if a < b { ColumnGrows(s, from, a, b - 1); }
  }

  lemma {:induction false} ExpandedLength(s: string, from: nat)
    ensures |ExpandTabs(s, from)| == Column(s, from, |s|) - from
    decreases |s|
  {
    if s != "" {
      Expands(s, from);
      hide ExpandTabs; hide TabStop;
      ExpandedLength(s[1..], Column(s, from, 1));
      ColumnShift(s, from, |s| - 1);
    } else {
      assert Column(s, from, 0) == from;
    }
  }

  lemma ColumnStarts(s: string, from: nat)
    ensures Column(s, from, 0) == from
  {
  }

  /** expandtabs: character k fills the columns from its own up to the next one's, a tab with spaces. */
  lemma {:induction false} ExpandTabsIs(s: string, from: nat, k: nat, j: nat)
    requires k < |s| && Column(s, from, k) <= from + j < Column(s, from, k + 1)
    ensures j < |ExpandTabs(s, from)| && ExpandTabs(s, from)[j] == if s[k] == '\t' then ' ' else s[k]
    decreases |s|
  {
    hide ExpandTabs; hide TabStop; hide Column;
    var next := Column(s, from, 1);
    Expands(s, from);
    ColumnStarts(s, from);
    var first := if s[0] == '\t' then Spaces(TabStop(from) - from) else [s[0]];
    var rest := ExpandTabs(s[1..], next);
    assert ExpandTabs(s, from) == first + rest;
    if k > 0 {
      ColumnShift(s, from, k - 1);
      ColumnShift(s, from, k);
      ColumnGrows(s[1..], next, 0, k - 1);
      ColumnStarts(s[1..], next);
      ExpandTabsIs(s[1..], next, k - 1, from + j - next);
      assert (first + rest)[j] == rest[j - |first|];
    } else {
      assert (first + rest)[j] == first[j];
    }
  }

  lemma LeadIs(s: string, n: nat)
    requires AllSpace(s, 0, n) && (n < |s| ==> !Space(s[n]))
    ensures Lead(s) == n
  {
    hide Space;
  }

  lemma LeadAfter(first: string, rest: string)
    requires AllSpace(first, 0, |first|)
    ensures Lead(first + rest) == |first| + Lead(rest)
  {
    hide Space;
    var s, n := first + rest, |first| + Lead(rest);
    assert forall i | |first| <= i < n :: s[i] == rest[i - |first|];
    assert n < |s| ==> s[n] == rest[Lead(rest)];
    LeadIs(s, n);
  }

  lemma {:induction false} IndentFrom(s: string, from: nat)
    ensures Lead(ExpandTabs(s, from)) == Column(s, from, Lead(s)) - from
    decreases |s|
  {
    if s != "" && Space(s[0]) {
      var next := Column(s, from, 1);
      Expands(s, from);
      var first := if s[0] == '\t' then Spaces(TabStop(from) - from) else [s[0]];
      IndentFrom(s[1..], next);
      ColumnShift(s, from, Lead(s) - 1);
      LeadAfter(first, ExpandTabs(s[1..], next));
    } else {
      assert Column(s, from, 0) == from;
    }
  }

  /** The indent is the column of the first character that is no whitespace. */
  lemma IndentIs(line: string, k: nat)
    requires AllSpace(line, 0, k) && (k < |line| ==> !Space(line[k]))
    ensures Indent(line) == Column(line, 0, k)
  {
    IndentFrom(line, 0);
    assert Lead(line) == k;
  }

  lemma {:induction false} ColumnPlain(line: string, k: nat)
    requires k <= |line| && forall i | 0 <= i < k :: line[i] != '\t'
    ensures Column(line, 0, k) == k
  {
    if k > 0 { ColumnPlain(line, k - 1); }
  }

  /** Four columns in: four characters of whitespace, or a tab among the first four of it. */
  ghost predicate Indented(line: string) {
    || AllSpace(line, 0, 4)
    || exists t: nat :: t < 4 && t < |line| && AllSpace(line, 0, t) && line[t] == '\t'
  }

  lemma TabColumn(line: string, t: nat)
    requires t < |line| && line[t] == '\t'
    ensures Column(line, 0, t + 1) >= 4
  {
  }

  lemma FirstTab(line: string, t: nat)
    requires t < |line| && AllSpace(line, 0, t) && line[t] == '\t'
    ensures Indent(line) >= 4
  {
    hide TabStop; hide Column; hide Lead; hide ExpandTabs;
    IndentFrom(line, 0);
    assert t < Lead(line);
    TabColumn(line, t);
    ColumnGrows(line, 0, t + 1, Lead(line));
  }

  lemma NoFirstTab(line: string)
    requires !Indented(line)
    ensures Indent(line) < 4
  {
    hide TabStop; hide Column; hide Lead; hide ExpandTabs;
    var k := Lead(line);
    IndentFrom(line, 0);
    assert AllSpace(line, 0, k);
    assert k < 4;
    forall t | 0 <= t < k ensures line[t] != '\t' { assert AllSpace(line, 0, t); }
    ColumnPlain(line, k);
  }

  lemma IndentedIff(line: string)
    ensures Indent(line) >= 4 <==> Indented(line)
  {
    hide Indent; hide Lead;
    if !Indented(line) {
      NoFirstTab(line);
    } else if t: nat :| t < 4 && t < |line| && AllSpace(line, 0, t) && line[t] == '\t' {
      FirstTab(line, t);
    } else {
      FourSpaces(line);
    }
  }

  lemma FourSpaces(line: string)
    requires AllSpace(line, 0, 4)
    ensures Indent(line) >= 4
  {
    IndentFrom(line, 0);
    ColumnGrows(line, 0, 0, Lead(line));
  }

  // ----- each line's shape -----------------------------------------------

  lemma RunIs(s: string, a: nat, b: nat, c: char)
    requires AllOf(s, a, b, c) && (b < |s| ==> s[b] != c)
    ensures Run(s[a..], c) == b - a
  {
    var r := s[a..];
    assert forall i | 0 <= i < |r| :: r[i] == s[a + i];
  }

  lemma FenceOpens(line: string, f: Fence)
    requires FenceOpen(line) == Some(f)
    ensures FenceLine(line, f.mark, f.length)
  {
    var sp, n := Run(line, ' '), f.length;
    assert forall i | sp <= i < |line| :: line[i] == line[sp..][i - sp];
    assert forall i | sp + n <= i < |line| :: line[i] == line[sp + n..][i - sp - n];
    assert FenceAt(line, sp, f.mark, n);
  }

  lemma FenceOpensAt(line: string, k: nat, c: char, n: nat)
    requires FenceAt(line, k, c, n)
    ensures FenceOpen(line) == Some(Fence(c, n))
  {
    hide Run;
    assert line[k] == c;
    assert line[0..] == line;
    RunIs(line, 0, k, ' ');
    RunIs(line, k, k + n, c);
    var rest := line[k + n..];
    assert forall i | 0 <= i < |rest| :: rest[i] == line[k + n + i];
  }

  /** A fence opens on exactly that shape, with that mark and length. */
  lemma FenceOpenIff(line: string, c: char, n: nat)
    ensures FenceOpen(line) == Some(Fence(c, n)) <==> FenceLine(line, c, n)
  {
    hide FenceOpen; hide FenceAt;
    if FenceOpen(line) == Some(Fence(c, n)) {
      FenceOpens(line, Fence(c, n));
    }
    if k: nat :| FenceAt(line, k, c, n) {
      FenceOpensAt(line, k, c, n);
    }
  }

  lemma {:induction false} TrailIs(s: string, n: nat)
    requires n <= |s| && AllSpace(s, |s| - n, |s|) && (n < |s| ==> !Space(s[|s| - n - 1]))
    ensures Trail(s) == n
  {
    if n > 0 { TrailIs(s[..|s| - 1], n - 1); }
  }

  lemma {:induction false} TrailSpaces(s: string)
    ensures AllSpace(s, |s| - Trail(s), |s|) && (Trail(s) < |s| ==> !Space(s[|s| - Trail(s) - 1]))
  {
    if s != "" && Space(s[|s| - 1]) { TrailSpaces(s[..|s| - 1]); }
  }

  lemma ClosesOn(line: string, f: Fence)
    requires Closes(line, f)
    ensures exists a: nat, b: nat :: CloseAt(line, f, a, b)
  {
    hide Space; hide Trail; hide Lead;
    var a := Lead(line);
    var s := line[a..];
    TrailSpaces(s);
    var n := |s| - Trail(s);
    var t := Strip(line);
    assert t == s[..n];
    forall i | a <= i < a + n ensures line[i] == f.mark { assert line[i] == s[i - a] == t[i - a]; }
    forall i | a + n <= i < |line| ensures Space(line[i]) { assert line[i] == s[i - a]; }
    assert CloseAt(line, f, a, a + n);
  }

  lemma ClosesAt(line: string, f: Fence, a: nat, b: nat)
    requires CloseAt(line, f, a, b) && !Space(f.mark)
    ensures Closes(line, f)
  {
    hide Space; hide Trail; hide Lead;
    assert line[a] == f.mark && line[b - 1] == f.mark;
    LeadIs(line, a);
    var s := line[a..];
    assert s[b - a - 1] == line[b - 1];
    forall i | b - a <= i < |s| ensures Space(s[i]) { assert s[i] == line[a + i]; }
    TrailIs(s, |line| - b);
    var t := s[..b - a];
    assert Strip(line) == t;
    forall i | 0 <= i < |t| ensures t[i] == f.mark { assert t[i] == line[a + i]; }
  }

  /** A fence closes on exactly that shape. */
  lemma ClosesIff(line: string, f: Fence)
    requires !Space(f.mark)
    ensures Closes(line, f) <==> exists a: nat, b: nat :: CloseAt(line, f, a, b)
  {
    hide Space; hide CloseAt; hide Closes;
    if Closes(line, f) {
      ClosesOn(line, f);
    }
    if a: nat, b: nat :| CloseAt(line, f, a, b) {
      ClosesAt(line, f, a, b);
    }
  }

  lemma {:induction false} CountOne(s: string, c: char)
    ensures Count(s, c) >= 1 <==> exists i | 0 <= i < |s| :: s[i] == c
  {
    if s != "" {
      CountOne(s[1..], c);
      assert forall i | 1 <= i < |s| :: s[i] == s[1..][i - 1];
      if s[0] != c && Count(s, c) >= 1 {
        var i :| 0 <= i < |s[1..]| && s[1..][i] == c;
        assert s[i + 1] == c;
      }
    }
  }

  lemma {:induction false} CountTwo(s: string, c: char)
    ensures Count(s, c) >= 2 <==> exists i, j | 0 <= i < j < |s| :: s[i] == c && s[j] == c
  {
    if s != "" {
      var r := s[1..];
      assert forall i | 0 <= i < |r| :: r[i] == s[i + 1];
      CountOne(r, c);
      CountTwo(r, c);
      if Count(s, c) >= 2 {
        if s[0] == c {
          var j :| 0 <= j < |r| && r[j] == c;
          assert s[j + 1] == c;
        } else {
          var i, j :| 0 <= i < j < |r| && r[i] == c && r[j] == c;
          assert s[i + 1] == c && s[j + 1] == c;
        }
      }
      if i, j :| 0 <= i < j < |s| && s[i] == c && s[j] == c {
        assert r[j - 1] == c;
        assert i > 0 ==> r[i - 1] == c;
      }
    }
  }

  lemma CountAfter(line: string, k: nat)
    requires k < |line|
    ensures Count(line[k..], line[k]) >= 3 <==>
            exists p, q | k < p < q < |line| :: line[p] == line[k] && line[q] == line[k]
  {
    var c, r := line[k], line[k + 1..];
    assert line[k..][1..] == r && line[k..][0] == c;
    assert Count(line[k..], c) == 1 + Count(r, c);
    CountTwo(r, c);
    hide Count;
    if i, j :| 0 <= i < j < |r| && r[i] == c && r[j] == c {
      assert line[k + 1 + i] == c && line[k + 1 + j] == c;
    }
    if p, q :| k < p < q < |line| && line[p] == c && line[q] == c {
      assert r[p - k - 1] == c && r[q - k - 1] == c;
    }
  }

  lemma ThematicIff(line: string)
    ensures Thematic(line) <==> BreakLine(line)
  {
    hide Space; hide Count;
    var sp := Run(line, ' ');
    if sp < |line| { CountAfter(line, sp); }
    if Thematic(line) {
      var p, q :| sp < p < q < |line| && line[p] == line[sp] && line[q] == line[sp];
      assert BreakAt(line, sp, p, q);
    }
    if k: nat, p: nat, q: nat :| BreakAt(line, k, p, q) {
      assert sp == k;
    }
  }

  lemma HeadingOn(line: string)
    requires Heading(line)
    ensures HeadingLine(line)
  {
    hide Space; hide Run;
    var sp := Run(line, ' ');
    var r := line[sp..];
    var n := Run(r, '#');
    forall i | sp <= i < sp + n ensures line[i] == '#' { assert line[i] == r[i - sp]; }
    assert HeadingAt(line, sp, n);
  }

  lemma HeadingsAt(line: string, k: nat, n: nat)
    requires HeadingAt(line, k, n)
    ensures Heading(line)
  {
    hide Run;
    assert line[k] == '#' && line[0..] == line;
    assert k + n < |line| ==> line[k + n] != '#';
    RunIs(line, 0, k, ' ');
    RunIs(line, k, k + n, '#');
  }

  lemma HeadingIff(line: string)
    ensures Heading(line) <==> HeadingLine(line)
  {
    hide Heading; hide HeadingAt;
    if Heading(line) { HeadingOn(line); }
    if k: nat, n: nat :| HeadingAt(line, k, n) { HeadingsAt(line, k, n); }
  }

  lemma QuotedIff(line: string)
    ensures Quoted(line) <==> exists k: nat :: k <= 3 && k < |line| && SpacesTo(line, k) && line[k] == '>'
  {
    var sp := Run(line, ' ');
    if Quoted(line) { assert SpacesTo(line, sp); }
  }

  lemma BlankIff(line: string)
    ensures Blank(line) <==> AllSpace(line, 0, |line|)
  {
  }

  // ----- list items ------------------------------------------------------

  lemma {:induction false} DigitsAre(s: string)
    ensures var d := Digits(s);
            (forall i | 0 <= i < d :: '0' <= s[i] <= '9') && (d < |s| ==> !('0' <= s[d] <= '9'))
  {
    if s != "" && '0' <= s[0] <= '9' {
      DigitsAre(s[1..]);
      var d := Digits(s);
      assert forall i | 1 <= i < d :: s[i] == s[1..][i - 1];
      assert d < |s| ==> s[d] == s[1..][d - 1];
    }
  }

  lemma MarkerIff(e: string, a: nat, m: nat)
    requires a <= |e| && m > 0
    ensures Marker(e[a..]) == m <==> MarkerAt(e, a, m)
  {
    var s := e[a..];
    DigitsAre(s);
    hide Digits;
    assert forall i | 0 <= i < |s| :: s[i] == e[a + i];
    assert forall i | a <= i < |e| :: e[i] == s[i - a];
    if MarkerAt(e, a, m) && m > 1 {
      assert s[0] == e[a] && s[m - 1] == e[a + m - 1];
      assert Digits(s) == m - 1;
    }
  }

  lemma ItemGives(e: string, a: nat, m: nat, g: nat)
    requires ItemAt(e, a, m, g)
    ensures Lead(e) == a && Marker(e[a..]) == m && Lead(e[a + m..]) == g
  {
    assert !Space(e[a]);
    LeadIs(e, a);
    MarkerIff(e, a, m);
    var r := e[a + m..];
    assert forall i | 0 <= i < |r| :: r[i] == e[a + m + i];
    LeadIs(r, g);
  }

  lemma ItemFound(e: string, a: nat, m: nat, g: nat)
    requires a == Lead(e) && m == Marker(e[a..]) && m > 0 && a + m <= |e|
    requires g == Lead(e[a + m..]) && (g > 0 || a + m == |e|)
    ensures ItemAt(e, a, m, g)
  {
    hide Space; hide Marker; hide MarkerAt; hide Lead;
    MarkerIff(e, a, m);
    var r := e[a + m..];
    forall i | a + m <= i < a + m + g ensures Space(e[i]) { assert e[i] == r[i - a - m]; }
    assert a + m + g < |e| ==> e[a + m + g] == r[g];
  }

  /** The content starts after the marker and a gap of up to four, or one when the gap is wider. */
  function ItemOffset(a: nat, m: nat, g: nat): nat { a + m + if g <= 4 then g else 1 }

  /** A list item is exactly that shape, tabs expanded, and no thematic break. */
  lemma ContentOffsetIff(line: string, offset: nat)
    requires offset > 0
    ensures ContentOffset(line) == offset <==>
            && !BreakLine(line)
            && exists a: nat, m: nat, g: nat :: ItemAt(ExpandTabs(line, 0), a, m, g) && offset == ItemOffset(a, m, g)
  {
    hide BreakLine; hide ExpandTabs; hide ItemAt; hide Marker; hide Lead; hide ContentOffset;
    var e := ExpandTabs(line, 0);
    if ContentOffset(line) == offset {
      OffsetIsItem(line, offset);
    }
    if !BreakLine(line) {
      if a: nat, m: nat, g: nat :| ItemAt(e, a, m, g) && offset == ItemOffset(a, m, g) {
        ItemIsOffset(line, a, m, g);
      }
    }
  }

  lemma OffsetIsItem(line: string, offset: nat)
    requires ContentOffset(line) == offset > 0
    ensures !BreakLine(line)
    ensures exists a: nat, m: nat, g: nat :: ItemAt(ExpandTabs(line, 0), a, m, g) && offset == ItemOffset(a, m, g)
  {
    hide BreakLine; hide Thematic; hide ExpandTabs; hide ItemAt; hide Marker; hide Lead;
    ThematicIff(line);
    var e := ExpandTabs(line, 0);
    MarkerFits(e);
    var a := Lead(e);
    var m := Marker(e[a..]);
    ItemFound(e, a, m, Lead(e[a + m..]));
  }

  lemma ItemIsOffset(line: string, a: nat, m: nat, g: nat)
    requires !BreakLine(line) && ItemAt(ExpandTabs(line, 0), a, m, g)
    ensures ContentOffset(line) == ItemOffset(a, m, g)
  {
    hide BreakLine; hide Thematic; hide ExpandTabs; hide ItemAt; hide Marker; hide Lead;
    ThematicIff(line);
    ItemGives(ExpandTabs(line, 0), a, m, g);
    ItemFits(ExpandTabs(line, 0), a, m, g);
  }

  lemma MarkerFits(e: string)
    ensures Lead(e) + Marker(e[Lead(e)..]) <= |e|
  {
    MarkerIff(e, Lead(e), if Marker(e[Lead(e)..]) > 0 then Marker(e[Lead(e)..]) else 1);
  }

  lemma ItemFits(e: string, a: nat, m: nat, g: nat)
    requires ItemAt(e, a, m, g)
    ensures m > 0 && a + m <= |e| && (g == 0 ==> a + m == |e|)
  {
  }

  /** Which lines are a paragraph of their own, and which start one. */
  lemma StartsIff(line: string)
    ensures Single(line) <==> || HeadingLine(line) || BreakLine(line)
                              || exists k: nat :: k < |line| && AllSpace(line, 0, k) && line[k] == '|'
    ensures Starts(line) <==> || Single(line) || ContentOffset(line) > 0
                              || exists k: nat :: k <= 3 && k < |line| && SpacesTo(line, k) && line[k] == '>'
  {
    HeadingIff(line);
    ThematicIff(line);
    QuotedIff(line);
    hide Heading; hide Thematic; hide Quoted; hide HeadingLine; hide BreakLine; hide ContentOffset;
    var k := Lead(line);
    assert AllSpace(line, 0, k);
  }
}
