/** What the Alloy scanners skip, said one character at a time: what is code, and which brace closes a body
    (scripts/collectors_check.py _skip_string, _body, blocks). */
module AlloyLexing {
  import opened Options
  import opened Strings
  import opened AlloyText

  // ----- a lexer of one character ----------------------------------------

  datatype Mode = InCode | Quoted | Escape | Raw | Remark

  /** What the character at a position is part of; a remark ends with its line. */
  function ModeAt(text: string, i: nat): Mode
    requires i <= |text|
  {
    if i == 0 then InCode
    else
      var c := text[i - 1];
      match ModeAt(text, i - 1)
      case InCode => if c == '"' then Quoted else if c == '`' then Raw
                     else if c == '/' && i < |text| && text[i] == '/' then Remark else InCode
      case Quoted => if c == '\\' then Escape else if c == '"' then InCode else Quoted
      case Escape => Quoted
      case Raw => if c == '`' then InCode else Raw
      case Remark => if c == '\n' then InCode else Remark
  }

  /** The braces opened less those closed, in code. */
  function DepthAt(text: string, i: nat): int
    requires i <= |text|
  {
    if i == 0 then 0
    else
      DepthAt(text, i - 1) +
      if ModeAt(text, i - 1) != InCode then 0
      else if text[i - 1] == '{' then 1 else if text[i - 1] == '}' then -1 else 0
  }

  /** The first brace to bring the depth back to nothing. */
  ghost predicate ClosesAt(text: string, n: nat) {
    n < |text| && DepthAt(text, n + 1) == 0 && forall j | 0 < j <= n :: DepthAt(text, j) > 0
  }

  // ----- what a scan passes at once --------------------------------------

  ghost predicate Level(text: string, a: nat, b: nat) {
    forall k | a <= k <= b && k <= |text| :: DepthAt(text, k) == DepthAt(text, a)
  }

  lemma {:induction false} QuotedSkips(text: string, j: nat)
    requires j <= |text| && ModeAt(text, j) == Quoted
    ensures Level(text, j, j + SkipString(text[j..], '"'))
    ensures j + SkipString(text[j..], '"') < |text| ==> ModeAt(text, j + SkipString(text[j..], '"')) == InCode
    decreases |text| - j
  {
    if j < |text| {
      assert text[j..][0] == text[j] && text[j..][1..] == text[j + 1..];
      if text[j] == '\\' {
        assert ModeAt(text, j + 1) == Escape;
        if j + 1 < |text| {
          assert text[j..][2..] == text[j + 2..];
          QuotedSkips(text, j + 2);
          assert DepthAt(text, j + 2) == DepthAt(text, j + 1) == DepthAt(text, j);
        }
      } else if text[j] != '"' {
        QuotedSkips(text, j + 1);
      }
    }
  }

  lemma {:induction false} RawSkips(text: string, j: nat)
    requires j <= |text| && ModeAt(text, j) == Raw
    ensures Level(text, j, j + SkipString(text[j..], '`'))
    ensures j + SkipString(text[j..], '`') < |text| ==> ModeAt(text, j + SkipString(text[j..], '`')) == InCode
    decreases |text| - j
  {
    if j < |text| {
      assert text[j..][0] == text[j] && text[j..][1..] == text[j + 1..];
      if text[j] != '`' { RawSkips(text, j + 1); }
    }
  }

  lemma {:induction false} RemarkSkips(text: string, j: nat)
    requires j <= |text| && ModeAt(text, j) == Remark
    ensures Level(text, j, j + IndexOf(text[j..], '\n') + 1)
    ensures j + IndexOf(text[j..], '\n') < |text| ==> ModeAt(text, j + IndexOf(text[j..], '\n') + 1) == InCode
    decreases |text| - j
  {
    if j < |text| {
      assert text[j..][0] == text[j] && text[j..][1..] == text[j + 1..];
      if text[j] != '\n' { RemarkSkips(text, j + 1); }
    }
  }

  /** From code, a literal or a remark ends in code again, at the same depth throughout. */
  lemma TokenSkips(text: string, i: nat, n: nat)
    requires i < |text| && ModeAt(text, i) == InCode
    requires text[i] == '"' || text[i] == '`' ==> n == 1 + SkipString(text[i + 1..], text[i])
    requires text[i] != '"' && text[i] != '`' ==> Comment(text, i) && n == IndexOf(text[i..], '\n') + 1
    ensures Level(text, i, i + n) && (i + n < |text| ==> ModeAt(text, i + n) == InCode)
    ensures i + n <= |text| && text[i] == '/' ==> ModeAt(text, i + n) == InCode
  {
    hide SkipString;
    if text[i] == '"' {
      QuotedSkips(text, i + 1);
    } else if text[i] == '`' {
      RawSkips(text, i + 1);
    } else {
      assert text[i..][1..] == text[i + 1..] && IndexOf(text[i..], '\n') == 1 + IndexOf(text[i + 1..], '\n');
      RemarkSkips(text, i + 1);
    }
  }

  // ----- the brace that closes a body ------------------------------------

  ghost predicate Above(text: string, i: nat) {
    i <= |text| && forall j | 0 < j <= i :: DepthAt(text, j) > 0
  }

  /** What a scan from a position says: the closing brace so far on, or that there is none. */
  ghost predicate Says(text: string, i: nat, m: Option<nat>) {
    if m.Some? then ClosesAt(text, i + m.value) else forall n :: !ClosesAt(text, n)
  }

  lemma SaysShift(text: string, i: nat, n: nat, m: Option<nat>)
    requires Says(text, i + n, m)
    ensures Says(text, i, Shift(n, m))
  {
    hide ClosesAt;
  }

  /** Depths above nothing up to a position, and level from there to the end: no brace closes. */
  lemma NeverCloses(text: string, i: nat, b: nat)
    requires 0 < i <= |text| <= b && Level(text, i, b) && Above(text, i)
    ensures Says(text, i, None)
  {
    hide DepthAt;
    assert forall k | 0 < k <= |text| :: DepthAt(text, k) > 0;
  }

  /** One character of code. */
  lemma CodeStep(text: string, i: nat)
    requires i < |text| && ModeAt(text, i) == InCode && Above(text, i)
    requires text[i] != '"' && text[i] != '`' && !Comment(text, i)
    ensures ModeAt(text, i + 1) == InCode
    ensures DepthAt(text, i + 1) == DepthAt(text, i) + if text[i] == '{' then 1 else if text[i] == '}' then -1 else 0
    ensures DepthAt(text, i + 1) > 0 ==> Above(text, i + 1)
    ensures DepthAt(text, i + 1) == 0 ==> ClosesAt(text, i)
  {
  }

  lemma AtEnd(text: string)
    requires text != "" && Above(text, |text|)
    ensures Says(text, |text|, Close(text[|text|..], DepthAt(text, |text|)))
  {
    NeverCloses(text, |text|, |text|);
  }

  lemma AtStart(text: string)
    ensures DepthAt(text, 0) == 0 && ModeAt(text, 0) == InCode && Above(text, 0)
  {
  }

  /** A scan in code at a position finds the closing brace, or there is none. */
  lemma {:induction false} CloseFrom(text: string, i: nat)
    requires i <= |text| && ModeAt(text, i) == InCode && Above(text, i)
    requires i == 0 ==> text != "" && text[0] == '{'
    requires i > 0 ==> DepthAt(text, i) > 0
    ensures Says(text, i, Close(text[i..], DepthAt(text, i)))
    decreases |text| - i, 1
  {
    hide Close; hide Token; hide SkipString; hide DepthAt; hide ModeAt; hide Above; hide Says; hide ClosesAt;
    hide IndexOf; hide Shift;
    var d := DepthAt(text, i);
    AtStart(text);
    if i == |text| {
      AtEnd(text);
    } else if text[i] == '"' || text[i] == '`' {
      LiteralPasses(text, i);
    } else if Comment(text, i) {
      RemarkPasses(text, i);
    } else {
      CloseAt(text, i, d);
      CodeStep(text, i);
      if text[i] == '}' && d == 1 {
        Found(text, i);
      } else {
        CloseFrom(text, i + 1);
        SaysShift(text, i, 1, Close(text[i + 1..], DepthAt(text, i + 1)));
      }
    }
  }

  lemma Found(text: string, i: nat)
    requires ClosesAt(text, i)
    ensures Says(text, i, Some(0))
  {
    hide ClosesAt;
  }

  lemma {:induction false} LiteralPasses(text: string, i: nat)
    requires 0 < i < |text| && ModeAt(text, i) == InCode && (text[i] == '"' || text[i] == '`') && Above(text, i)
    requires DepthAt(text, i) > 0
    ensures Says(text, i, Close(text[i..], DepthAt(text, i)))
    decreases |text| - i, 0
  {
    hide Close; hide Token; hide SkipString; hide ModeAt; hide DepthAt; hide Above; hide Says; hide Level; hide IndexOf;
    hide Shift;
    var n := 1 + SkipString(text[i + 1..], text[i]);
    CloseAt(text, i, DepthAt(text, i));
    TokenSkips(text, i, n);
    if i + n < |text| {
      AboveLevel(text, i, i + n);
      CloseFrom(text, i + n);
      SaysShift(text, i, n, Close(text[i + n..], DepthAt(text, i)));
    } else {
      NeverCloses(text, i, i + n);
    }
  }

  lemma AboveLevel(text: string, i: nat, b: nat)
    requires 0 < i <= b <= |text| && Level(text, i, b) && Above(text, i) && DepthAt(text, i) > 0
    ensures Above(text, b) && DepthAt(text, b) == DepthAt(text, i)
  {
    hide DepthAt;
  }

  lemma {:induction false} RemarkPasses(text: string, i: nat)
    requires 0 < i < |text| && ModeAt(text, i) == InCode && Comment(text, i) && Above(text, i)
    requires text[i] != '"' && text[i] != '`' && DepthAt(text, i) > 0
    ensures Says(text, i, Close(text[i..], DepthAt(text, i)))
    decreases |text| - i, 0
  {
    hide Close; hide Token; hide SkipString; hide ModeAt; hide DepthAt; hide Above; hide Says; hide Level; hide IndexOf;
    hide Shift;
    var d, n := DepthAt(text, i), IndexOf(text[i..], '\n');
    CloseAt(text, i, d);
    TokenSkips(text, i, n + 1);
    if i + n < |text| {
      assert text[i + n] == text[i..][n] == '\n';
      CloseAt(text, i + n, d);
      AboveLevel(text, i, i + n + 1);
      CloseFrom(text, i + n + 1);
      var m := Close(text[i + n + 1..], d);
      SaysShift(text, i + n, 1, m);
      SaysShift(text, i, n, Shift(1, m));
    } else {
      NeverCloses(text, i, i + n + 1);
    }
  }

  /** _body: the text up to the first brace of code that brings the depth back to nothing; none when there is
      no such brace. */
  lemma BodyIs(text: string, n: nat)
    requires text != "" && text[0] == '{'
    ensures ClosesAt(text, n) ==> n > 0 && Body(text) == Some(text[1..n])
    ensures (forall k :: !ClosesAt(text, k)) <==> Body(text).None?
  {
    assert text[0..] == text && ModeAt(text, 0) == InCode && DepthAt(text, 0) == 0;
    assert DepthAt(text, 1) == 1;
    CloseFrom(text, 0);
    CloseBounds(text, 0);
    hide Close; hide DepthAt; hide ModeAt;
    if ClosesAt(text, n) && Close(text, 0).Some? {
      var m := Close(text, 0).value;
      assert ClosesAt(text, m);
      OneCloser(text, m, n);
    }
  }

  lemma OneCloser(text: string, m: nat, n: nat)
    requires ClosesAt(text, m) && ClosesAt(text, n)
    ensures m == n
  {
    hide DepthAt;
  }

  // ----- blocks ----------------------------------------------------------

  /** A character that makes what follows part of a longer name: an ASCII letter or digit, a dot, an
      underscore. */
  ghost predicate Continues(c: char) {
    65 <= c as int <= 90 || 97 <= c as int <= 122 || 48 <= c as int <= 57 || c == '.' || c == '_'
  }

  /** Of the character before, only that matters. */
  lemma BeforeMatters(a: char, b: char, rest: string, depth: int, name: string)
    requires name != "" && (Continues(a) <==> Continues(b))
    ensures FindBlocks(a, rest, depth, name) == FindBlocks(b, rest, depth, name)
  {
    hide Body; hide Token;
  }

  /** A brace goes one level in or out, and a name may follow it at once. */
  lemma BraceSteps(prev: char, rest: string, depth: int, name: string)
    requires name != ""
    ensures FindBlocks(prev, "{" + rest, depth, name) == FindBlocks(' ', rest, depth + 1, name)
    ensures FindBlocks(prev, "}" + rest, depth, name) == FindBlocks(' ', rest, depth - 1, name)
  {
    hide Body; hide Token;
    assert ("{" + rest)[1..] == rest && ("}" + rest)[1..] == rest;
    BeforeMatters('{', ' ', rest, depth + 1, name);
    BeforeMatters('}', ' ', rest, depth - 1, name);
  }

  /** A raw string is passed whole: what is in it opens no block. */
  lemma RawPassed(prev: char, s: string, rest: string, depth: int, name: string)
    requires name != "" && '`' !in s && rest != ""
    ensures FindBlocks(prev, "`" + s + "`" + rest, depth, name) == FindBlocks(' ', rest, depth, name)
  {
    var all := "`" + s + "`" + rest;
    var n := |s| + 2;
    assert all[1..] == s + ("`" + rest) && all[n..] == rest && all[n - 1] == '`' && all[0] == '`';
    RawLength(s, "`" + rest);
    assert Token(all) == n;
    hide Body; hide Token; hide SkipString;
    BeforeMatters('`', ' ', rest, depth, name);
  }

  lemma {:induction false} RawLength(s: string, rest: string)
    requires '`' !in s && rest != "" && rest[0] == '`'
    ensures SkipString(s + rest, '`') == |s| + 1
  {
    if s == "" {
      assert s + rest == rest;
    } else {
      assert (s + rest)[1..] == s[1..] + rest && s[0] in s;
      RawLength(s[1..], rest);
    }
  }

  // ----- values ----------------------------------------------------------

  /** A raw string's value is its text, as it stands. */
  lemma RawValue(s: string, rest: string)
    requires '`' !in s
    ensures StringToken("`" + s + "`" + rest) == Some(Parsed(s, rest))
  {
    var all := "`" + s + "`" + rest;
    var tail := all[1..];
    assert tail == s + ("`" + rest);
    assert tail[|s|] == '`' && forall i | 0 <= i < |s| :: tail[i] == s[i] && s[i] in s;
    assert IndexOf(tail, '`') == |s|;
    assert all[1..|s| + 1] == s && all[|s| + 2..] == rest;
  }

  /** JSON's one-character escapes, and no other. */
  lemma EscapesAre(c: char)
    ensures Escaped('"') == Some('"') && Escaped('\\') == Some('\\') && Escaped('/') == Some('/')
    ensures Escaped('b') == Some(8 as char) && Escaped('f') == Some(12 as char) && Escaped('n') == Some(10 as char)
    ensures Escaped('r') == Some(13 as char) && Escaped('t') == Some(9 as char)
    ensures c !in {'"', '\\', '/', 'b', 'f', 'n', 'r', 't'} ==> Escaped(c) == None
  {
  }
}
