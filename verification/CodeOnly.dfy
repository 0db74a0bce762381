/** Alloy text with its comments and string contents blanked (scripts/pipelines_check.py code_only),
    against a lexer that reads one character at a time. */
module CodeOnly {
  import opened Strings

  function BlankOf(c: char): char { if c == '\n' then c else ' ' }

  /** re.sub of every character but a newline. */
  function Blank(s: string): (r: string)
    ensures |r| == |s| && forall i | 0 <= i < |s| :: r[i] == BlankOf(s[i])
  {
    seq(|s|, i requires 0 <= i < |s| => BlankOf(s[i]))
  }

  predicate At(s: string, i: nat, a: char, b: char) { i + 1 < |s| && s[i] == a && s[i + 1] == b }

  // ----- the reference: one character at a time --------------------------

  datatype Mode = Code | Str(quote: char) | Escaped | Line | Block

  /** The text from a position on, lexed in a mode. */
  function Lex(s: string, k: nat, m: Mode): (r: string)
    requires k <= |s|
    ensures |r| == |s| - k
    decreases |s| - k
  {
    if k == |s| then ""
    else
      var c := s[k];
      match m
      case Code =>
        if c == '"' || c == '`' then [c] + Lex(s, k + 1, Str(c))
        else if At(s, k, '/', '/') then [' '] + Lex(s, k + 1, Line)
        else if At(s, k, '/', '*') then [' ', ' '] + Lex(s, k + 2, Block)
        else [c] + Lex(s, k + 1, Code)
      case Str(q) =>
        if c == q then [c] + Lex(s, k + 1, Code)
        else if q == '"' && c == '\\' then [' '] + Lex(s, k + 1, Escaped)
        else [BlankOf(c)] + Lex(s, k + 1, Str(q))
      case Escaped => [BlankOf(c)] + Lex(s, k + 1, Str('"'))
      case Line => if c == '\n' then [c] + Lex(s, k + 1, Code) else [' '] + Lex(s, k + 1, Line)
      case Block =>
        if At(s, k, '*', '/') then [' ', ' '] + Lex(s, k + 2, Code) else [BlankOf(c)] + Lex(s, k + 1, Block)
  }

  /** Whether the text ends inside a string. */
  predicate Open(s: string, k: nat, m: Mode)
    requires k <= |s|
    decreases |s| - k
  {
    if k == |s| then m.Str? || m.Escaped?
    else
      var c := s[k];
      match m
      case Code =>
        if c == '"' || c == '`' then Open(s, k + 1, Str(c))
        else if At(s, k, '/', '/') then Open(s, k + 1, Line)
        else if At(s, k, '/', '*') then Open(s, k + 2, Block)
        else Open(s, k + 1, Code)
      case Str(q) =>
        if c == q then Open(s, k + 1, Code)
        else if q == '"' && c == '\\' then Open(s, k + 1, Escaped)
        else Open(s, k + 1, Str(q))
      case Escaped => Open(s, k + 1, Str('"'))
      case Line => if c == '\n' then Open(s, k + 1, Code) else Open(s, k + 1, Line)
      case Block => if At(s, k, '*', '/') then Open(s, k + 2, Code) else Open(s, k + 1, Block)
  }

  // ----- where the scanner's chunks end ----------------------------------

  /** The index of a string's closing quote; past the end when it has none. */
  function Quote(s: string, k: nat, q: char): (e: nat)
    ensures k <= |s| ==> k <= e && (e < |s| ==> s[e] == q)
    decreases |s| - k
  {
    if k >= |s| || s[k] == q then k
    else Quote(s, if q == '"' && s[k] == '\\' then k + 2 else k + 1, q)
  }

  /** text.find of a newline, or the end. */
  function EndOfLine(s: string, k: nat): (e: nat)
    requires k <= |s|
    ensures k <= e <= |s|
    decreases |s| - k
  {
    if k == |s| || s[k] == '\n' then k else EndOfLine(s, k + 1)
  }

  /** Past text.find of a comment's end, or the end. */
  function EndOfBlock(s: string, k: nat): (e: nat)
    requires k <= |s|
    ensures k <= e <= |s|
    decreases |s| - k
  {
    if k == |s| then k else if At(s, k, '*', '/') then k + 2 else EndOfBlock(s, k + 1)
  }

  method FindQuote(s: string, k: nat, q: char) returns (e: nat)
    requires k <= |s|
    ensures e == Quote(s, k, q)
  {
    e := k;
    while e < |s| && s[e] != q
      invariant k <= e && Quote(s, e, q) == Quote(s, k, q)
      decreases |s| - e
    {
      e := e + if q == '"' && s[e] == '\\' then 2 else 1;
    }
  }

  method FindEndOfLine(s: string, k: nat) returns (e: nat)
    requires k <= |s|
    ensures e == EndOfLine(s, k)
  {
    e := k;
    while e < |s| && s[e] != '\n'
      invariant k <= e <= |s| && EndOfLine(s, e) == EndOfLine(s, k)
    {
      e := e + 1;
    }
  }

  method FindEndOfBlock(s: string, k: nat) returns (e: nat)
    requires k <= |s|
    ensures e == EndOfBlock(s, k)
  {
    e := k;
    while e < |s| && !At(s, e, '*', '/')
      invariant k <= e <= |s| && EndOfBlock(s, e) == EndOfBlock(s, k)
    {
      e := e + 1;
    }
    if e < |s| { e := e + 2; }
  }

  // ----- chunks are what the lexer does ----------------------------------

  /** One character of a string, an escape with what it escapes. */
  lemma StringStep(s: string, k: nat, q: char)
    requires k < |s| && s[k] != q && (q == '"' || q == '`')
    ensures var step := if q == '"' && s[k] == '\\' then 2 else 1;
            && (k + step <= |s| ==> Lex(s, k, Str(q)) == Blank(s[k..k + step]) + Lex(s, k + step, Str(q)) &&
                                    Open(s, k, Str(q)) == Open(s, k + step, Str(q)))
            && (k + step > |s| ==> Lex(s, k, Str(q)) == Blank(s[k..]) && Open(s, k, Str(q)))
  {
    if q == '"' && s[k] == '\\' {
      assert Lex(s, k, Str(q)) == [' '] + Lex(s, k + 1, Escaped);
      if k + 1 < |s| {
        assert Lex(s, k + 1, Escaped) == [BlankOf(s[k + 1])] + Lex(s, k + 2, Str(q));
        assert Blank(s[k..k + 2]) == [' ', BlankOf(s[k + 1])];
      }
    } else {
      assert Blank(s[k..k + 1]) == [BlankOf(s[k])];
    }
  }

  lemma StringEnds(s: string, k: nat, q: char)
    requires k <= |s| && (k < |s| ==> s[k] == q)
    ensures k < |s| ==> Lex(s, k, Str(q)) == [q] + Lex(s, k + 1, Code) && Open(s, k, Str(q)) == Open(s, k + 1, Code)
    ensures k == |s| ==> Lex(s, k, Str(q)) == "" && Open(s, k, Str(q))
  {
  }

  lemma BlankSplit(s: string, k: nat, j: nat, e: nat)
    requires k <= j <= e <= |s|
    ensures Blank(s[k..e]) == Blank(s[k..j]) + Blank(s[j..e])
  {
  }

  lemma QuoteStep(s: string, k: nat, q: char)
    requires k < |s| && s[k] != q
    ensures Quote(s, k, q) == Quote(s, if q == '"' && s[k] == '\\' then k + 2 else k + 1, q)
  {
  }

  lemma QuotePast(s: string, k: nat, q: char)
    requires k >= |s| || s[k] == q
    ensures Quote(s, k, q) == k
  {
  }

  /** What is after a string's last character is lexed as code. */
  lemma {:induction false} StringChunk(s: string, k: nat, q: char)
    requires k <= |s| && (q == '"' || q == '`') && Quote(s, k, q) < |s|
    ensures var e := Quote(s, k, q);
            && Lex(s, k, Str(q)) == Blank(s[k..e]) + ([q] + Lex(s, e + 1, Code))
            && Open(s, k, Str(q)) == Open(s, e + 1, Code)
    decreases |s| - k
  {
    hide Lex; hide Open; hide Blank; hide Quote;
    QuotePast(s, |s|, q);
    if s[k] == q {
      QuotePast(s, k, q);
      StringEnds(s, k, q);
      assert Blank(s[k..k]) == "";
    } else {
      var step := if q == '"' && s[k] == '\\' then 2 else 1;
      StringStep(s, k, q);
      QuoteStep(s, k, q);
      assert k + step < |s| by { if k + step >= |s| { QuotePast(s, k + step, q); } }
      StringChunk(s, k + step, q);
      BlankSplit(s, k, k + step, Quote(s, k, q));
    }
  }

  /** A string with no closing quote runs to the end. */
  lemma {:induction false} OpenChunk(s: string, k: nat, q: char)
    requires k <= |s| && (q == '"' || q == '`') && Quote(s, k, q) >= |s|
    ensures Lex(s, k, Str(q)) == Blank(s[k..]) && Open(s, k, Str(q))
    decreases |s| - k
  {
    hide Lex; hide Open; hide Blank; hide Quote;
    if k == |s| {
      StringEnds(s, k, q);
      assert Blank(s[k..]) == "";
    } else {
      assert s[k] != q by { if s[k] == q { QuotePast(s, k, q); } }
      var step := if q == '"' && s[k] == '\\' then 2 else 1;
      StringStep(s, k, q);
      QuoteStep(s, k, q);
      if k + step <= |s| {
        OpenChunk(s, k + step, q);
        BlankSplit(s, k, k + step, |s|);
        assert s[k..|s|] == s[k..] && s[k + step..|s|] == s[k + step..];
      }
    }
  }

  lemma LineStep(s: string, k: nat)
    requires k < |s| && s[k] != '\n'
    ensures Lex(s, k, Line) == [' '] + Lex(s, k + 1, Line) && Open(s, k, Line) == Open(s, k + 1, Line)
  {
  }

  lemma LineEnds(s: string, k: nat)
    requires k <= |s| && (k < |s| ==> s[k] == '\n')
    ensures Lex(s, k, Line) == Lex(s, k, Code) && Open(s, k, Line) == Open(s, k, Code)
  {
  }

  lemma {:induction false} LineChunk(s: string, k: nat)
    requires k <= |s|
    ensures var e := EndOfLine(s, k);
            Lex(s, k, Line) == Spaces(e - k) + Lex(s, e, Code) && Open(s, k, Line) == Open(s, e, Code)
    decreases |s| - k
  {
    hide Lex; hide Open;
    if k < |s| && s[k] != '\n' {
      LineStep(s, k);
      LineChunk(s, k + 1);
      var e := EndOfLine(s, k);
      assert Spaces(e - k) == [' '] + Spaces(e - (k + 1));
    } else {
      LineEnds(s, k);
    }
  }

  lemma BlockStep(s: string, k: nat)
    requires k < |s|
    ensures At(s, k, '*', '/') ==>
              Lex(s, k, Block) == [' ', ' '] + Lex(s, k + 2, Code) && Open(s, k, Block) == Open(s, k + 2, Code)
    ensures !At(s, k, '*', '/') ==>
              Lex(s, k, Block) == [BlankOf(s[k])] + Lex(s, k + 1, Block) && Open(s, k, Block) == Open(s, k + 1, Block)
  {
  }

  lemma BlockEndsHere(s: string)
    ensures Lex(s, |s|, Block) == "" && Lex(s, |s|, Code) == "" && Open(s, |s|, Block) == Open(s, |s|, Code)
  {
  }

  lemma BlankOne(s: string, k: nat, e: nat)
    requires k < e <= |s|
    ensures Blank(s[k..e]) == [BlankOf(s[k])] + Blank(s[k + 1..e])
  {
  }

  lemma BlankPair(s: string, k: nat)
    requires k + 2 <= |s| && s[k] != '\n' && s[k + 1] != '\n'
    ensures Blank(s[k..k + 2]) == [' ', ' ']
  {
  }

  lemma {:induction false} BlockChunk(s: string, k: nat)
    requires k <= |s|
    ensures var e := EndOfBlock(s, k);
            Lex(s, k, Block) == Blank(s[k..e]) + Lex(s, e, Code) && Open(s, k, Block) == Open(s, e, Code)
    decreases |s| - k
  {
    hide Lex; hide Open; hide Blank;
    if k == |s| {
      BlockEndsHere(s);
      assert Blank(s[k..k]) == "";
    } else {
      BlockStep(s, k);
      var e := EndOfBlock(s, k);
      if At(s, k, '*', '/') {
        BlankPair(s, k);
      } else {
        BlockChunk(s, k + 1);
        if e > k { BlankOne(s, k, e); }
      }
    }
  }

  // ----- code_only -------------------------------------------------------

  /** What the lexer gives, but for one thing: a string that never closes shows its last character. */
  function Expected(s: string): (r: string)
    ensures |r| == |s|
  {
    var r := Lex(s, 0, Code);
    if Open(s, 0, Code) && s != "" then r[|s| - 1 := s[|s| - 1]] else r
  }

  /** The same from a position on, in code. */
  function From(s: string, k: nat): (r: string)
    requires k <= |s|
    ensures |r| == |s| - k
  {
    var r := Lex(s, k, Code);
    if Open(s, k, Code) && k < |s| then r[|r| - 1 := s[|s| - 1]] else r
  }

  /** What the scanner writes for a string that it takes to end before `end`. */
  function StringOut(s: string, i: nat, end: nat): string
    requires i < end <= |s|
  {
    [s[i]] + Blank(if end - 1 > i then s[i + 1..end - 1] else "") + (if end - 1 > i then [s[end - 1]] else "")
  }

  lemma ClosedString(s: string, i: nat)
    requires i < |s| && (s[i] == '"' || s[i] == '`') && Quote(s, i + 1, s[i]) < |s|
    ensures var end := Quote(s, i + 1, s[i]) + 1;
            From(s, i) == StringOut(s, i, end) + From(s, end)
  {
    hide Lex; hide Open; hide Quote; hide Blank; hide From;
    var e := Quote(s, i + 1, s[i]);
    StringOpens(s, i);
    StringChunk(s, i + 1, s[i]);
    ClosedFrom(s, i, e, Blank(s[i + 1..e]));
  }

  lemma OpenString(s: string, i: nat)
    requires i < |s| && (s[i] == '"' || s[i] == '`') && Quote(s, i + 1, s[i]) >= |s|
    ensures From(s, i) == StringOut(s, i, |s|) + From(s, |s|)
  {
    hide Lex; hide Open; hide Quote; hide Blank; hide From;
    StringOpens(s, i);
    OpenChunk(s, i + 1, s[i]);
    OpenFrom(s, i);
  }

  lemma ClosedFrom(s: string, i: nat, e: nat, body: string)
    requires i < e < |s| && |body| == e - i - 1 && Open(s, i, Code) == Open(s, e + 1, Code)
    requires Lex(s, i, Code) == [s[i]] + (body + ([s[e]] + Lex(s, e + 1, Code)))
    ensures From(s, i) == [s[i]] + body + [s[e]] + From(s, e + 1)
  {
    hide Lex; hide Open; hide From;
    assert Lex(s, i, Code) == ([s[i]] + body + [s[e]]) + Lex(s, e + 1, Code);
    FromIs(s, i, e + 1, [s[i]] + body + [s[e]]);
  }

  lemma OpenFrom(s: string, i: nat)
    requires i < |s| && Lex(s, i, Code) == [s[i]] + Blank(s[i + 1..]) && Open(s, i, Code)
    ensures var n := |s|;
            From(s, i) ==
            [s[i]] + Blank(if n - 1 > i then s[i + 1..n - 1] else "") +
            (if n - 1 > i then [s[n - 1]] else "") + From(s, n)
  {
    LexEnds(s);
    hide Lex; hide Open; hide Blank;
    if |s| - 1 > i {
      BlankLast(s[i + 1..]);
      assert s[i + 1..][..|s| - i - 2] == s[i + 1..|s| - 1];
    }
  }

  lemma StringOpens(s: string, i: nat)
    requires i < |s| && (s[i] == '"' || s[i] == '`')
    ensures Lex(s, i, Code) == [s[i]] + Lex(s, i + 1, Str(s[i])) && Open(s, i, Code) == Open(s, i + 1, Str(s[i]))
  {
  }

  lemma LexEnds(s: string)
    ensures Lex(s, |s|, Code) == "" && !Open(s, |s|, Code) && From(s, |s|) == ""
  {
  }

  lemma BlankLast(s: string)
    requires s != ""
    ensures Blank(s) == Blank(s[..|s| - 1]) + [BlankOf(s[|s| - 1])]
  {
  }

  /** A chunk that ends in code. */
  lemma FromIs(s: string, i: nat, end: nat, chunk: string)
    requires i < end <= |s| && |chunk| == end - i
    requires Lex(s, i, Code) == chunk + Lex(s, end, Code) && Open(s, i, Code) == Open(s, end, Code)
    ensures From(s, i) == chunk + From(s, end)
  {
    LexEnds(s);
    hide Lex; hide Open;
  }

  /** The scanner, chunk by chunk. */
  method Scan(text: string) returns (out: string)
    ensures out == Expected(text)
  {
    hide Lex; hide Open; hide Quote; hide EndOfLine; hide EndOfBlock; hide From; hide Expected; hide Blank;
    hide Spaces; hide At; hide StringOut;
    out := "";
    var i, n := 0, |text|;
    assert From(text, 0) == Expected(text) by { FromStart(text); }
    while i < n
      invariant 0 <= i <= n && out + From(text, i) == Expected(text)
    {
      var c := text[i];
      var chunk: string;
      if c == '"' || c == '`' {
        var end := FindQuote(text, i + 1, c);
        if end < n { ClosedString(text, i); } else { OpenString(text, i); }
        end := if end + 1 < n then end + 1 else n;
        chunk := StringOut(text, i, end);
        i := end;
      } else if At(text, i, '/', '/') {
        var end := FindEndOfLine(text, i);
        LineFrom(text, i, end);
        chunk := Spaces(end - i);
        i := end;
      } else if At(text, i, '/', '*') {
        AtInside(text, i);
        var end := FindEndOfBlock(text, i + 2);
        BlockFrom(text, i, end);
        chunk := Blank(text[i..end]);
        i := end;
      } else {
        CodeFrom(text, i);
        chunk := [c];
        i := i + 1;
      }
      out := out + chunk;
    }
    assert From(text, n) == "";
  }

  lemma AtInside(s: string, i: nat)
    requires At(s, i, '/', '*')
    ensures i + 2 <= |s|
  {
  }

  lemma FromStart(s: string)
    ensures From(s, 0) == Expected(s)
  {
  }

  lemma CodeFrom(s: string, i: nat)
    requires i < |s| && s[i] != '"' && s[i] != '`' && !At(s, i, '/', '/') && !At(s, i, '/', '*')
    ensures From(s, i) == [s[i]] + From(s, i + 1)
  {
  }

  lemma LineFrom(s: string, i: nat, end: nat)
    requires At(s, i, '/', '/') && end == EndOfLine(s, i)
    ensures i < end <= |s| && From(s, i) == Spaces(end - i) + From(s, end)
  {
    LineChunk(s, i + 1);
    assert Lex(s, i, Code) == [' '] + Lex(s, i + 1, Line);
    assert [' '] + Spaces(end - (i + 1)) == Spaces(end - i);
    FromIs(s, i, end, Spaces(end - i));
  }

  lemma BlockOpens(s: string, i: nat)
    requires At(s, i, '/', '*')
    ensures Lex(s, i, Code) == [' ', ' '] + Lex(s, i + 2, Block) && Open(s, i, Code) == Open(s, i + 2, Block)
  {
  }

  lemma BlockFrom(s: string, i: nat, end: nat)
    requires At(s, i, '/', '*') && end == EndOfBlock(s, i + 2)
    ensures i < end <= |s| && From(s, i) == Blank(s[i..end]) + From(s, end)
  {
    hide Lex; hide Open; hide Blank; hide EndOfBlock; hide From;
    BlockOpens(s, i);
    BlockChunk(s, i + 2);
    BlankPair(s, i);
    BlankSplit(s, i, i + 2, end);
    assert Lex(s, i, Code) == Blank(s[i..end]) + Lex(s, end, Code);
    FromIs(s, i, end, Blank(s[i..end]));
  }

  // ----- positions -------------------------------------------------------

  /** Two characters that open or close a block comment. */
  predicate Pair(s: string, k: nat, m: Mode)
    requires k < |s|
  {
    (m.Code? && At(s, k, '/', '*')) || (m.Block? && At(s, k, '*', '/'))
  }

  ghost predicate Kept(c: char, was: char) { (c == was || (c == ' ' && was != '\n')) && (c == '\n' <==> was == '\n') }

  lemma LexStep(s: string, k: nat, m: Mode)
    requires k < |s|
    ensures Pair(s, k, m) ==>
              k + 2 <= |s| && Lex(s, k, m) == [' ', ' '] + Lex(s, k + 2, if m.Code? then Block else Code)
    ensures !Pair(s, k, m) ==> exists c :: Kept(c, s[k]) && Lex(s, k, m) == [c] + Lex(s, k + 1, Next(s, k, m))
  {
    if !Pair(s, k, m) {
      var c := Lex(s, k, m)[0];
      assert Kept(c, s[k]) && Lex(s, k, m) == [c] + Lex(s, k + 1, Next(s, k, m));
    }
  }

  lemma {:induction false} LexKeeps(s: string, k: nat, m: Mode, j: nat)
    requires k <= j < |s|
    ensures Kept(Lex(s, k, m)[j - k], s[j])
    decreases |s| - k
  {
    hide Lex; hide Open; hide Next; hide Kept;
    LexStep(s, k, m);
    if Pair(s, k, m) {
      PairKept(s, k, m);
      if j > k + 1 { LexKeeps(s, k + 2, if m.Code? then Block else Code, j); }
    } else if j > k {
      LexKeeps(s, k + 1, Next(s, k, m), j);
    }
  }

  lemma PairKept(s: string, k: nat, m: Mode)
    requires k < |s| && Pair(s, k, m)
    ensures k + 1 < |s| && Kept(' ', s[k]) && Kept(' ', s[k + 1])
  {
  }

  /** The mode after one character that is not the first of a pair. */
  function Next(s: string, k: nat, m: Mode): Mode
    requires k < |s|
  {
    var c := s[k];
    match m
    case Code => if c == '"' || c == '`' then Str(c) else if At(s, k, '/', '/') then Line else Code
    case Str(q) => if c == q then Code else if q == '"' && c == '\\' then Escaped else Str(q)
    case Escaped => Str('"')
    case Line => if c == '\n' then Code else Line
    case Block => Block
  }

  /** Every character keeps its place or is blanked, and newlines are exactly where they were: an offset,
      and a line number, read off the code are the text's. */
  lemma PositionsKept(s: string)
    ensures |Expected(s)| == |s|
    ensures forall j | 0 <= j < |s| ::
              && (Expected(s)[j] == s[j] || (Expected(s)[j] == ' ' && s[j] != '\n'))
              && (Expected(s)[j] == '\n' <==> s[j] == '\n')
  {
    hide Lex; hide Open;
    forall j | 0 <= j < |s|
      ensures (Expected(s)[j] == s[j] || (Expected(s)[j] == ' ' && s[j] != '\n'))
      ensures (Expected(s)[j] == '\n' <==> s[j] == '\n')
    {
      LexKeeps(s, 0, Code, j);
    }
  }

  lemma OpenStep(s: string, k: nat, m: Mode)
    requires k < |s|
    ensures Pair(s, k, m) ==> k + 2 <= |s| && Open(s, k, m) == Open(s, k + 2, if m.Code? then Block else Code)
    ensures !Pair(s, k, m) ==> Open(s, k, m) == Open(s, k + 1, Next(s, k, m))
  {
  }

  /** Outside a string, the end of the text is no string's. */
  lemma NotOpenAtEnd(s: string, m: Mode)
    ensures Open(s, |s|, m) <==> m.Str? || m.Escaped?
  {
  }

  /** One character before the last, a text and the text without its last character go on alike. */
  lemma SameStep(s: string, k: nat, m: Mode)
    requires k < |s| - 1 && Open(s, k, m)
    ensures var p := s[..|s| - 1];
            && Pair(p, k, m) == Pair(s, k, m) && (Pair(s, k, m) ==> k + 2 < |s|)
            && (!Pair(s, k, m) ==> Next(p, k, m) == Next(s, k, m))
  {
    var p, last := s[..|s| - 1], |s| - 1;
    OpenStep(s, k, m);
    NotOpenAtEnd(s, Block);
    NotOpenAtEnd(s, Code);
    NotOpenAtEnd(s, Line);
    if k + 1 == last && !Pair(s, k, m) { OpenStep(s, last, Next(s, k, m)); }
    hide Open;
  }

  /** The last character of a text that ends inside a string: blanked when the string was open before it. */
  lemma {:induction false} OpenLast(s: string, k: nat, m: Mode)
    requires k < |s| && Open(s, k, m)
    ensures var last, p := |s| - 1, s[..|s| - 1];
            Lex(s, k, m)[last - k] == if Open(p, k, m) then BlankOf(s[last]) else s[last]
    decreases |s| - k
  {
    var last, p := |s| - 1, s[..|s| - 1];
    if k == last {
      LastStep(s, m);
    } else {
      SameStep(s, k, m);
      LexStep(s, k, m);
      OpenStep(s, k, m);
      OpenStep(p, k, m);
      hide Lex; hide Open; hide Next; hide Pair; hide BlankOf; hide Kept;
      if Pair(s, k, m) {
        var m' := if m.Code? then Block else Code;
        OpenLast(s, k + 2, m');
        TailAt([' ', ' '], Lex(s, k + 2, m'), last - k - 2);
      } else {
        var m' := Next(s, k, m);
        OpenLast(s, k + 1, m');
        TailAt([Lex(s, k, m)[0]], Lex(s, k + 1, m'), last - k - 1);
      }
    }
  }

  lemma TailAt(p: string, r: string, i: nat)
    requires i < |r|
    ensures (p + r)[|p| + i] == r[i]
  {
  }

  lemma LastStep(s: string, m: Mode)
    requires s != "" && Open(s, |s| - 1, m)
    ensures var last, p := |s| - 1, s[..|s| - 1];
            Lex(s, last, m)[0] == if Open(p, last, m) then BlankOf(s[last]) else s[last]
  {
    NotOpenAtEnd(s[..|s| - 1], m);
  }

  lemma SetSame(r: string, i: nat, c: char)
    requires i < |r|
    ensures r[i := c] == r <==> r[i] == c
  {
  }

  /** code_only is the lexer exactly when no string is left open, or one is only opened by the last
      character, or that character is blank anyway. */
  lemma ScanIsLexIff(s: string)
    ensures Expected(s) == Lex(s, 0, Code) <==>
            !Open(s, 0, Code) || s == "" || !Open(s[..|s| - 1], 0, Code) || s[|s| - 1] == ' ' || s[|s| - 1] == '\n'
  {
    hide *;
    ExpectedSame(s);
    if s != "" && Open(s, 0, Code) {
      OpenLast(s, 0, Code);
      BlankAlready(s[|s| - 1]);
    }
  }

  lemma ExpectedSame(s: string)
    ensures Expected(s) == Lex(s, 0, Code) <==> !Open(s, 0, Code) || s == "" || Lex(s, 0, Code)[|s| - 1] == s[|s| - 1]
  {
    hide Lex; hide Open;
    if s != "" && Open(s, 0, Code) {
      var r, c := Lex(s, 0, Code), s[|s| - 1];
      assert Expected(s) == r[|s| - 1 := c];
      hide Expected;
      SetSame(r, |s| - 1, c);
    }
  }

  lemma BlankAlready(c: char)
    ensures BlankOf(c) == c <==> c == ' ' || c == '\n'
  {
  }

  /** A brace at the end of an open string is read as code. */
  lemma OpenStringShows()
    ensures Expected("\"{") == "\"{" && Lex("\"{", 0, Code) == "\" "
  {
    var s := "\"{";
    assert Lex(s, 2, Str('"')) == "" && Open(s, 2, Str('"'));
    assert Lex(s, 1, Str('"')) == [' '] + "" && Open(s, 1, Str('"'));
    assert Lex(s, 0, Code) == ['"'] + [' '];
  }

  /** line_of: the number of newlines before an offset, and one. */
  function LineOf(s: string, offset: nat): nat
    requires offset <= |s|
  {
    if offset == 0 then 1 else LineOf(s, offset - 1) + if s[offset - 1] == '\n' then 1 else 0
  }

  /** A line number read off the code is the text's. */
  lemma {:induction false} LinesKept(s: string, offset: nat)
    requires offset <= |s|
    ensures LineOf(Expected(s), offset) == LineOf(s, offset)
  {
    hide Expected;
    PositionsKept(s);
    if offset > 0 { LinesKept(s, offset - 1); }
  }
}
