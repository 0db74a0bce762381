/** The top-level blocks of an Alloy file (scripts/pipelines_check.py block_end, top_level). */
module TopLevel {
  import opened Options
  import opened Strings

  // ----- braces ----------------------------------------------------------

  /** One more than the braces opened less those closed, from a block's start. */
  function Depth(code: string, start: nat, i: nat): int
    requires start <= i <= |code|
  {
    if i == start then 1
    else Depth(code, start, i - 1) + if code[i - 1] == '{' then 1 else if code[i - 1] == '}' then -1 else 0
  }

  /** A block's end: past the brace that first brings its depth to nothing, or the end of the input when
      none does. */
  ghost predicate Ends(code: string, start: nat, end: nat) {
    && start <= end <= |code|
    && (forall i | start <= i < end :: Depth(code, start, i) > 0)
    && (Depth(code, start, end) == 0 || (end == |code| && Depth(code, start, end) > 0))
  }

  lemma EndsUnique(code: string, start: nat, a: nat, b: nat)
    requires Ends(code, start, a) && Ends(code, start, b)
    ensures a == b
  {
  }

  function BlockEnd(code: string, start: nat, i: nat, depth: nat): (end: nat)
    requires start <= i <= |code| && depth == Depth(code, start, i)
    requires forall j | start <= j < i :: Depth(code, start, j) > 0
    ensures Ends(code, start, end)
    decreases |code| - i
  {
    if i == |code| || depth == 0 then i
    else BlockEnd(code, start, i + 1, if code[i] == '{' then depth + 1 else if code[i] == '}' then depth - 1 else depth)
  }

  function EndOf(code: string, start: nat): (end: nat)
    requires start <= |code|
    ensures Ends(code, start, end)
  {
    BlockEnd(code, start, start, 1)
  }

  method FindBlockEnd(code: string, start: nat) returns (end: nat)
    requires start <= |code|
    ensures end == EndOf(code, start)
  {
    var depth := 1;
    end := start;
    while end < |code| && depth > 0
      invariant start <= end <= |code| && depth >= 0 && depth == Depth(code, start, end)
      invariant forall j | start <= j < end :: Depth(code, start, j) > 0
    {
      if code[end] == '{' { depth := depth + 1; } else if code[end] == '}' { depth := depth - 1; }
      end := end + 1;
    }
    assert Ends(code, start, end);
    EndsUnique(code, start, end, EndOf(code, start));
  }

  // ----- headers ---------------------------------------------------------

  predicate Letter(c: char) { 'a' <= c <= 'z' || 'A' <= c <= 'Z' || c == '_' }

  predicate Word(c: char) { Letter(c) || '0' <= c <= '9' }

  function Words(s: string): (n: nat)
    ensures n <= |s|
  {
    if s != "" && Word(s[0]) then 1 + Words(s[1..]) else 0
  }

  /** After a name: more of it after a dot, then a label in quotes, then nothing. The result is what of it
      belongs to the name, its whitespace removed. */
  function NameRest(s: string): Option<string>
    decreases |s|
  {
    var t := s[Lead(s)..];
    if t == "" then Some("")
    else if t[0] == '.' then
      var u := t[1..][Lead(t[1..])..];
      if u == "" || !Letter(u[0]) then None
      else
        var n := Words(u);
        var rest := NameRest(if n == 0 then u[1..] else u[n..]);
        if rest.None? then None else Some("." + u[..n] + rest.value)
    else if t[0] == '"' then
      var q := IndexOf(t[1..], '"');
      if q < |t| - 1 && '\n' !in t[1..][..q] && Lead(t[q + 2..]) == |t[q + 2..]| then Some("") else None
    else None
  }

  /** A top-level block's header: a dotted name and perhaps a label. The kind is the name. */
  function Header(s: string): Option<string> {
    var t := s[Lead(s)..];
    if t == "" || !Letter(t[0]) then None
    else
      var n := Words(t);
      var rest := NameRest(t[n..]);
      if rest.None? then None else Some(t[..n] + rest.value)
  }

  // ----- top_level -------------------------------------------------------

  datatype Block = Block(kind: string, header: nat, start: nat, end: nat)

  datatype Found = Found(blocks: seq<Block>, stray: seq<nat>)

  /** The next opening brace, or the end. */
  function NextBrace(code: string, i: nat): (k: nat)
    requires i <= |code|
    ensures i <= k <= |code| && (k < |code| ==> code[k] == '{') && forall j | i <= j < k :: code[j] != '{'
    decreases |code| - i
  {
    if i == |code| || code[i] == '{' then i else NextBrace(code, i + 1)
  }

  /** What top_level finds from a position between blocks. */
  function Split(code: string, seg: nat): Found
    requires seg <= |code|
    decreases |code| - seg
  {
    var i := NextBrace(code, seg);
    var first := seg + Lead(code[seg..i]);
    if i == |code| then Found([], if first < |code| then [first] else [])
    else
      var end := EndOf(code, i + 1);
      var rest := Split(code, end);
      var kind := Header(code[seg..i]);
      if kind.Some? then rest.(blocks := [Block(kind.value, first, i + 1, end)] + rest.blocks)
      else rest.(stray := [first] + rest.stray)
  }

  method Blocks(code: string) returns (blocks: seq<Block>, stray: seq<nat>)
    ensures Found(blocks, stray) == Split(code, 0)
  {
    hide EndOf; hide Header; hide Lead; hide NextBrace; hide Split; hide Ends;
    blocks, stray := [], [];
    var seg, i := 0, 0;
    while i < |code|
      invariant 0 <= seg <= i <= |code| && NextBrace(code, seg) == NextBrace(code, i)
      invariant Split(code, 0) == Found(blocks + Split(code, seg).blocks, stray + Split(code, seg).stray)
    {
      BraceHere(code, i);
      if code[i] != '{' {
        i := i + 1;
        continue;
      }
      SplitStep(code, seg, i);
      var end := FindBlockEnd(code, i + 1);
      var kind, first := Header(code[seg..i]), seg + Lead(code[seg..i]);
      if kind.Some? {
        blocks := blocks + [Block(kind.value, first, i + 1, end)];
      } else {
        stray := stray + [first];
      }
      i, seg := end, end;
    }
    BraceHere(code, i);
    SplitStep(code, seg, i);
    var first := seg + Lead(code[seg..]);
    assert code[seg..] == code[seg..|code|];
    if first < |code| { stray := stray + [first]; }
  }

  /** One block's worth of Split, or the end. */
  lemma SplitStep(code: string, seg: nat, i: nat)
    requires seg <= i <= |code| && i == NextBrace(code, seg)
    ensures var first := seg + Lead(code[seg..i]);
            && (i == |code| ==> Split(code, seg) == Found([], if first < |code| then [first] else []))
            && (i < |code| ==>
                  var end, kind := EndOf(code, i + 1), Header(code[seg..i]);
                  && i < end <= |code|
                  && Split(code, seg) ==
                     if kind.Some? then
                       Found([Block(kind.value, first, i + 1, end)] + Split(code, end).blocks, Split(code, end).stray)
                     else Found(Split(code, end).blocks, [first] + Split(code, end).stray))
  {
    hide Header; hide Lead; hide NextBrace; hide EndOf;
  }

  lemma BraceHere(code: string, i: nat)
    requires i <= |code|
    ensures i == |code| || code[i] == '{' ==> NextBrace(code, i) == i
    ensures i < |code| && code[i] != '{' ==> NextBrace(code, i) == NextBrace(code, i + 1)
  {
  }

  // ----- what the blocks are ---------------------------------------------

  /** The text from a position on is these blocks, in order, with only whitespace between them: each has a
      header, an opening brace, and ends where its braces close or the input ends. */
  ghost predicate Tiles(code: string, seg: nat, blocks: seq<Block>)
    decreases |blocks|
  {
    && seg <= |code|
    && if blocks == [] then Lead(code[seg..]) == |code[seg..]|
       else
         var b := blocks[0];
         && seg <= b.header < b.start <= |code|
         && (forall i | seg <= i < b.header :: Space(code[i])) && !Space(code[b.header])
         && code[b.start - 1] == '{' && (forall i | seg <= i < b.start - 1 :: code[i] != '{')
         && Header(code[seg..b.start - 1]) == Some(b.kind)
         && Ends(code, b.start, b.end)
         && Tiles(code, b.end, blocks[1..])
  }

  lemma LeadIs(s: string, n: nat)
    requires n <= |s| && (forall i | 0 <= i < n :: Space(s[i])) && (n < |s| ==> !Space(s[n]))
    ensures Lead(s) == n
  {
  }

  lemma NextBraceIs(code: string, seg: nat, i: nat)
    requires seg <= i < |code| && code[i] == '{' && forall j | seg <= j < i :: code[j] != '{'
    ensures NextBrace(code, seg) == i
  {
  }

  lemma HeaderStarts(s: string)
    requires Header(s).Some?
    ensures Lead(s) < |s|
  {
  }

  lemma NoneLeft(code: string, seg: nat)
    requires seg <= |code| && Lead(code[seg..]) == |code[seg..]|
    ensures NextBrace(code, seg) == |code|
  {
    assert forall i | seg <= i < |code| :: Space(code[seg..][i - seg]) && code[i] == code[seg..][i - seg];
  }

  /** No stray: the blocks tile the text. */
  lemma {:induction false} NoStrayTiles(code: string, seg: nat)
    requires seg <= |code| && Split(code, seg).stray == []
    ensures Tiles(code, seg, Split(code, seg).blocks)
    decreases |code| - seg
  {
    hide Header; hide Ends; hide Lead; hide NextBrace; hide EndOf; hide Split;
    var i := NextBrace(code, seg);
    SplitStep(code, seg, i);
    var part := code[seg..i];
    if i == |code| {
      assert code[seg..] == part;
    } else {
      var end := EndOf(code, i + 1);
      NoStrayTiles(code, end);
      HeaderStarts(part);
      var b := Split(code, seg).blocks[0];
      assert Split(code, seg).blocks[1..] == Split(code, end).blocks;
      assert forall j | seg <= j < b.header :: code[j] == part[j - seg];
      assert code[b.header] == part[b.header - seg];
    }
  }

  /** And only then: a text that blocks tile has no stray, and those are its blocks. */
  lemma {:induction false} TilesNoStray(code: string, seg: nat, blocks: seq<Block>)
    requires Tiles(code, seg, blocks)
    ensures Split(code, seg) == Found(blocks, [])
    decreases |blocks|
  {
    hide Header; hide Ends; hide Lead; hide NextBrace; hide EndOf; hide Split;
    if blocks == [] {
      NoneLeft(code, seg);
      SplitStep(code, seg, |code|);
      assert code[seg..] == code[seg..|code|];
    } else {
      var b := blocks[0];
      var i := b.start - 1;
      var part := code[seg..i];
      NextBraceIs(code, seg, i);
      SplitStep(code, seg, i);
      EndsUnique(code, b.start, b.end, EndOf(code, b.start));
      TilesNoStray(code, b.end, blocks[1..]);
      HeaderNoBrace(code, b.header, i);
      assert forall j | 0 <= j < b.header - seg :: part[j] == code[seg + j];
      assert b.header < i ==> part[b.header - seg] == code[b.header];
      HeaderStarts(part);
      LeadIs(part, b.header - seg);
    }
  }

  lemma HeaderNoBrace(code: string, header: nat, i: nat)
    requires header <= i < |code| && code[i] == '{'
    ensures !Space(code[i])
  {
  }

  /** Exactly the texts that blocks tile have no stray. */
  lemma NoStrayIff(code: string)
    ensures Split(code, 0).stray == [] <==> exists blocks :: Tiles(code, 0, blocks)
  {
    hide Split; hide Tiles;
    if Split(code, 0).stray == [] { NoStrayTiles(code, 0); }
    if blocks :| Tiles(code, 0, blocks) { TilesNoStray(code, 0, blocks); }
  }
}
