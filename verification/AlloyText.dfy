/** Alloy text as scripts/collectors.py prints it (quote, block) and scripts/collectors_check.py scans it
    back (_skip_string, _body, component, blocks, attr). The scanners are given on what is left of
    the text; the index loops that compute them are the methods at the end. */
module AlloyText {
  import opened Options
  import opened Strings

  // ----- printing --------------------------------------------------------

  /** str.replace of one character. */
  function Replace(s: string, c: char, with_: string): string {
    if s == "" then "" else (if s[0] == c then with_ else [s[0]]) + Replace(s[1..], c, with_)
  }

  function Quote(s: string): string { "\"" + Replace(Replace(s, '\\', "\\\\"), '"', "\\\"") + "\"" }

  datatype Value = Text(s: string) | Texts(items: seq<string>)
  datatype Field = Field(key: string, value: Value)

  function QuoteAll(items: seq<string>): string {
    if items == [] then "" else if |items| == 1 then Quote(items[0]) else Quote(items[0]) + ", " + QuoteAll(items[1..])
  }

  function Show(v: Value): string {
    match v
    case Text(s) => Quote(s)
    case Texts(items) => "[" + QuoteAll(items) + "]"
  }

  function Line(f: Field): string { "  " + f.key + " = " + Show(f.value) + "\n" }

  function Lines(fields: seq<Field>): string { if fields == [] then "" else Line(fields[0]) + Lines(fields[1..]) }

  /** A block, from its name and its attributes. */
  function Block(name: string, fields: seq<Field>): string { name + " {\n" + Lines(fields) + "}" }

  function Blocks(name: string, all: seq<seq<Field>>): string {
    if all == [] then "" else Block(name, all[0]) + "\n" + Blocks(name, all[1..])
  }

  // ----- scanning --------------------------------------------------------

  predicate Alnum(c: char) { 'a' <= c <= 'z' || 'A' <= c <= 'Z' || '0' <= c <= '9' }

  function SkipSpace(s: string): string { if s != "" && Space(s[0]) then SkipSpace(s[1..]) else s }

  /** _skip_string, past an opening quote: how far the literal runs, its closing quote included. A
      backslash at the very end of the text takes it one past. */
  function SkipString(rest: string, q: char): nat {
    if rest == "" then 0
    else if q == '"' && rest[0] == '\\' then (if |rest| == 1 then 2 else 2 + SkipString(rest[2..], q))
    else if rest[0] == q then 1
    else 1 + SkipString(rest[1..], q)
  }

  function Shift(n: nat, o: Option<nat>): Option<nat> { if o.None? then None else Some(n + o.value) }

  /** How many characters a scan passes at once: a literal, a comment up to its newline, or one. */
  function Token(rest: string): (n: nat)
    requires rest != ""
    ensures n >= 1 || rest[0] == '/'
  {
    if rest[0] == '"' || rest[0] == '`' then 1 + SkipString(rest[1..], rest[0])
    else if StartsWith(rest, "//") then IndexOf(rest, '\n')
    else 1
  }

  /** _body: the offset of the brace that closes the one the text starts with, from depth 0. */
  function Close(rest: string, depth: int): Option<nat>
    decreases |rest|
  {
    if rest == "" then None
    else if rest[0] == '"' || rest[0] == '`' || StartsWith(rest, "//") then
      var n := Token(rest);
      if n == 0 || n >= |rest| then None else Shift(n, Close(rest[n..], depth))
    else if rest[0] == '}' && depth == 1 then Some(0)
    else Shift(1, Close(rest[1..], if rest[0] == '{' then depth + 1 else if rest[0] == '}' then depth - 1 else depth))
  }

  /** The text inside the braces a text starts with. */
  function Body(text: string): Option<string>
    requires text != ""
  {
    var n := Close(text, 0);
    if n.None? || n.value == 0 || n.value >= |text| then None else Some(text[1..n.value])
  }

  /** blocks: the bodies of the `name { … }` blocks at depth 0, given the character before. None is the
      scanner's own failure, on a block that never closes. */
  function FindBlocks(prev: char, rest: string, depth: int, name: string): Option<seq<string>>
    requires name != ""
    decreases |rest|
  {
    if rest == "" then Some([])
    else if rest[0] == '"' || rest[0] == '`' then
      var n := Token(rest);
      if n >= |rest| then Some([]) else FindBlocks(rest[n - 1], rest[n..], depth, name)
    else if rest[0] == '{' then FindBlocks('{', rest[1..], depth + 1, name)
    else if rest[0] == '}' then FindBlocks('}', rest[1..], depth - 1, name)
    else if depth == 0 && StartsWith(rest, name) && !(Alnum(prev) || prev == '.' || prev == '_')
            && Opens(rest, name) then
      var at := SkipSpace(rest[|name|..]);
      var inner := Body(at);
      if inner.None? || |inner.value| + 2 > |at| then None
      else
        SkipSpaceShorter(rest[|name|..]);
        var more := FindBlocks('}', at[|inner.value| + 2..], depth, name);
        if more.None? then None else Some([inner.value] + more.value)
    else FindBlocks(rest[0], rest[1..], depth, name)
  }

  predicate Opens(rest: string, name: string)
    requires StartsWith(rest, name)
  {
    var at := SkipSpace(rest[|name|..]);
    at != "" && at[0] == '{'
  }

  lemma {:induction false} SkipSpaceShorter(s: string)
    ensures |SkipSpace(s)| <= |s|
  {
    if s != "" && Space(s[0]) { SkipSpaceShorter(s[1..]); }
  }

  /** component: the body of the first `kind "label" { … }` that starts a line. */
  function Component(lineStart: bool, rest: string, kind: string, title: string): Option<string>
    decreases |rest|
  {
    var open := if lineStart then ComponentAt(rest, kind, title) else None;
    if open.Some? then (if open.value == "" then None else Body(open.value))
    else if rest == "" then None
    else Component(rest[0] == '\n', rest[1..], kind, title)
  }

  function ComponentAt(rest: string, kind: string, title: string): Option<string> {
    var a := SkipSpace(rest);
    if !StartsWith(a, kind) then None
    else
      var b := a[|kind|..];
      var c := SkipSpace(b);
      if c == b || !StartsWith(c, "\"" + title + "\"") then None
      else
        var d := SkipSpace(c[|title| + 2..]);
        if d != "" && d[0] == '{' then Some(d) else None
  }

  // ----- attributes ------------------------------------------------------

  datatype Parsed<T> = Parsed(value: T, rest: string)

  /** A double-quoted token past its opening quote: its raw text. */
  function RawString(rest: string): Option<Parsed<string>> {
    if rest == "" then None
    else if rest[0] == '"' then Some(Parsed("", rest[1..]))
    else if rest[0] == '\\' then
      if |rest| == 1 || rest[1] == '\n' then None
      else
        var r := RawString(rest[2..]);
        if r.None? then None else Some(Parsed(rest[..2] + r.value.value, r.value.rest))
    else
      var r := RawString(rest[1..]);
      if r.None? then None else Some(Parsed([rest[0]] + r.value.value, r.value.rest))
  }

  /** json.loads of a token's raw text; a control character, or an escape outside this list, is not a string. */
  function Unescape(raw: string): Option<string> {
    if raw == "" then Some("")
    else if raw[0] == '\\' then
      if |raw| == 1 then None
      else
        var c := Escaped(raw[1]);
        var r := Unescape(raw[2..]);
        if c.None? || r.None? then None else Some([c.value] + r.value)
    else if raw[0] < ' ' then None
    else
      var r := Unescape(raw[1..]);
      if r.None? then None else Some([raw[0]] + r.value)
  }

  function Escaped(c: char): Option<char> {
    match c
    case '"' => Some('"') case '\\' => Some('\\') case '/' => Some('/')
    case 'b' => Some('\U{08}') case 'f' => Some('\U{0c}') case 'n' => Some('\n')
    case 'r' => Some('\r') case 't' => Some('\t')
    case _ => None
  }

  function StringToken(rest: string): Option<Parsed<string>> {
    if rest == "" then None
    else if rest[0] == '"' then
      var raw := RawString(rest[1..]);
      if raw.None? then None
      else
        var s := Unescape(raw.value.value);
        if s.None? then None else Some(Parsed(s.value, raw.value.rest))
    else if rest[0] == '`' then
      var n := IndexOf(rest[1..], '`');
      if n == |rest| - 1 then None else Some(Parsed(rest[1..n + 1], rest[n + 2..]))
    else None
  }

  lemma {:induction false} RawShorter(rest: string)
    requires RawString(rest).Some?
    ensures |RawString(rest).value.rest| < |rest|
  {
    if rest[0] == '\\' { RawShorter(rest[2..]); } else if rest[0] != '"' { RawShorter(rest[1..]); }
  }

  lemma TokenShorter(rest: string)
    requires StringToken(rest).Some?
    ensures |StringToken(rest).value.rest| < |rest|
  {
    if rest[0] == '"' { RawShorter(rest[1..]); }
  }

  /** The items of a list past its opening bracket. */
  function Items(rest: string): Option<seq<string>>
    decreases |rest|
  {
    SkipSpaceShorter(rest);
    var a := SkipSpace(rest);
    if a != "" && a[0] == ']' then Some([])
    else
      var t := StringToken(a);
      if t.None? then None
      else
        TokenShorter(a);
        SkipSpaceShorter(t.value.rest);
        var b := SkipSpace(t.value.rest);
        var more := Items(if b != "" && b[0] == ',' then b[1..] else b);
        if more.None? then None else Some([t.value.value] + more.value)
  }

  function ReadValue(rest: string): Option<Value> {
    if rest != "" && rest[0] == '[' then
      var items := Items(rest[1..]);
      if items.None? then None else Some(Texts(items.value))
    else
      var t := StringToken(rest);
      if t.None? then None else Some(Text(t.value.value))
  }

  /** `key = value` at the start of a line. */
  function AttrAt(rest: string, key: string): Option<Value> {
    var a := SkipSpace(rest);
    if !StartsWith(a, key) then None
    else
      var b := SkipSpace(a[|key|..]);
      if b == "" || b[0] != '=' then None else ReadValue(SkipSpace(b[1..]))
  }

  /** attr: the value of the first line that sets the key. */
  function Attr(lineStart: bool, rest: string, key: string): Option<Value>
    decreases |rest|
  {
    if lineStart && AttrAt(rest, key).Some? then AttrAt(rest, key)
    else if rest == "" then None
    else Attr(rest[0] == '\n', rest[1..], key)
  }

  // ----- the scanners as loops -------------------------------------------

  /** _skip_string: the index after the literal that starts at text[start]. */
  method SkipStringFrom(text: string, start: nat) returns (i: nat)
    requires start < |text| && (text[start] == '"' || text[start] == '`')
    ensures i == start + 1 + SkipString(text[start + 1..], text[start])
  {
    var q := text[start];
    i := start + 1;
    while i < |text|
      invariant start + 1 <= i <= |text| + 1
      invariant i <= |text| ==> start + 1 + SkipString(text[start + 1..], q) == i + SkipString(text[i..], q)
      invariant i == |text| + 1 ==> start + 1 + SkipString(text[start + 1..], q) == i
    {
      assert text[i..][0] == text[i] && text[i..][1..] == text[i + 1..];
      if q == '"' && text[i] == '\\' {
        if i + 1 < |text| { assert text[i..][2..] == text[i + 2..]; }
        i := i + 2;
        continue;
      }
      if text[i] == q {
        return i + 1;
      }
      i := i + 1;
    }
  }

  lemma CloseBounds(rest: string, depth: int)
    ensures Close(rest, depth).Some? ==> Close(rest, depth).value < |rest| && rest[Close(rest, depth).value] == '}'
    decreases |rest|
  {
    if rest != "" && Close(rest, depth).Some? {
      if rest[0] == '"' || rest[0] == '`' || StartsWith(rest, "//") {
        CloseBounds(rest[Token(rest)..], depth);
      } else if !(rest[0] == '}' && depth == 1) {
        CloseBounds(rest[1..], if rest[0] == '{' then depth + 1 else if rest[0] == '}' then depth - 1 else depth);
      }
    }
  }

  predicate Comment(text: string, i: nat) { i + 1 < |text| && text[i] == '/' && text[i + 1] == '/' }

  /** Where a scan for a closing brace goes from index i. */
  lemma CloseAt(text: string, i: nat, depth: int)
    requires i < |text|
    ensures var c := text[i];
            Close(text[i..], depth) ==
            if c == '"' || c == '`' || Comment(text, i) then
              var n := if c == '"' || c == '`' then 1 + SkipString(text[i + 1..], c) else IndexOf(text[i..], '\n');
              if i + n >= |text| then None else Shift(n, Close(text[i + n..], depth))
            else if c == '}' && depth == 1 then Some(0)
            else Shift(1, Close(text[i + 1..], if c == '{' then depth + 1 else if c == '}' then depth - 1 else depth))
  {
    hide SkipString;
    var rest := text[i..];
    assert rest[0] == text[i] && rest[1..] == text[i + 1..];
    assert StartsWith(rest, "//") <==> Comment(text, i) by {
      if |rest| >= 2 { assert rest[..2] == [text[i], text[i + 1]]; }
    }
    assert forall n: nat | i + n <= |text| :: rest[n..] == text[i + n..];
    assert Comment(text, i) ==> IndexOf(rest, '\n') >= 2;
  }

  /** _body: the text between the brace at `open` and the one that closes it. */
  method BodyFrom(text: string, open: nat) returns (r: Option<string>)
    requires open < |text| && text[open] == '{'
    ensures r == Body(text[open..])
  {
    hide SkipString; hide Close; hide Token;
    var depth, i := 0, open;
    CloseBounds(text[open..], 0);
    ghost var goal := Close(text[open..], 0);
    assert goal == Shift(0, Close(text[open..], 0));
    while i < |text|
      invariant open <= i && (i > open || depth == 0)
      invariant if i >= |text| then goal.None? else goal == Shift(i - open, Close(text[i..], depth))
    {
      CloseAt(text, i, depth);
      var c := text[i];
      if c == '"' || c == '`' {
        i := SkipStringFrom(text, i);
        continue;
      }
      if c == '/' && i + 1 < |text| && text[i + 1] == '/' {
        i := i + IndexOf(text[i..], '\n');
        continue;
      }
      if c == '{' {
        depth := depth + 1;
      } else if c == '}' {
        depth := depth - 1;
        if depth == 0 {
          assert goal == Some(i - open);
          assert text[open..][1..i - open] == text[open + 1..i];
          return Some(text[open + 1..i]);
        }
      }
      i := i + 1;
      if i == |text| { assert text[i..] == ""; NoClose(depth); }
    }
    return None;
  }

  lemma NoClose(depth: int)
    ensures Close("", depth).None?
  {
  }
}
