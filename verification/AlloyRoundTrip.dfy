/** What is printed is read back: any list of blocks, whatever quotes, braces, backslashes or slashes
    their values hold, comes back from the scanner attribute for attribute and in order. */
module AlloyRoundTrip {
  import opened Options
  import opened Strings
  import opened AlloyText

  // ----- strings ---------------------------------------------------------

  function EscapeChar(c: char): string { if c == '\\' then "\\\\" else if c == '"' then "\\\"" else [c] }

  function Escape(s: string): string { if s == "" then "" else EscapeChar(s[0]) + Escape(s[1..]) }

  /** No control character. */
  predicate Clean(s: string) { forall i | 0 <= i < |s| :: s[i] >= ' ' }

  lemma {:induction false} ReplaceConcat(a: string, b: string, c: char, w: string)
    ensures Replace(a + b, c, w) == Replace(a, c, w) + Replace(b, c, w)
  {
    if a == "" {
      assert a + b == b;
    } else {
      assert (a + b)[1..] == a[1..] + b && (a + b)[0] == a[0];
      var head, ra, rb := (if a[0] == c then w else [a[0]]), Replace(a[1..], c, w), Replace(b, c, w);
      ReplaceConcat(a[1..], b, c, w);
      assert Replace(a + b, c, w) == head + (ra + rb);
      assert head + (ra + rb) == (head + ra) + rb;
    }
  }

  /** The two replacements in turn are one escaping pass. */
  lemma {:induction false} TwoPasses(s: string)
    ensures Replace(Replace(s, '\\', "\\\\"), '"', "\\\"") == Escape(s)
  {
    if s != "" {
      var head := if s[0] == '\\' then "\\\\" else [s[0]];
      ReplaceConcat(head, Replace(s[1..], '\\', "\\\\"), '"', "\\\"");
      TwoPasses(s[1..]);
      ReplaceHead(s[0]);
    }
  }

  lemma ReplaceHead(c: char)
    ensures Replace(if c == '\\' then "\\\\" else [c], '"', "\\\"") == EscapeChar(c)
  {
    if c == '\\' {
      assert "\\\\"[1..] == "\\" && "\\"[1..] == "";
      assert Replace("\\", '"', "\\\"") == "\\";
    } else {
      assert [c][1..] == "";
    }
  }

  lemma QuoteIs(s: string)
    ensures Quote(s) == "\"" + Escape(s) + "\""
  {
    TwoPasses(s);
  }

  /** Escape(s) + rest, one character of s at a time. */
  lemma EscapeStep(s: string, rest: string)
    requires s != ""
    ensures Escape(s) + rest == EscapeChar(s[0]) + (Escape(s[1..]) + rest)
  {
  }

  lemma {:induction false} RawQuoted(s: string, post: string)
    ensures RawString(Escape(s) + ("\"" + post)) == Some(Parsed(Escape(s), post))
  {
    if s == "" {
      assert Escape(s) + ("\"" + post) == "\"" + post && ("\"" + post)[1..] == post;
    } else {
      EscapeStep(s, "\"" + post);
      RawQuoted(s[1..], post);
      var more := Escape(s[1..]) + ("\"" + post);
      var all := EscapeChar(s[0]) + more;
      assert all[|EscapeChar(s[0])|..] == more;
      assert all[..|EscapeChar(s[0])|] == EscapeChar(s[0]);
    }
  }

  lemma {:induction false} UnescapeEscape(s: string)
    requires Clean(s)
    ensures Unescape(Escape(s)) == Some(s)
  {
    if s != "" {
      UnescapeEscape(s[1..]);
      var all := Escape(s);
      assert all[|EscapeChar(s[0])|..] == Escape(s[1..]);
      assert s == [s[0]] + s[1..];
    }
  }

  lemma {:induction false} SkipQuoted(s: string, post: string)
    ensures SkipString(Escape(s) + ("\"" + post), '"') == |Escape(s)| + 1
  {
    if s == "" {
      assert Escape(s) + ("\"" + post) == "\"" + post;
    } else {
      EscapeStep(s, "\"" + post);
      SkipQuoted(s[1..], post);
      var more := Escape(s[1..]) + ("\"" + post);
      assert (EscapeChar(s[0]) + more)[|EscapeChar(s[0])|..] == more;
    }
  }

  lemma StringRead(s: string, post: string)
    requires Clean(s)
    ensures StringToken(Quote(s) + post) == Some(Parsed(s, post))
  {
    hide RawString; hide Unescape; hide Quote;
    QuoteIs(s);
    var text := Quote(s) + post;
    assert text[1..] == Escape(s) + ("\"" + post) && text[0] == '"';
    RawQuoted(s, post);
    UnescapeEscape(s);
  }

  function Comma(more: string): string {
    var b := SkipSpace(more);
    if b != "" && b[0] == ',' then b[1..] else b
  }

  lemma OneItem(s: string, more: string)
    requires Clean(s) && Items(Comma(more)).Some?
    ensures Items(Quote(s) + more) == Some([s] + Items(Comma(more)).value)
  {
    hide StringToken; hide Quote;
    var text := Quote(s) + more;
    QuoteIs(s);
    assert text[0] == '"';
    assert SkipSpace(text) == text;
    StringRead(s, more);
  }

  lemma {:induction false} ItemsRead(items: seq<string>, post: string)
    requires forall s | s in items :: Clean(s)
    ensures Items(QuoteAll(items) + ("]" + post)) == Some(items)
  {
    hide Quote; hide Items;
    var end := "]" + post;
    if items == [] {
      assert QuoteAll(items) + end == end;
      NoItems(post);
    } else if |items| == 1 {
      NoItems(post);
      assert Comma(end) == end;
      OneItem(items[0], end);
      assert items == [items[0]] + [];
    } else {
      var tail := QuoteAll(items[1..]) + end;
      var more := ", " + tail;
      assert QuoteAll(items) + end == Quote(items[0]) + more;
      assert more[0] == ',' && more[1..] == " " + tail;
      assert Comma(more) == " " + tail;
      ItemsRead(items[1..], post);
      ItemsSpace(tail);
      OneItem(items[0], more);
      assert items == [items[0]] + items[1..];
    }
  }

  lemma NoItems(post: string)
    ensures Items("]" + post) == Some([])
  {
  }

  lemma ItemsSpace(s: string)
    ensures Items(" " + s) == Items(s)
  {
    assert (" " + s)[1..] == s;
    assert SkipSpace(" " + s) == SkipSpace(s);
  }

  ghost predicate CleanValue(v: Value) {
    match v
    case Text(s) => Clean(s)
    case Texts(items) => forall s | s in items :: Clean(s)
  }

  lemma ValueRead(v: Value, post: string)
    requires CleanValue(v)
    ensures ReadValue(Show(v) + post) == Some(v)
  {
    hide StringToken; hide Items; hide Quote;
    match v {
      case Text(s) =>
        QuoteIs(s);
        assert (Quote(s) + post)[0] == '"';
        StringRead(s, post);
      case Texts(items) =>
        assert (Show(v) + post)[1..] == QuoteAll(items) + ("]" + post) && (Show(v) + post)[0] == '[';
        ItemsRead(items, post);
    }
  }

  // ----- attributes ------------------------------------------------------

  /** An attribute's or a block's name: nothing a scanner stops at. */
  predicate WordChar(c: char) { Alnum(c) || c == '_' || c == '.' }
  predicate Word(s: string) { s != "" && forall i | 0 <= i < |s| :: WordChar(s[i]) }

  function Lookup(fields: seq<Field>, key: string): Option<Value> {
    if fields == [] then None else if fields[0].key == key then Some(fields[0].value) else Lookup(fields[1..], key)
  }

  lemma TwoSpaces(s: string)
    requires s != "" && !Space(s[0])
    ensures SkipSpace("  " + s) == s && SkipSpace(" " + s) == s && SkipSpace(s) == s
  {
    assert SkipSpace(s) == s;
    assert (" " + s)[1..] == s && (" " + s)[0] == ' ';
    assert SkipSpace(" " + s) == s;
    assert ("  " + s)[1..] == " " + s && ("  " + s)[0] == ' ';
  }

  /** What is read after a key and an equals sign. */
  lemma AttrAtForm(key: string, v: string)
    requires key != "" && !Space(key[0]) && v != "" && !Space(v[0])
    ensures AttrAt("  " + (key + (" " + ("=" + (" " + v)))), key) == ReadValue(v)
  {
    hide ReadValue;
    var eq := "=" + (" " + v);
    var a := key + (" " + eq);
    TwoSpaces(a);
    TwoSpaces(eq);
    TwoSpaces(v);
    hide SkipSpace;
    assert a[..|key|] == key && a[|key|..] == " " + eq && eq[1..] == " " + v;
  }

  /** A line's own attribute. */
  lemma AttrAtOwn(f: Field, rest: string)
    requires Word(f.key) && CleanValue(f.value)
    ensures AttrAt(Line(f) + rest, f.key) == Some(f.value)
  {
    hide ReadValue; hide Show; hide WordChar; hide AttrAt;
    var v := Show(f.value) + ("\n" + rest);
    assert Line(f) + rest == "  " + (f.key + (" " + ("=" + (" " + v))));
    WordIsNoSpace(f.key, 0);
    ShowStarts(f.value);
    ValueRead(f.value, "\n" + rest);
    AttrAtForm(f.key, v);
  }

  /** Another key's. */
  lemma AttrAtOther(f: Field, rest: string, key: string)
    requires Word(f.key) && Word(key) && f.key != key
    ensures AttrAt(Line(f) + rest, key) == None
  {
    hide ReadValue; hide Show; hide WordChar;
    var tail := " = " + (Show(f.value) + ("\n" + rest));
    var a := f.key + tail;
    assert Line(f) + rest == "  " + a;
    WordIsNoSpace(f.key, 0);
    TwoSpaces(a);
    if StartsWith(a, key) {
      if |key| > |f.key| {
        assert key[|f.key|] == a[|f.key|];
        WordIsNoSpace(key, |f.key|);
      } else if |key| < |f.key| {
        assert a[|key|..][0] == f.key[|key|];
        WordIsNoSpace(f.key, |key|);
      }
    }
  }

  lemma AttrAtLine(f: Field, rest: string, key: string)
    requires Word(f.key) && Word(key) && CleanValue(f.value)
    ensures AttrAt(Line(f) + rest, key) == if f.key == key then Some(f.value) else None
  {
    hide *;
    if f.key == key { AttrAtOwn(f, rest); } else { AttrAtOther(f, rest, key); }
  }

  lemma WordIsNoSpace(s: string, i: nat)
    requires Word(s) && i < |s|
    ensures !Space(s[i]) && s[i] != '=' && s[i] != '\n'
  {
  }

  lemma ShowStarts(v: Value)
    ensures Show(v) != "" && !Space(Show(v)[0])
  {
  }

  lemma {:induction false} AttrPasses(s: string, rest: string, key: string)
    requires '\n' !in s
    ensures Attr(false, s + ("\n" + rest), key) == Attr(true, rest, key)
  {
    hide AttrAt;
    var t := s + ("\n" + rest);
    if s == "" {
      assert t == "\n" + rest && t[1..] == rest;
    } else {
      assert t[0] == s[0] && t[1..] == s[1..] + ("\n" + rest);
      AttrPasses(s[1..], rest, key);
    }
  }

  lemma AttrLine(f: Field, rest: string, key: string)
    requires Word(f.key) && Word(key) && CleanValue(f.value)
    ensures Attr(true, Line(f) + rest, key) == if f.key == key then Some(f.value) else Attr(true, rest, key)
  {
    hide AttrAt; hide Show; hide WordChar;
    AttrAtLine(f, rest, key);
    if f.key != key {
      var inside := " " + f.key + " = " + Show(f.value);
      var t := Line(f) + rest;
      assert t[0] == ' ' && t[1..] == inside + ("\n" + rest);
      assert '\n' !in f.key by {
        if '\n' in f.key {
          var i :| 0 <= i < |f.key| && f.key[i] == '\n';
          WordIsNoSpace(f.key, i);
        }
      }
      ShowOneLine(f.value);
      assert '\n' !in inside;
      AttrPasses(inside, rest, key);
    }
  }

  lemma {:induction false} EscapeOneLine(s: string)
    requires Clean(s)
    ensures '\n' !in Escape(s)
  {
    if s != "" {
      EscapeOneLine(s[1..]);
      assert '\n' !in EscapeChar(s[0]);
    }
  }

  lemma QuoteOneLine(s: string)
    requires Clean(s)
    ensures '\n' !in Quote(s)
  {
    QuoteIs(s);
    EscapeOneLine(s);
  }

  lemma {:induction false} QuoteAllOneLine(items: seq<string>)
    requires forall s | s in items :: Clean(s)
    ensures '\n' !in QuoteAll(items)
  {
    hide Quote;
    if items != [] { QuoteOneLine(items[0]); QuoteAllOneLine(items[1..]); }
  }

  lemma ShowOneLine(v: Value)
    requires CleanValue(v)
    ensures '\n' !in Show(v)
  {
    match v { case Text(s) => QuoteOneLine(s); case Texts(items) => QuoteAllOneLine(items); }
  }

  ghost predicate GoodFields(fields: seq<Field>) {
    forall f | f in fields :: Word(f.key) && CleanValue(f.value)
  }

  lemma {:induction false} AttrReads(fields: seq<Field>, key: string)
    requires GoodFields(fields) && Word(key)
    ensures Attr(true, Lines(fields), key) == Lookup(fields, key)
  {
    hide Line; hide AttrAt; hide Word;
    if fields == [] {
      NoAttr(key);
    } else {
      AttrReads(fields[1..], key);
      AttrLine(fields[0], Lines(fields[1..]), key);
    }
  }

  lemma NoAttr(key: string)
    requires Word(key)
    ensures Attr(true, "", key) == None
  {
  }

  /** The newline after the opening brace changes nothing. */
  lemma AttrReadsBody(fields: seq<Field>, key: string)
    requires GoodFields(fields) && Word(key)
    ensures Attr(true, "\n" + Lines(fields), key) == Lookup(fields, key)
  {
    hide ReadValue; hide Lines; hide Word; hide Lookup;
    AttrReads(fields, key);
    var rest := Lines(fields);
    assert ("\n" + rest)[1..] == rest;
    assert SkipSpace("\n" + rest) == SkipSpace(rest);
    assert AttrAt("\n" + rest, key) == AttrAt(rest, key);
  }

  // ----- braces ----------------------------------------------------------

  /** Text a scan for a closing brace passes over at any depth. */
  ghost predicate Neutral(s: string) {
    forall post: string, d: int | d >= 1 :: Close(s + post, d) == Shift(|s|, Close(post, d))
  }

  predicate PlainChar(c: char) { c != '"' && c != '`' && c != '/' && c != '{' && c != '}' }

  lemma NeutralConcat(a: string, b: string)
    requires Neutral(a) && Neutral(b)
    ensures Neutral(a + b)
  {
    hide Close;
    forall post: string, d: int | d >= 1 ensures Close(a + b + post, d) == Shift(|a + b|, Close(post, d)) {
      assert a + b + post == a + (b + post);
      assert Close(a + (b + post), d) == Shift(|a|, Close(b + post, d));
    }
  }

  lemma {:induction false} PlainNeutral(s: string)
    requires forall i | 0 <= i < |s| :: PlainChar(s[i])
    ensures Neutral(s)
  {
    if s == "" {
      assert forall post: string :: s + post == post;
    } else {
      PlainNeutral(s[1..]);
      forall post: string, d: int | d >= 1 ensures Close(s + post, d) == Shift(|s|, Close(post, d)) {
        PlainStep(s, post, d);
      }
    }
  }

  /** One character of a scan for a closing brace. */
  lemma CloseOne(c: char, rest: string, d: int)
    requires PlainChar(c) || c == '{' || c == '}'
    ensures Close([c] + rest, d) ==
            if c == '}' && d == 1 then Some(0)
            else Shift(1, Close(rest, if c == '{' then d + 1 else if c == '}' then d - 1 else d))
  {
    assert ([c] + rest)[0] == c && ([c] + rest)[1..] == rest;
  }

  lemma PlainStep(s: string, post: string, d: int)
    requires s != "" && PlainChar(s[0]) && Neutral(s[1..]) && d >= 1
    ensures Close(s + post, d) == Shift(|s|, Close(post, d))
  {
    hide Close;
    assert s + post == [s[0]] + (s[1..] + post);
    CloseOne(s[0], s[1..] + post, d);
    assert Close(s[1..] + post, d) == Shift(|s[1..]|, Close(post, d));
  }

  lemma QuoteNeutral(s: string)
    ensures Neutral(Quote(s))
  {
    hide Quote; hide SkipString;
    QuoteIs(s);
    forall post: string, d: int | d >= 1 ensures Close(Quote(s) + post, d) == Shift(|Quote(s)|, Close(post, d)) {
      var t := Quote(s) + post;
      assert t[0] == '"' && t[1..] == Escape(s) + ("\"" + post);
      SkipQuoted(s, post);
      assert Token(t) == |Quote(s)|;
      assert t[|Quote(s)|..] == post;
    }
  }

  lemma {:induction false} QuoteAllNeutral(items: seq<string>)
    ensures Neutral(QuoteAll(items))
  {
    hide Quote; hide Neutral;
    if items == [] {
      PlainNeutral("");
    } else if |items| == 1 {
      QuoteNeutral(items[0]);
    } else {
      QuoteNeutral(items[0]);
      PlainNeutral(", ");
      QuoteAllNeutral(items[1..]);
      NeutralConcat(Quote(items[0]), ", ");
      NeutralConcat(Quote(items[0]) + ", ", QuoteAll(items[1..]));
    }
  }

  lemma ShowNeutral(v: Value)
    ensures Neutral(Show(v))
  {
    hide Neutral;
    match v {
      case Text(s) => QuoteNeutral(s);
      case Texts(items) =>
        QuoteAllNeutral(items);
        PlainNeutral("[");
        PlainNeutral("]");
        NeutralConcat("[", QuoteAll(items));
        NeutralConcat("[" + QuoteAll(items), "]");
    }
  }

  lemma {:induction false} LinesNeutral(fields: seq<Field>)
    requires GoodFields(fields)
    ensures Neutral(Lines(fields))
  {
    hide Neutral; hide Show;
    if fields == [] {
      PlainNeutral("");
    } else {
      var f := fields[0];
      WordPlain(f.key);
      PlainNeutral("  " + f.key + " = ");
      ShowNeutral(f.value);
      PlainNeutral("\n");
      NeutralConcat("  " + f.key + " = ", Show(f.value));
      NeutralConcat("  " + f.key + " = " + Show(f.value), "\n");
      LinesNeutral(fields[1..]);
      NeutralConcat(Line(f), Lines(fields[1..]));
    }
  }

  lemma WordPlain(s: string)
    requires Word(s)
    ensures forall i | 0 <= i < |s| :: PlainChar(s[i])
  {
  }

  /** Braces around neutral text close where they should, and are neutral. */
  lemma BracesClose(inner: string, post: string, d: int)
    requires Neutral(inner) && d >= 0
    ensures Close("{" + inner + "}" + post, d) ==
            if d == 0 then Some(|inner| + 1) else Shift(|inner| + 2, Close(post, d))
  {
    hide Close;
    var tail := "}" + post;
    assert "{" + inner + "}" + post == ['{'] + (inner + tail);
    CloseOne('{', inner + tail, d);
    assert Close(inner + tail, d + 1) == Shift(|inner|, Close(tail, d + 1));
    CloseOne('}', post, d + 1);
    assert tail == ['}'] + post;
  }

  lemma BracesNeutral(inner: string)
    requires Neutral(inner)
    ensures Neutral("{" + inner + "}")
  {
    hide Close;
    forall post: string, d: int | d >= 1
      ensures Close("{" + inner + "}" + post, d) == Shift(|"{" + inner + "}"|, Close(post, d))
    {
      BracesClose(inner, post, d);
    }
  }

  lemma BodyReads(inner: string, post: string)
    requires Neutral(inner)
    ensures Body("{" + inner + "}" + post) == Some(inner)
  {
    hide Close; hide Neutral;
    BracesClose(inner, post, 0);
    assert ("{" + inner + "}" + post)[1..|inner| + 1] == inner;
  }

  // ----- blocks ----------------------------------------------------------

  function Inner(fields: seq<Field>): string { "\n" + Lines(fields) }

  lemma InnerNeutral(fields: seq<Field>)
    requires GoodFields(fields)
    ensures Neutral(Inner(fields))
  {
    hide Neutral;
    LinesNeutral(fields);
    PlainNeutral("\n");
    NeutralConcat("\n", Lines(fields));
  }

  /** One `name { … }` at depth 0, and what follows it. */
  lemma OneBlock(prev: char, name: string, inner: string, rest: string)
    requires Word(name) && Neutral(inner) && !(Alnum(prev) || prev == '.' || prev == '_')
    requires FindBlocks('}', rest, 0, name).Some?
    ensures FindBlocks(prev, name + " " + ("{" + inner + "}" + rest), 0, name) ==
            Some([inner] + FindBlocks('}', rest, 0, name).value)
  {
    hide Body; hide Neutral;
    var braces := "{" + inner + "}" + rest;
    var t := name + " " + braces;
    WordPlain(name);
    assert t[0] == name[0] && t[..|name|] == name && t[|name|..] == " " + braces;
    TwoSpaces(braces);
    BodyReads(inner, rest);
    assert braces[|inner| + 2..] == rest;
  }

  lemma NewlineFirst(prev: char, rest: string, name: string)
    requires Word(name)
    ensures FindBlocks(prev, "\n" + rest, 0, name) == FindBlocks('\n', rest, 0, name)
  {
    assert ("\n" + rest)[0] == '\n' && ("\n" + rest)[1..] == rest;
    WordIsNoSpace(name, 0);
  }

  function Inners(all: seq<seq<Field>>): seq<string> { if all == [] then [] else [Inner(all[0])] + Inners(all[1..]) }

  ghost predicate GoodBlocks(all: seq<seq<Field>>) { forall b | b in all :: GoodFields(b) }

  lemma {:induction false} BlocksRead(name: string, all: seq<seq<Field>>)
    requires Word(name) && GoodBlocks(all)
    ensures FindBlocks('\n', Blocks(name, all), 0, name) == Some(Inners(all))
  {
    hide FindBlocks; hide Neutral; hide Word; hide Lines; hide GoodFields;
    if all == [] {
      NoBlocks('\n', name);
    } else {
      var more := Blocks(name, all[1..]);
      BlocksRead(name, all[1..]);
      NewlineFirst('}', more, name);
      InnerNeutral(all[0]);
      assert Blocks(name, all) == name + " " + ("{" + Inner(all[0]) + "}" + ("\n" + more));
      OneBlock('\n', name, Inner(all[0]), "\n" + more);
    }
  }

  lemma NoBlocks(prev: char, name: string)
    requires Word(name)
    ensures FindBlocks(prev, "", 0, name) == Some([])
  {
  }

  lemma {:induction false} BlocksNeutral(name: string, all: seq<seq<Field>>)
    requires Word(name) && GoodBlocks(all)
    ensures Neutral(Blocks(name, all))
  {
    hide Neutral; hide Lines; hide GoodFields;
    if all == [] {
      PlainNeutral("");
    } else {
      var f := all[0];
      WordPlain(name);
      PlainNeutral(name + " ");
      InnerNeutral(f);
      BracesNeutral(Inner(f));
      NeutralConcat(name + " ", "{" + Inner(f) + "}");
      PlainNeutral("\n");
      assert Block(name, f) == name + " " + ("{" + Inner(f) + "}");
      NeutralConcat(Block(name, f), "\n");
      BlocksNeutral(name, all[1..]);
      NeutralConcat(Block(name, f) + "\n", Blocks(name, all[1..]));
    }
  }

  // ----- the wrapped text ------------------------------------------------

  const KIND := "prometheus.remote_write"
  const TITLE := "solo7dev_metrics"
  const ENDPOINT := "endpoint"
  const RULE := "write_relabel_config"

  /** A metrics destination around a text of rules. */
  function Wrap(rules: string): string {
    KIND + " \"" + TITLE + "\" {\n" + ENDPOINT + " {\n" + rules + "}\n}\n"
  }

  /** The bodies of a destination's rules: component, then endpoint, then the rule blocks. */
  function RuleBodies(cfg: string): Option<seq<string>> {
    var body := Component(true, cfg, KIND, TITLE);
    if body.None? then None
    else
      var endpoints := FindBlocks(' ', body.value, 0, ENDPOINT);
      if endpoints.None? then None
      else FindBlocks(' ', if endpoints.value == [] then "" else endpoints.value[0], 0, RULE)
  }

  lemma WrapIs(rules: string)
    ensures var endpoint := ENDPOINT + " " + ("{" + ("\n" + rules) + "}" + "\n");
            Wrap(rules) == KIND + (" \"" + TITLE + "\" " + ("{" + ("\n" + endpoint) + "}" + "\n"))
  {
  }

  /** A line that starts with a kind, a space and a quoted title, a space and a brace. */
  lemma ComponentStarts(kind: string, title: string, braces: string)
    requires kind != "" && !Space(kind[0]) && braces != "" && braces[0] == '{'
    ensures ComponentAt(kind + (" " + ("\"" + title + "\"" + (" " + braces))), kind, title) == Some(braces)
  {
    var quoted := "\"" + title + "\"";
    var c := quoted + (" " + braces);
    var b := " " + c;
    var t := kind + b;
    assert t[0] == kind[0] && c[0] == '"' && b[0] == ' ' && b != c;
    TwoSpaces(t);
    TwoSpaces(c);
    TwoSpaces(braces);
    assert t[..|kind|] == kind && t[|kind|..] == b;
    assert |quoted| == |title| + 2 && c[..|quoted|] == quoted && c[|quoted|..] == " " + braces;
    hide SkipSpace;
  }

  lemma ComponentReads(inner: string)
    requires Neutral(inner)
    ensures Component(true, KIND + (" \"" + TITLE + "\" " + ("{" + inner + "}" + "\n")), KIND, TITLE) == Some(inner)
  {
    var braces := "{" + inner + "}" + "\n";
    var t := KIND + (" " + ("\"" + TITLE + "\"" + (" " + braces)));
    KindStarts();
    hide KIND; hide TITLE; hide Body; hide Neutral; hide ComponentAt;
    assert t == KIND + (" \"" + TITLE + "\" " + braces);
    ComponentStarts(KIND, TITLE, braces);
    BodyReads(inner, "\n");
  }

  lemma KindStarts()
    ensures KIND != "" && !Space(KIND[0])
  {
    assert KIND[0] == 'p';
  }

  lemma WordConstants()
    ensures Word(ENDPOINT) && Word(RULE)
  {
  }

  /** The round trip: the blocks printed for any rules, wrapped as a destination, are read back as
      exactly those blocks, in order, each attribute with the value it was printed from. */
  lemma TextRoundTrip(all: seq<seq<Field>>)
    requires GoodBlocks(all)
    ensures RuleBodies(Wrap(Blocks(RULE, all))) == Some(Inners(all))
    ensures |Inners(all)| == |all|
    ensures forall i, key | 0 <= i < |all| && Word(key) :: Attr(true, Inners(all)[i], key) == Lookup(all[i], key)
  {
    hide *;
    WordConstants();
    var rules := Blocks(RULE, all);
    var inside := "\n" + rules;
    PlainNewline();
    BlocksNeutral(RULE, all);
    NeutralConcat("\n", rules);
    var endpoint := ENDPOINT + " " + ("{" + inside + "}" + "\n");
    EndpointNeutral(inside);
    WrapIs(rules);
    ComponentReads("\n" + endpoint);
    NewlineFirst(' ', endpoint, ENDPOINT);
    NoBlocks('\n', ENDPOINT);
    NewlineFirst('}', "", ENDPOINT);
    assert "\n" + "" == "\n";
    OneEndpoint(inside);
    NewlineFirst(' ', rules, RULE);
    BlocksRead(RULE, all);
    Assemble(rules, endpoint, inside, Inners(all));
    InnersAre(all);
  }

  lemma PlainNewline()
    ensures Neutral("\n")
  {
    PlainNeutral("\n");
  }

  lemma EndpointNeutral(inside: string)
    requires Neutral(inside)
    ensures Neutral("\n" + (ENDPOINT + " " + ("{" + inside + "}" + "\n")))
  {
    hide Neutral;
    PlainNeutral("\n" + ENDPOINT + " ");
    PlainNewline();
    BracesNeutral(inside);
    NeutralConcat("\n" + ENDPOINT + " ", "{" + inside + "}");
    NeutralConcat("\n" + ENDPOINT + " " + ("{" + inside + "}"), "\n");
    assert "\n" + ENDPOINT + " " + ("{" + inside + "}") + "\n" == "\n" + (ENDPOINT + " " + ("{" + inside + "}" + "\n"));
  }

  lemma OneEndpoint(inside: string)
    requires Neutral(inside)
    ensures FindBlocks('\n', ENDPOINT + " " + ("{" + inside + "}" + "\n"), 0, ENDPOINT) == Some([inside])
  {
    hide Neutral; hide FindBlocks;
    WordConstants();
    NoBlocks('\n', ENDPOINT);
    NewlineFirst('}', "", ENDPOINT);
    assert "\n" + "" == "\n";
    OneBlock('\n', ENDPOINT, inside, "\n");
    assert [inside] + [] == [inside];
  }

  lemma Assemble(rules: string, endpoint: string, inside: string, inners: seq<string>)
    requires Component(true, Wrap(rules), KIND, TITLE) == Some("\n" + endpoint)
    requires FindBlocks(' ', "\n" + endpoint, 0, ENDPOINT) == Some([inside])
    requires FindBlocks(' ', inside, 0, RULE) == Some(inners)
    ensures RuleBodies(Wrap(rules)) == Some(inners)
  {
    hide Component; hide FindBlocks; hide Wrap;
  }

  lemma {:induction false} InnersAre(all: seq<seq<Field>>)
    requires GoodBlocks(all)
    ensures |Inners(all)| == |all|
    ensures forall i, key | 0 <= i < |all| && Word(key) :: Attr(true, Inners(all)[i], key) == Lookup(all[i], key)
  {
    hide Attr; hide Word; hide Lookup; hide Lines; hide GoodFields;
    if all != [] {
      InnersAre(all[1..]);
      forall key | Word(key) ensures Attr(true, Inner(all[0]), key) == Lookup(all[0], key) {
        AttrReadsBody(all[0], key);
      }
      forall i, key | 0 <= i < |all| && Word(key) ensures Attr(true, Inners(all)[i], key) == Lookup(all[i], key) {
        if i > 0 {
          assert Inners(all)[i] == Inners(all[1..])[i - 1] && all[i] == all[1..][i - 1];
        }
      }
    }
  }
}
