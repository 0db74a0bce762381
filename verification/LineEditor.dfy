/** dev.yaml edited as lines (scripts/promote.py _block_end, _find_key, set_value), against an update of
    the tree the lines stand for. */
module LineEditor {
  import opened Options
  import opened Strings

  // ----- lines -----------------------------------------------------------

  function LStrip(s: string): string { if s != "" && Space(s[0]) then LStrip(s[1..]) else s }

  function IndentOf(s: string): int { |s| - |LStrip(s)| }

  /** Blank, or a comment. */
  predicate Skip(s: string) { LStrip(s) == "" || LStrip(s)[0] == '#' }

  predicate Blank(s: string) { LStrip(s) == "" }

  /** `^ {indent}key:(\s|$)`. */
  predicate KeyAt(line: string, indent: nat, key: string) {
    var head := Spaces(indent) + key + ":";
    |head| <= |line| && line[..|head|] == head && (|line| == |head| || Space(line[|head|]))
  }

  /** The first line of a range that sets the key, from the range's start. */
  function FindIn(s: seq<string>, indent: nat, key: string): Option<nat> {
    if s == [] then None
    else if KeyAt(s[0], indent, key) then Some(0)
    else
      var r := FindIn(s[1..], indent, key);
      if r.None? then None else Some(r.value + 1)
  }

  /** How many of the lines after a key belong to its block: up to the last that is neither blank nor a
      comment before one indented no deeper. */
  function BlockLen(rest: seq<string>, indent: int): (n: nat)
    ensures n <= |rest|
  {
    if rest == [] then 0
    else if Skip(rest[0]) then
      var n := BlockLen(rest[1..], indent);
      if n == 0 then 0 else n + 1
    else if IndentOf(rest[0]) <= indent then 0
    else 1 + BlockLen(rest[1..], indent)
  }

  /** `\s+#.*$`: from the first run of spaces that a hash follows. */
  function CommentOf(line: string): string {
    if line == "" then ""
    else if Space(line[0]) && LStrip(line) != "" && LStrip(line)[0] == '#' then line
    else CommentOf(line[1..])
  }

  /** The lines a missing path adds. */
  function NewLines(path: seq<string>, indent: nat, v: string): seq<string>
    requires path != []
  {
    if |path| == 1 then [Spaces(indent) + path[0] + ": " + v]
    else [Spaces(indent) + path[0] + ":"] + NewLines(path[1..], indent + 2, v)
  }

  /** Where new lines go: at the end of the range, before its trailing blank lines. */
  function InsertAt(lines: seq<string>, lo: nat, hi: nat): (at: nat)
    requires lo <= hi <= |lines|
    ensures lo <= at <= hi
  {
    if hi > lo && Blank(lines[hi - 1]) then InsertAt(lines, lo, hi - 1) else hi
  }

  /** set_value's edit, from a depth on: the range [lo, hi) is the block the path's next key is in. */
  function Edit(lines: seq<string>, lo: nat, hi: nat, indent: nat, path: seq<string>, v: string): seq<string>
    requires lo <= hi <= |lines| && path != []
    decreases |path|
  {
    var found := FindIn(lines[lo..hi], indent, path[0]);
    if found.None? then
      var at := InsertAt(lines, lo, hi);
      var new_ := (if indent == 0 then [""] else []) + NewLines(path, indent, v);
      lines[..at] + new_ + lines[at..]
    else
      FoundInside(lines[lo..hi], indent, path[0]);
      var i := lo + found.value;
      if |path| == 1 then lines[i := Spaces(indent) + path[0] + ": " + v + CommentOf(lines[i])]
      else Edit(lines, i + 1, i + 1 + BlockLen(lines[i + 1..], indent), indent + 2, path[1..], v)
  }

  lemma {:induction false} FoundInside(s: seq<string>, indent: nat, key: string)
    ensures FindIn(s, indent, key).Some? ==> FindIn(s, indent, key).value < |s|
  {
    if s != [] { FoundInside(s[1..], indent, key); }
  }

  function SetLines(lines: seq<string>, path: seq<string>, v: string): seq<string>
    requires path != []
  {
    Edit(lines, 0, |lines|, 0, path, v)
  }

  method InsertPoint(lines: seq<string>, lo: nat, hi: nat) returns (at: nat)
    requires lo <= hi <= |lines|
    ensures at == InsertAt(lines, lo, hi)
    ensures lo <= at <= hi && (forall i | at <= i < hi :: Blank(lines[i])) && (at > lo ==> !Blank(lines[at - 1]))
  {
    hide Blank;
    at := hi;
    while at > lo && Blank(lines[at - 1])
      invariant lo <= at <= hi && InsertAt(lines, lo, hi) == InsertAt(lines, lo, at)
      invariant forall i | at <= i < hi :: Blank(lines[i])
    {
      at := at - 1;
    }
  }

  /** One key of the path. */
  lemma EditKey(lines: seq<string>, lo: nat, hi: nat, indent: nat, path: seq<string>, depth: nat, v: string)
    requires lo <= hi <= |lines| && depth < |path|
    ensures var found := FindIn(lines[lo..hi], indent, path[depth]);
            var i := lo + if found.Some? then found.value else 0;
            && (found.Some? ==> i < hi)
            && Edit(lines, lo, hi, indent, path[depth..], v) ==
               if found.None? then
                 var at := InsertAt(lines, lo, hi);
                 lines[..at] + ((if indent == 0 then [""] else []) + NewLines(path[depth..], indent, v)) + lines[at..]
               else if depth == |path| - 1 then
                 lines[i := Spaces(indent) + path[depth] + ": " + v + CommentOf(lines[i])]
               else Edit(lines, i + 1, i + 1 + BlockLen(lines[i + 1..], indent), indent + 2, path[depth + 1..], v)
  {
    hide FindIn; hide BlockLen; hide NewLines; hide CommentOf; hide InsertAt;
    FoundInside(lines[lo..hi], indent, path[depth]);
    assert path[depth..][0] == path[depth] && path[depth..][1..] == path[depth + 1..];
  }

  /** set_value as it loops down the path, moving the range and the indent. */
  method SetValue(text: string, path: seq<string>, v: string) returns (out: string)
    requires path != []
    ensures out == Join(SetLines(Split(text, '\n'), path, v), '\n')
  {
    hide FindIn; hide BlockLen; hide NewLines; hide CommentOf; hide InsertAt; hide Edit; hide Split; hide Join;
    hide Spaces;
    var lines := Split(text, '\n');
    var lo, hi, indent, depth: nat := 0, |lines|, 0, 0;
    ghost var goal := SetLines(lines, path, v);
    assert path[0..] == path;
    while true
      invariant depth < |path| && 0 <= lo <= hi <= |lines| && indent == 2 * depth
      invariant goal == Edit(lines, lo, hi, indent, path[depth..], v)
      decreases |path| - depth
    {
      EditKey(lines, lo, hi, indent, path, depth, v);
      var found := FindIn(lines[lo..hi], indent, path[depth]);
      if found.None? {
        var at := InsertPoint(lines, lo, hi);
        var new_ := (if depth == 0 then [""] else []) + NewLines(path[depth..], indent, v);
        lines := lines[..at] + new_ + lines[at..];
        break;
      }
      var i := lo + found.value;
      if depth == |path| - 1 {
        lines := lines[i := Spaces(indent) + path[depth] + ": " + v + CommentOf(lines[i])];
        break;
      }
      lo, hi := i + 1, i + 1 + BlockLen(lines[i + 1..], indent);
      indent, depth := indent + 2, depth + 1;
    }
    out := Join(lines, '\n');
  }

  // ----- documents -------------------------------------------------------

  /** A block mapping as it is laid out: each key with the blank and comment lines above it, the value on
      its line and the entries indented under it. A key with both a value and entries is not YAML. */
  datatype Entry = Entry(lead: seq<string>, key: string, value: string, comment: string, children: seq<Entry>)

  /** The document: its entries, and the blank and comment lines after the last. */
  datatype Doc = Doc(entries: seq<Entry>, tail: seq<string>)

  /** What follows the key's colon. */
  function AfterKey(e: Entry): string { (if e.value == "" then "" else " " + e.value) + e.comment }

  function KeyLine(e: Entry, indent: nat): string { Spaces(indent) + e.key + ":" + AfterKey(e) }

  function Print(es: seq<Entry>, indent: nat): seq<string>
    decreases es
  {
    if es == [] then []
    else es[0].lead + [KeyLine(es[0], indent)] + Children(es[0], indent) + Print(es[1..], indent)
  }

  function Children(e: Entry, indent: nat): seq<string>
    decreases e
  {
    Print(e.children, indent + 2)
  }

  function PrintDoc(d: Doc): seq<string> { Print(d.entries, 0) + d.tail }

  // ----- what a document may hold ----------------------------------------

  predicate PlainKey(k: string) { k != "" && forall i | 0 <= i < |k| :: !Space(k[i]) && k[i] != ':' && k[i] != '#' }

  /** A plain scalar on one line: no space at either end, no hash. */
  predicate PlainValue(v: string) {
    v == "" || (!Space(v[0]) && !Space(v[|v| - 1]) && '#' !in v && '\n' !in v)
  }

  predicate PlainComment(c: string) { c == "" || (Space(c[0]) && LStrip(c) != "" && LStrip(c)[0] == '#' && '\n' !in c) }

  ghost predicate WellFormed(es: seq<Entry>)
    decreases es
  {
    && (forall i, j | 0 <= i < j < |es| :: es[i].key != es[j].key)
    && forall i | 0 <= i < |es| :: WellFormedEntry(es[i])
  }

  ghost predicate WellFormedEntry(e: Entry)
    decreases e
  {
    && PlainKey(e.key) && PlainValue(e.value) && PlainComment(e.comment) && WellFormed(e.children)
    && forall l | l in e.lead :: Skip(l) && '\n' !in l
  }

  ghost predicate WellFormedDoc(d: Doc) { WellFormed(d.entries) && forall l | l in d.tail :: Skip(l) && '\n' !in l }

  // ----- the tree --------------------------------------------------------

  datatype Tree = Value(s: string) | Map(fields: map<string, Tree>)

  /** The mapping the entries stand for; None where a key holds both a value and entries. */
  function TreeOf(es: seq<Entry>): Option<map<string, Tree>>
    decreases es
  {
    if es == [] then Some(map[])
    else
      var t, m := TreeOfEntry(es[0]), TreeOf(es[1..]);
      if t.None? || m.None? then None else Some(map[es[0].key := t.value] + m.value)
  }

  function TreeOfEntry(e: Entry): Option<Tree>
    decreases e
  {
    if e.children == [] then Some(Value(e.value))
    else if e.value != "" then None
    else
      var m := TreeOf(e.children);
      if m.None? then None else Some(Map(m.value))
  }

  /** The mapping with the scalar at a path, mappings made on the way. */
  function Put(m: map<string, Tree>, path: seq<string>, v: string): map<string, Tree>
    requires path != []
    decreases |path|
  {
    if |path| == 1 then m[path[0] := Value(v)]
    else
      var below := if path[0] in m && m[path[0]].Map? then m[path[0]].fields else map[];
      m[path[0] := Map(Put(below, path[1..], v))]
  }

  /** The path's intermediate keys are absent or mappings. */
  predicate Open(m: map<string, Tree>, path: seq<string>)
    requires path != []
    decreases |path|
  {
    path[0] !in m || |path| == 1 || (m[path[0]].Map? && Open(m[path[0]].fields, path[1..]))
  }

  /** The path leads to a mapping. */
  predicate HoldsMapping(m: map<string, Tree>, path: seq<string>)
    requires path != []
    decreases |path|
  {
    path[0] in m && m[path[0]].Map? && (|path| == 1 || HoldsMapping(m[path[0]].fields, path[1..]))
  }

  /** A scalar that is not empty is on the path's way. */
  predicate ThroughValue(m: map<string, Tree>, path: seq<string>)
    requires path != []
    decreases |path|
  {
    && |path| > 1 && path[0] in m
    && match m[path[0]] case Value(s) => s != "" case Map(fields) => ThroughValue(fields, path[1..])
  }

  // ----- the same edit on the document -----------------------------------

  function NewEntry(lead: seq<string>, path: seq<string>, v: string): Entry
    requires path != []
    decreases |path|
  {
    if |path| == 1 then Entry(lead, path[0], v, "", [])
    else Entry(lead, path[0], "", "", [NewEntry([], path[1..], v)])
  }

  /** The entry's position, or the number of entries. */
  function IndexOfKey(es: seq<Entry>, key: string): (i: nat)
    ensures i <= |es| && (i < |es| ==> es[i].key == key) && forall j | 0 <= j < i :: es[j].key != key
  {
    if es == [] || es[0].key == key then 0 else 1 + IndexOfKey(es[1..], key)
  }

  /** The entries edited; a missing key's entry takes `lead` above it. */
  function EditEntries(es: seq<Entry>, path: seq<string>, v: string, lead: seq<string>): seq<Entry>
    requires path != []
    decreases |path|
  {
    var i := IndexOfKey(es, path[0]);
    if i == |es| then es + [NewEntry(lead, path, v)]
    else if |path| == 1 then es[i := es[i].(value := v)]
    else es[i := es[i].(children := EditEntries(es[i].children, path[1..], v, []))]
  }

  /** How much of the document's tail a new top-level key goes after: all but its trailing blanks. */
  function Kept(tail: seq<string>): (n: nat)
    ensures n <= |tail|
  {
    if tail != [] && Blank(tail[|tail| - 1]) then Kept(tail[..|tail| - 1]) else |tail|
  }

  function EditDoc(d: Doc, path: seq<string>, v: string): Doc
    requires path != []
  {
    if IndexOfKey(d.entries, path[0]) == |d.entries| then
      var n := Kept(d.tail);
      Doc(EditEntries(d.entries, path, v, d.tail[..n] + [""]), d.tail[n..])
    else d.(entries := EditEntries(d.entries, path, v, []))
  }

  // ----- which lines set a key -------------------------------------------

  lemma {:induction false} LStripSpaces(n: nat, s: string)
    requires s != "" && !Space(s[0])
    ensures LStrip(Spaces(n) + s) == s
  {
    if n == 0 {
      assert Spaces(0) + s == s;
    } else {
      LStripSpaces(n - 1, s);
      assert (Spaces(n) + s)[0] == ' ' && (Spaces(n) + s)[1..] == Spaces(n - 1) + s;
    }
  }

  /** A key's line is neither blank nor a comment, and sits at its indent. */
  lemma KeyLineIs(e: Entry, n: nat)
    requires PlainKey(e.key)
    ensures !Skip(KeyLine(e, n)) && IndentOf(KeyLine(e, n)) == n
  {
    hide Spaces;
    var rest := KeyLine(e, n)[n..];
    assert KeyLine(e, n) == Spaces(n) + rest && rest[0] == e.key[0];
    LStripSpaces(n, rest);
  }

  /** Its text after the key's colon starts with a space, if it has any. */
  lemma AfterColon(e: Entry)
    requires WellFormedEntry(e)
    ensures AfterKey(e) == "" || Space(AfterKey(e)[0])
  {
  }

  lemma KeyAtLine(e: Entry, n: nat, m: nat, key: string)
    requires WellFormedEntry(e) && PlainKey(key)
    ensures KeyAt(KeyLine(e, n), m, key) <==> n == m && e.key == key
  {
    hide Spaces; hide WellFormedEntry;
    var t := AfterKey(e);
    AfterColon(e);
    EntryKey(e);
    var line := KeyLine(e, n);
    var head := Spaces(m) + key + ":";
    assert line == Spaces(n) + e.key + ":" + t;
    assert forall i | 0 <= i < n :: line[i] == ' ';
    assert forall i | 0 <= i < m :: head[i] == ' ';
    assert line[n] == e.key[0] && head[m] == key[0];
    if n == m && e.key == key {
      assert line[..|head|] == head;
    } else if n == m && |head| <= |line| && line[..|head|] == head {
      SameUpToColon(line, n, e.key, key, t);
    }
  }

  lemma EntryKey(e: Entry)
    requires WellFormedEntry(e)
    ensures PlainKey(e.key)
  {
  }

  lemma SameUpToColon(line: string, n: nat, a: string, b: string, t: string)
    requires PlainKey(a) && PlainKey(b) && line == Spaces(n) + a + ":" + t
    requires |Spaces(n) + b + ":"| <= |line| && line[..|Spaces(n) + b + ":"|] == Spaces(n) + b + ":"
    ensures a == b
  {
    hide Spaces;
    var head := Spaces(n) + b + ":";
    assert line[n + |a|] == ':' && head[n + |b|] == ':';
    assert forall i | 0 <= i < |a| :: line[n + i] == a[i];
    assert forall i | 0 <= i < |b| :: head[n + i] == b[i];
    assert forall i | 0 <= i < |head| :: line[i] == head[i];
    assert |a| == |b|;
  }

  lemma {:induction false} SkipPrefix(line: string, i: nat)
    requires i < |line| && forall j | 0 <= j < i :: Space(line[j])
    requires !Space(line[i])
    ensures LStrip(line) == line[i..]
  {
    if i > 0 { SkipPrefix(line[1..], i - 1); }
  }

  lemma KeyAtSkip(line: string, m: nat, key: string)
    requires Skip(line) && PlainKey(key)
    ensures !KeyAt(line, m, key)
  {
    hide Spaces;
    var head := Spaces(m) + key + ":";
    if |head| <= |line| && line[..|head|] == head {
      assert forall j | 0 <= j < m :: line[j] == head[j];
      assert line[m] == head[m];
      SkipPrefix(line, m);
    }
  }

  lemma {:induction false} FindConcat(a: seq<string>, b: seq<string>, n: nat, key: string)
    ensures FindIn(a + b, n, key) ==
            if FindIn(a, n, key).Some? then FindIn(a, n, key)
            else if FindIn(b, n, key).Some? then Some(|a| + FindIn(b, n, key).value) else None
  {
    hide KeyAt;
    if a == [] {
      assert a + b == b;
    } else {
      assert (a + b)[0] == a[0] && (a + b)[1..] == a[1..] + b;
      FindConcat(a[1..], b, n, key);
    }
  }

  lemma {:induction false} FindNone(s: seq<string>, n: nat, key: string)
    requires forall i | 0 <= i < |s| :: !KeyAt(s[i], n, key)
    ensures FindIn(s, n, key) == None
  {
    hide KeyAt;
    if s != [] { FindNone(s[1..], n, key); }
  }

  lemma LeadHasNone(e: Entry, n: nat, key: string)
    requires WellFormedEntry(e) && PlainKey(key)
    ensures FindIn(e.lead, n, key) == None
  {
    forall i | 0 <= i < |e.lead| ensures !KeyAt(e.lead[i], n, key) {
      assert e.lead[i] in e.lead;
      KeyAtSkip(e.lead[i], n, key);
    }
    FindNone(e.lead, n, key);
  }

  /** Deeper lines do not set a key at this indent. */
  lemma {:induction false} DeeperHasNone(es: seq<Entry>, deep: nat, n: nat, key: string)
    requires WellFormed(es) && PlainKey(key) && n < deep
    ensures FindIn(Print(es, deep), n, key) == None
    decreases es
  {
    hide KeyAt; hide KeyLine; hide WellFormedEntry; hide FindIn;
    if es == [] {
      FindNone([], n, key);
    } else {
      var e := es[0];
      RestWellFormed(es);
      LeadHasNone(e, n, key);
      KeyAtLine(e, deep, n, key);
      FindNone([KeyLine(e, deep)], n, key);
      ChildrenHaveNone(e, deep, n, key);
      DeeperHasNone(es[1..], deep, n, key);
      FindConcat(e.lead, [KeyLine(e, deep)], n, key);
      FindConcat(e.lead + [KeyLine(e, deep)], Children(e, deep), n, key);
      FindConcat(e.lead + [KeyLine(e, deep)] + Children(e, deep), Print(es[1..], deep), n, key);
    }
  }

  lemma {:induction false} ChildrenHaveNone(e: Entry, deep: nat, n: nat, key: string)
    requires WellFormedEntry(e) && PlainKey(key) && n < deep + 2
    ensures FindIn(Children(e, deep), n, key) == None
    decreases e
  {
    DeeperHasNone(e.children, deep + 2, n, key);
  }

  lemma RestWellFormed(es: seq<Entry>)
    requires WellFormed(es) && es != []
    ensures WellFormed(es[1..]) && WellFormedEntry(es[0])
  {
  }
}
