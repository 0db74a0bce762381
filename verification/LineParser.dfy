/** Reading a two-space block mapping back, and the line editor measured by that reading: what set_value
    checks of its own result before it returns (scripts/promote.py). */
module LineParser {
  import opened Options
  import opened Strings
  import opened LineEditor
  import opened LineEditorProof

  // ----- the reader ------------------------------------------------------

  function RStrip(s: string): string { if s != "" && Space(s[|s| - 1]) then RStrip(s[..|s| - 1]) else s }

  /** What a key's line holds after its colon, its comment aside. */
  function ValueIn(t: string): string {
    var c := CommentOf(t);
    if |c| <= |t| then RStrip(LStrip(t[..|t| - |c|])) else ""
  }

  /** How many lines follow that are blank, a comment or indented deeper. */
  function Under(s: seq<string>, indent: int): (k: nat)
    ensures k <= |s|
  {
    if s != [] && (Skip(s[0]) || IndentOf(s[0]) > indent) then 1 + Under(s[1..], indent) else 0
  }

  predicate AllSkip(s: seq<string>) { forall i | 0 <= i < |s| :: Skip(s[i]) }

  /** A block mapping at an indent, its children two deeper. A key repeated keeps its last value; a value
      with lines under it, a line with no key and a line at another indent are errors. */
  function Parse(s: seq<string>, indent: nat): Option<map<string, Tree>>
    decreases |s|
  {
    if s == [] then Some(map[])
    else if Skip(s[0]) then Parse(s[1..], indent)
    else
      var colon := IndexOf(s[0], ':');
      if IndentOf(s[0]) != indent || colon == |s[0]| || colon < indent then None
      else
        var k := Under(s[1..], indent);
        var value, below := ValueIn(s[0][colon + 1..]), s[1..1 + k];
        var t := if AllSkip(below) then Some(Value(value))
                 else if value != "" then None
                 else
                   var m := Parse(below, indent + 2);
                   if m.None? then None else Some(Map(m.value));
        var rest := Parse(s[1 + k..], indent);
        if t.None? || rest.None? then None else Some(map[s[0][indent..colon] := t.value] + rest.value)
  }

  function ParseText(text: string): Option<map<string, Tree>> { Parse(Split(text, '\n'), 0) }

  // ----- it reads what a document prints ---------------------------------

  lemma {:induction false} PastSkips(a: seq<string>, b: seq<string>, n: nat)
    requires AllSkip(a)
    ensures Parse(a + b, n) == Parse(b, n)
    decreases |a|
  {
    hide Skip;
    if a == [] {
      assert a + b == b;
    } else {
      assert (a + b)[0] == a[0] && (a + b)[1..] == a[1..] + b;
      PastSkips(a[1..], b, n);
    }
  }

  lemma LineParts(e: Entry, n: nat)
    requires WellFormedEntry(e)
    ensures var l := KeyLine(e, n);
            var c := IndexOf(l, ':');
            && !Skip(l) && IndentOf(l) == n && n <= c < |l|
            && l[n..c] == e.key && ValueIn(l[c + 1..]) == e.value
  {
    hide ValueIn; hide IndexOf; hide Skip; hide IndentOf; hide AfterKey; hide WellFormedEntry; hide PlainKey;
    EntryKey(e);
    KeyLineIs(e, n);
    var l := KeyLine(e, n);
    var head := Spaces(n) + e.key;
    assert l == head + (":" + AfterKey(e));
    NoColon(head, n, e.key);
    FirstIndex(head, ":" + AfterKey(e), ':');
    assert l[|head| + 1..] == AfterKey(e);
    ValueRead(e);
  }

  lemma NoColon(head: string, n: nat, key: string)
    requires PlainKey(key) && head == Spaces(n) + key
    ensures ':' !in head
  {
  }

  lemma ValueRead(e: Entry)
    requires WellFormedEntry(e)
    ensures ValueIn(AfterKey(e)) == e.value
  {
    hide CommentOf; hide PlainComment; hide Space;
    var p := if e.value == "" then "" else " " + e.value;
    if e.value != "" { assert p[|p| - 1] == e.value[|e.value| - 1] && '#' !in p; }
    CommentPasses(p, e.comment);
    assert AfterKey(e)[..|p|] == p;
    StripValue(e.value, p);
  }

  lemma StripValue(v: string, p: string)
    requires PlainValue(v) && p == if v == "" then "" else " " + v
    ensures RStrip(LStrip(p)) == v
  {
    if v != "" {
      assert p[1..] == v && p[0] == ' ' && p[1] == v[0];
      assert LStrip(v) == v;
    }
  }

  lemma {:induction false} UnderConcat(a: seq<string>, b: seq<string>, n: int)
    requires forall i | 0 <= i < |a| :: Skip(a[i]) || IndentOf(a[i]) > n
    ensures Under(a + b, n) == |a| + Under(b, n)
  {
    hide Skip; hide IndentOf;
    if a == [] {
      assert a + b == b;
    } else {
      assert (a + b)[0] == a[0] && (a + b)[1..] == a[1..] + b;
      UnderConcat(a[1..], b, n);
    }
  }

  /** A nested mapping's lines are all under its key. */
  lemma {:induction false} PrintUnder(es: seq<Entry>, deep: nat, n: int)
    requires WellFormed(es) && n < deep
    ensures forall i | 0 <= i < |Print(es, deep)| :: Skip(Print(es, deep)[i]) || IndentOf(Print(es, deep)[i]) > n
    decreases es
  {
    hide Skip; hide IndentOf; hide KeyLine; hide WellFormedEntry;
    if es != [] {
      var e := es[0];
      RestWellFormed(es);
      ChildrenUnder(e, deep, n);
      PrintUnder(es[1..], deep, n);
      EntryKey(e);
      KeyLineIs(e, deep);
      LeadSkips(e);
    }
  }

  lemma {:induction false} ChildrenUnder(e: Entry, deep: nat, n: int)
    requires WellFormedEntry(e) && n < deep + 2
    ensures forall i | 0 <= i < |Children(e, deep)| :: Skip(Children(e, deep)[i]) || IndentOf(Children(e, deep)[i]) > n
    decreases e
  {
    hide Skip; hide IndentOf;
    PrintUnder(e.children, deep + 2, n);
  }

  /** The blank and comment lines before the next key. */
  function Gap(es: seq<Entry>, tail: seq<string>): seq<string> { if es == [] then tail else es[0].lead }

  lemma UnderNext(es: seq<Entry>, tail: seq<string>, n: nat)
    requires WellFormed(es) && AllSkip(tail)
    ensures var rest, g := Print(es, n) + tail, Gap(es, tail);
            AllSkip(g) && |g| <= |rest| && rest[..|g|] == g && Under(rest, n) == |g|
  {
    hide Skip; hide IndentOf; hide KeyLine; hide WellFormedEntry;
    var rest, g := Print(es, n) + tail, Gap(es, tail);
    if es == [] {
      assert rest == tail + [];
      UnderConcat(tail, [], n);
    } else {
      var e := es[0];
      RestWellFormed(es);
      LeadSkips(e);
      EntryKey(e);
      KeyLineIs(e, n);
      var more := [KeyLine(e, n)] + Children(e, n) + Print(es[1..], n) + tail;
      assert rest == e.lead + more && more[0] == KeyLine(e, n);
      UnderConcat(e.lead, more, n);
    }
  }

  /** One entry read: its value or its children, then what follows it. */
  lemma ParseEntry(e: Entry, n: nat, next: seq<string>, gap: nat)
    requires WellFormedEntry(e) && gap <= |next| && AllSkip(next[..gap]) && Under(next, n) == gap
    ensures var below := Parse(Children(e, n) + next[..gap], n + 2);
            var rest := Parse(next, n);
            var t := if e.children == [] then Some(Value(e.value))
                     else if e.value != "" || below.None? then None else Some(Map(below.value));
            Parse([KeyLine(e, n)] + Children(e, n) + next, n) ==
            if t.None? || rest.None? then None else Some(map[e.key := t.value] + rest.value)
  {
    hide Skip; hide IndentOf; hide KeyLine; hide WellFormedEntry; hide ValueIn; hide Children; hide IndexOf;
    hide AllSkip;
    hide Parse; hide Under;
    var s := [KeyLine(e, n)] + Children(e, n) + next;
    var c := |Children(e, n)|;
    LineParts(e, n);
    ChildrenUnder(e, n, n);
    assert s[1..] == Children(e, n) + next;
    UnderConcat(Children(e, n), next, n);
    assert s[1..1 + c + gap] == Children(e, n) + next[..gap];
    assert s[1 + c + gap..] == next[gap..] && next == next[..gap] + next[gap..];
    PastSkips(next[..gap], next[gap..], n);
    ChildrenAllSkip(e, n, next[..gap]);
    ParseKey(s, n, c + gap);
  }

  lemma ParseKey(s: seq<string>, n: nat, k: nat)
    requires s != [] && !Skip(s[0]) && IndentOf(s[0]) == n && n <= IndexOf(s[0], ':') < |s[0]| && k == Under(s[1..], n)
    ensures var colon := IndexOf(s[0], ':');
            var value, below := ValueIn(s[0][colon + 1..]), s[1..1 + k];
            var t := if AllSkip(below) then Some(Value(value))
                     else if value != "" || Parse(below, n + 2).None? then None
                     else Some(Map(Parse(below, n + 2).value));
            var rest := Parse(s[1 + k..], n);
            Parse(s, n) == if t.None? || rest.None? then None else Some(map[s[0][n..colon] := t.value] + rest.value)
  {
  }

  lemma ChildrenAllSkip(e: Entry, n: nat, gap: seq<string>)
    requires WellFormedEntry(e) && AllSkip(gap)
    ensures AllSkip(Children(e, n) + gap) <==> e.children == []
  {
    hide Skip;
    ChildrenEnd(e, n);
    if e.children != [] {
      LastIsContent(e.children, n + 2);
      var p := Children(e, n);
      assert (p + gap)[|p| - 1] == p[|p| - 1];
    }
  }

  /** Reading the lines of a document gives its tree, or fails exactly where the document has none. */
  lemma {:induction false} ParsePrint(es: seq<Entry>, n: nat, tail: seq<string>)
    requires WellFormed(es) && AllSkip(tail)
    ensures Parse(Print(es, n) + tail, n) == TreeOf(es)
    decreases es
  {
    hide Skip; hide KeyLine; hide WellFormedEntry; hide Parse; hide AllSkip; hide WellFormed; hide Under;
    if es == [] {
      assert Print(es, n) + tail == tail + [];
      PastSkips(tail, [], n);
      ParseNothing(n);
    } else {
      var e := es[0];
      RestWellFormed(es);
      var next, g := Print(es[1..], n) + tail, Gap(es[1..], tail);
      UnderNext(es[1..], tail, n);
      ParseEntry(e, n, next, |g|);
      ParseChildren(e, n, g);
      ParsePrint(es[1..], n, tail);
      LeadAllSkip(e);
      PastSkips(e.lead, [KeyLine(e, n)] + Children(e, n) + next, n);
      assert Print(es, n) + tail == e.lead + ([KeyLine(e, n)] + Children(e, n) + next);
    }
  }

  lemma {:induction false} ParseChildren(e: Entry, n: nat, gap: seq<string>)
    requires WellFormedEntry(e) && AllSkip(gap)
    ensures Parse(Children(e, n) + gap, n + 2) == TreeOf(e.children)
    decreases e
  {
    hide Parse; hide AllSkip;
    ParsePrint(e.children, n + 2, gap);
  }

  lemma ParseNothing(n: nat)
    ensures Parse([], n) == Some(map[])
  {
  }

  lemma LeadAllSkip(e: Entry)
    requires WellFormedEntry(e)
    ensures AllSkip(e.lead)
  {
  }

  // ----- the tree after an edit ------------------------------------------

  /** The first entry's field, and the rest's. */
  lemma TreeParts(es: seq<Entry>)
    requires es != [] && TreeOf(es).Some?
    ensures TreeOf(es[1..]).Some? && TreeOfEntry(es[0]).Some?
    ensures TreeOf(es).value == map[es[0].key := TreeOfEntry(es[0]).value] + TreeOf(es[1..]).value
  {
    hide TreeOfEntry;
  }

  /** No other key. */
  lemma {:induction false} TreeKeys(es: seq<Entry>, k: string)
    requires TreeOf(es).Some? && k in TreeOf(es).value
    ensures exists i | 0 <= i < |es| :: es[i].key == k
    decreases |es|
  {
    if es != [] {
      TreeParts(es);
      hide TreeOf; hide TreeOfEntry;
      if k == es[0].key {
        assert es[0].key == k;
      } else {
        TreeKeys(es[1..], k);
        var i :| 0 <= i < |es[1..]| && es[1..][i].key == k;
        assert es[i + 1].key == k;
      }
    }
  }

  /** A document's tree, key by key. */
  lemma {:induction false} TreeField(es: seq<Entry>, i: nat)
    requires TreeOf(es).Some? && WellFormed(es) && i < |es|
    ensures es[i].key in TreeOf(es).value && TreeOfEntry(es[i]) == Some(TreeOf(es).value[es[i].key])
    decreases |es|
  {
    TreeParts(es);
    RestWellFormed(es);
    hide TreeOf; hide TreeOfEntry; hide WellFormedEntry;
    if i > 0 {
      TreeField(es[1..], i - 1);
      assert es[1..][i - 1] == es[i];
    } else {
      assert es[0].key !in TreeOf(es[1..]).value by {
        assert forall j | 0 <= j < |es[1..]| :: es[1..][j] == es[j + 1];
        if es[0].key in TreeOf(es[1..]).value { TreeKeys(es[1..], es[0].key); }
      }
    }
  }

  lemma TreeFields(es: seq<Entry>, m: map<string, Tree>)
    requires TreeOf(es) == Some(m) && WellFormed(es)
    ensures forall i | 0 <= i < |es| :: es[i].key in m && TreeOfEntry(es[i]) == Some(m[es[i].key])
    ensures forall k | k in m :: exists i | 0 <= i < |es| :: es[i].key == k
  {
    hide TreeOf; hide TreeOfEntry; hide WellFormed;
    forall i | 0 <= i < |es| ensures es[i].key in m && TreeOfEntry(es[i]) == Some(m[es[i].key]) { TreeField(es, i); }
    forall k | k in m ensures exists i | 0 <= i < |es| :: es[i].key == k { TreeKeys(es, k); }
  }

  lemma KeyInTree(es: seq<Entry>, m: map<string, Tree>, key: string)
    requires TreeOf(es) == Some(m) && WellFormed(es)
    ensures var i := IndexOfKey(es, key);
            && (key in m <==> i < |es|)
            && (i < |es| ==> TreeOfEntry(es[i]) == Some(m[key]))
  {
    hide TreeOf; hide TreeOfEntry; hide WellFormed;
    TreeFields(es, m);
  }

  /** The first entry's field, over the rest's. */
  lemma TreeFirst(es: seq<Entry>)
    requires es != [] && WellFormed(es) && TreeOf(es).Some?
    ensures TreeOf(es[1..]).Some? && TreeOfEntry(es[0]).Some?
    ensures TreeOf(es).value == TreeOf(es[1..]).value[es[0].key := TreeOfEntry(es[0]).value]
  {
    hide WellFormedEntry; hide TreeOfEntry;
    RestWellFormed(es);
    TreeFields(es[1..], TreeOf(es[1..]).value);
    assert es[0].key !in TreeOf(es[1..]).value;
  }

  lemma NoTree()
    ensures TreeOf([]) == Some(map[])
  {
  }

  lemma TreeStep(es: seq<Entry>)
    requires es != []
    ensures var t, m := TreeOfEntry(es[0]), TreeOf(es[1..]);
            TreeOf(es) == if t.None? || m.None? then None else Some(map[es[0].key := t.value] + m.value)
  {
    hide TreeOfEntry;
  }

  /** One entry changed, or put last: the tree changes at its key, or is lost with it. */
  lemma {:induction false} TreeUpdated(es: seq<Entry>, i: nat, e: Entry)
    requires i <= |es| && WellFormed(es) && TreeOf(es).Some? && i == IndexOfKey(es, e.key)
    ensures var r := if i < |es| then es[i := e] else es + [e];
            TreeOf(r) == if TreeOfEntry(e).None? then None else Some(TreeOf(es).value[e.key := TreeOfEntry(e).value])
    decreases |es|
  {
    hide WellFormedEntry; hide TreeOfEntry; hide WellFormed; hide TreeOf;
    var r := if i < |es| then es[i := e] else es + [e];
    TreeStep(r);
    if es == [] {
      NoTree();
      TreeOfOne(e);
      assert r == [e];
    } else {
      RestWellFormed(es);
      TreeFirst(es);
      var t, m := TreeOfEntry(es[0]).value, TreeOf(es[1..]).value;
      if i == 0 {
        assert r[1..] == es[1..] && r[0] == e;
        assert es[0].key !in m by { KeyInTree(es[1..], m, es[0].key); NotLater(es); }
        if TreeOfEntry(e).Some? {
          var u := TreeOfEntry(e).value;
          assert map[e.key := u] + m == m[e.key := t][e.key := u];
        }
      } else {
        TreeUpdated(es[1..], i - 1, e);
        assert r[0] == es[0] && r[1..] == if i < |es| then es[1..][i - 1 := e] else es[1..] + [e];
        if TreeOfEntry(e).Some? {
          NotLater(es);
          KeyInTree(es[1..], m, es[0].key);
          var u := TreeOfEntry(e).value;
          assert map[es[0].key := t] + m[e.key := u] == m[es[0].key := t][e.key := u];
        }
      }
    }
  }

  lemma NotLater(es: seq<Entry>)
    requires es != [] && WellFormed(es)
    ensures IndexOfKey(es[1..], es[0].key) == |es[1..]|
  {
  }

  lemma TreeOfOne(e: Entry)
    ensures TreeOf([e]) == if TreeOfEntry(e).None? then None else Some(map[e.key := TreeOfEntry(e).value])
  {
    hide TreeOfEntry;
    assert [e][1..] == [];
    assert TreeOf([]) == Some(map[]);
    if TreeOfEntry(e).Some? {
      var m := map[e.key := TreeOfEntry(e).value];
      assert m + map[] == m;
    }
  }

  lemma {:induction false} NewTree(lead: seq<string>, path: seq<string>, v: string)
    requires path != [] && v != ""
    ensures TreeOfEntry(NewEntry(lead, path, v)) ==
            Some(if |path| == 1 then Value(v) else Map(Put(map[], path[1..], v)))
    decreases |path|
  {
    if |path| > 1 {
      var below := NewEntry([], path[1..], v);
      NewTree([], path[1..], v);
      TreeOfOne(below);
      var sub := if |path| == 2 then Value(v) else Map(Put(map[], path[2..], v));
      assert path[1..][1..] == path[2..] && path[1..][0] == path[1] && below.key == path[1];
      assert Put(map[], path[1..], v) == map[path[1] := sub];
    }
  }

  /** Editing the entries updates the tree, unless the path leads to a mapping or through a scalar that is not
      empty: then there is no tree. */
  lemma {:induction false} EditedTree(es: seq<Entry>, m: map<string, Tree>, path: seq<string>, v: string,
                                      lead: seq<string>)
    requires WellFormed(es) && TreeOf(es) == Some(m) && path != [] && v != ""
    ensures TreeOf(EditEntries(es, path, v, lead)) ==
            if HoldsMapping(m, path) || ThroughValue(m, path) then None else Some(Put(m, path, v))
    decreases |path|
  {
    hide WellFormed; hide TreeOf; hide IndexOfKey;
    var i := IndexOfKey(es, path[0]);
    KeyInTree(es, m, path[0]);
    if i == |es| {
      NewTree(lead, path, v);
      TreeUpdated(es, i, NewEntry(lead, path, v));
    } else if |path| == 1 {
      TreeUpdated(es, i, es[i].(value := v));
    } else {
      var e := es[i];
      EntryAt(es, i);
      ChildrenWellFormed(e);
      EditKeepsSome(e.children, path[1..], v);
      TreeUpdated(es, i, e.(children := EditEntries(e.children, path[1..], v, [])));
      if e.children == [] {
        NoTree();
        EditedTree([], map[], path[1..], v, []);
      } else {
        EditedTree(e.children, m[path[0]].fields, path[1..], v, []);
      }
    }
  }

  lemma EntryAt(es: seq<Entry>, i: nat)
    requires WellFormed(es) && i < |es|
    ensures WellFormedEntry(es[i])
  {
  }

  lemma EditKeepsSome(es: seq<Entry>, path: seq<string>, v: string)
    requires path != []
    ensures EditEntries(es, path, v, []) != []
  {
  }

  // ----- the edited document is laid out as before -----------------------

  lemma {:induction false} NewWellFormed(lead: seq<string>, path: seq<string>, v: string)
    requires PlainPath(path) && PlainValue(v) && forall l | l in lead :: Skip(l) && '\n' !in l
    ensures WellFormedEntry(NewEntry(lead, path, v)) && NewEntry(lead, path, v).key == path[0]
    decreases |path|
  {
    assert PlainValue("") && PlainComment("");
    hide PlainKey; hide PlainValue; hide Skip;
    if |path| > 1 {
      assert forall k | 0 <= k < |path| - 1 :: path[1..][k] == path[k + 1];
      NewWellFormed([], path[1..], v);
      assert WellFormed([NewEntry([], path[1..], v)]);
    }
    assert WellFormed([]);
  }

  lemma {:induction false} EditedWellFormed(es: seq<Entry>, path: seq<string>, v: string, lead: seq<string>)
    requires WellFormed(es) && PlainPath(path) && PlainValue(v) && forall l | l in lead :: Skip(l) && '\n' !in l
    ensures WellFormed(EditEntries(es, path, v, lead))
    decreases |path|
  {
    hide PlainKey; hide PlainValue; hide Skip; hide NewEntry; hide PlainComment;
    var i := IndexOfKey(es, path[0]);
    if i == |es| {
      NewWellFormed(lead, path, v);
    } else if |path| > 1 {
      assert forall k | 0 <= k < |path| - 1 :: path[1..][k] == path[k + 1];
      EntryAt(es, i);
      EditedWellFormed(es[i].children, path[1..], v, []);
    }
  }

  lemma DocWellFormed(d: Doc, path: seq<string>, v: string)
    requires WellFormedDoc(d) && PlainPath(path) && PlainValue(v)
    ensures WellFormedDoc(EditDoc(d, path, v))
  {
    hide PlainKey; hide PlainValue; hide WellFormed; hide EditEntries; hide IndexOfKey;
    assert Skip("");
    hide Skip;
    var n := Kept(d.tail);
    assert forall l | l in d.tail[..n] + [""] :: Skip(l) && '\n' !in l;
    EditedWellFormed(d.entries, path, v, d.tail[..n] + [""]);
    EditedWellFormed(d.entries, path, v, []);
  }

  // ----- the main results ------------------------------------------------

  /** Reading the edited lines gives the tree updated at the path, an empty key on the way made a mapping; it
      fails when, and only when, the path leads to a mapping or through a scalar that is not empty. */
  lemma EditRefinesPut(d: Doc, path: seq<string>, v: string)
    requires WellFormedDoc(d) && TreeOf(d.entries).Some? && PlainPath(path) && PlainValue(v) && v != ""
    ensures var m := TreeOf(d.entries).value;
            && Parse(PrintDoc(d), 0) == Some(m)
            && Parse(SetLines(PrintDoc(d), path, v), 0) ==
               if HoldsMapping(m, path) || ThroughValue(m, path) then None else Some(Put(m, path, v))
    ensures SetLines(PrintDoc(d), path, v) == PrintDoc(EditDoc(d, path, v))
  {
    hide SetLines; hide Parse; hide TreeOf; hide Print; hide WellFormed; hide PlainValue; hide EditEntries;
    hide Put; hide HoldsMapping; hide ThroughValue; hide Skip;
    var m := TreeOf(d.entries).value;
    var d' := EditDoc(d, path, v);
    ParsePrint(d.entries, 0, d.tail);
    DocWellFormed(d, path, v);
    ParsePrint(d'.entries, 0, d'.tail);
    EditedTree(d.entries, m, path, v, []);
    EditedTree(d.entries, m, path, v, d.tail[..Kept(d.tail)] + [""]);
    SetLinesPrints(d, path, v);
  }

  lemma {:induction false} LinesAreLines(es: seq<Entry>, n: nat)
    requires WellFormed(es)
    ensures forall l | l in Print(es, n) :: '\n' !in l
    decreases es
  {
    hide WellFormedEntry; hide KeyLine;
    if es != [] {
      RestWellFormed(es);
      EntryLines(es[0], n);
      LinesAreLines(es[1..], n);
    }
  }

  lemma {:induction false} EntryLines(e: Entry, n: nat)
    requires WellFormedEntry(e)
    ensures '\n' !in KeyLine(e, n) && (forall l | l in e.lead :: '\n' !in l)
    ensures forall l | l in Children(e, n) :: '\n' !in l
    decreases e
  {
    KeyHasNoNewline(e.key);
    hide PlainKey; hide Skip; hide WellFormed;
    LinesAreLines(e.children, n + 2);
  }

  lemma KeyHasNoNewline(k: string)
    requires PlainKey(k)
    ensures '\n' !in k
  {
  }

  /** The same of the text set_value is given and returns. */
  lemma TextRefinesPut(d: Doc, path: seq<string>, v: string)
    requires WellFormedDoc(d) && TreeOf(d.entries).Some? && PlainPath(path) && PlainValue(v) && v != ""
    requires PrintDoc(d) != []
    ensures var text, m := Join(PrintDoc(d), '\n'), TreeOf(d.entries).value;
            var out := Join(SetLines(Split(text, '\n'), path, v), '\n');
            && ParseText(text) == Some(m)
            && ParseText(out) ==
               if HoldsMapping(m, path) || ThroughValue(m, path) then None else Some(Put(m, path, v))
  {
    hide SetLines; hide Parse; hide TreeOf; hide Print; hide WellFormed; hide PlainValue; hide EditEntries;
    hide Put; hide HoldsMapping; hide ThroughValue; hide Skip; hide EditDoc; hide Split; hide Join;
    EditRefinesPut(d, path, v);
    DocWellFormed(d, path, v);
    var d' := EditDoc(d, path, v);
    LinesAreLines(d.entries, 0);
    LinesAreLines(d'.entries, 0);
    SplitJoin(PrintDoc(d), '\n');
    SomeEntry(d, path, v);
    SplitJoin(PrintDoc(d'), '\n');
  }

  /** The tree set_value compares its result with: a mapping is made where a key is missing, and a scalar on
      the way, an empty one too, is an error. */
  function Want(m: map<string, Tree>, path: seq<string>, v: string): Option<map<string, Tree>>
    requires path != []
    decreases |path|
  {
    if |path| == 1 then Some(m[path[0] := Value(v)])
    else if path[0] in m && m[path[0]].Value? then None
    else
      var below := Want(if path[0] in m then m[path[0]].fields else map[], path[1..], v);
      if below.None? then None else Some(m[path[0] := Map(below.value)])
  }

  lemma {:induction false} WantIs(m: map<string, Tree>, path: seq<string>, v: string)
    requires path != []
    ensures Want(m, path, v) == if Open(m, path) then Some(Put(m, path, v)) else None
    ensures Open(m, path) ==> !ThroughValue(m, path)
    decreases |path|
  {
    if |path| > 1 && !(path[0] in m && m[path[0]].Value?) {
      WantIs(if path[0] in m then m[path[0]].fields else map[], path[1..], v);
    }
  }

  /** set_value returns its text: what it wants can be built, and the text reads as that. */
  predicate Returns(text: string, out: string, path: seq<string>, v: string)
    requires path != []
  {
    var m := ParseText(text);
    m.Some? && Want(m.value, path, v).Some? && ParseText(out) == Want(m.value, path, v)
  }

  /** set_value returns, and does not raise, exactly when the path's intermediate keys are absent or mappings and
      its last is no mapping; its text then reads as the tree updated there. */
  lemma SetValueReturnsIff(d: Doc, path: seq<string>, v: string)
    requires WellFormedDoc(d) && TreeOf(d.entries).Some? && PlainPath(path) && PlainValue(v) && v != ""
    requires PrintDoc(d) != []
    ensures var text, m := Join(PrintDoc(d), '\n'), TreeOf(d.entries).value;
            var out := Join(SetLines(Split(text, '\n'), path, v), '\n');
            && (Returns(text, out, path, v) <==> Open(m, path) && !HoldsMapping(m, path))
            && (Returns(text, out, path, v) ==> ParseText(out) == Some(Put(m, path, v)))
  {
    TextRefinesPut(d, path, v);
    WantIs(TreeOf(d.entries).value, path, v);
    hide SetLines; hide Parse; hide TreeOf; hide Print; hide WellFormed; hide PlainValue; hide ParseText; hide Put;
    hide HoldsMapping; hide ThroughValue; hide Split; hide Join; hide Open; hide Want;
  }

  /** A document of one key. */
  function OneKey(k: string, v: string): Doc { Doc([Entry([], k, v, "", [])], []) }

  lemma OneKeyIs(k: string, v: string)
    requires PlainKey(k) && PlainValue(v)
    ensures WellFormedDoc(OneKey(k, v)) && TreeOf(OneKey(k, v).entries) == Some(map[k := Value(v)])
    ensures PrintDoc(OneKey(k, v)) != []
  {
    hide PlainKey; hide KeyLine;
    var e := Entry([], k, v, "", []);
    assert WellFormed([]) && PlainComment("");
    assert WellFormedEntry(e);
    TreeOfOne(e);
    PrintOne(e, 0);
  }

  /** Under a key that holds a scalar the edited text is no document; under an empty key it is the right one. In
      neither case does set_value return. */
  lemma KeyOnTheWayRaises(k: string, x: string, below: string, v: string)
    requires PlainKey(k) && PlainKey(below) && PlainValue(x) && PlainValue(v) && v != ""
    ensures var text, path := Join(PrintDoc(OneKey(k, x)), '\n'), [k, below];
            var out := Join(SetLines(Split(text, '\n'), path, v), '\n');
            && !Returns(text, out, path, v)
            && ParseText(out) == if x == "" then Some(map[k := Map(map[below := Value(v)])]) else None
  {
    var d, path := OneKey(k, x), [k, below];
    var m: map<string, Tree> := map[k := Value(x)];
    OneKeyIs(k, x);
    assert PlainPath(path) && path[1..] == [below];
    assert !HoldsMapping(m, path) && !Open(m, path) && (ThroughValue(m, path) <==> x != "");
    assert Put(m, path, v) == map[k := Map(map[below := Value(v)])];
    hide *;
    TextRefinesPut(d, path, v);
    SetValueReturnsIff(d, path, v);
  }

  lemma SomeEntry(d: Doc, path: seq<string>, v: string)
    requires path != []
    ensures PrintDoc(EditDoc(d, path, v)) != []
  {
    hide KeyLine; hide Children;
    assert EditDoc(d, path, v).entries != [];
  }

  /** On any lines at all: one line is replaced, or lines are added at one place; every other line is kept,
      in order. */
  lemma {:induction false} OtherLinesKept(lines: seq<string>, lo: nat, hi: nat, indent: nat, path: seq<string>,
                                          v: string)
    requires lo <= hi <= |lines| && path != []
    ensures var r := Edit(lines, lo, hi, indent, path, v);
            exists at: nat, new_: seq<string> ::
              || (at <= |lines| && r == lines[..at] + new_ + lines[at..])
              || (at < |lines| && |new_| == 1 && r == lines[..at] + new_ + lines[at + 1..])
    decreases |path|
  {
    hide FindIn; hide BlockLen; hide InsertAt; hide NewLines; hide CommentOf; hide Edit;
    EditKey(lines, lo, hi, indent, path, 0, v);
    assert path[0..] == path;
    var r := Edit(lines, lo, hi, indent, path, v);
    var found := FindIn(lines[lo..hi], indent, path[0]);
    if found.None? {
      var at := InsertAt(lines, lo, hi);
      var new_ := (if indent == 0 then [""] else []) + NewLines(path, indent, v);
      assert r == lines[..at] + new_ + lines[at..];
    } else if |path| == 1 {
      var at := lo + found.value;
      var new_ := [r[at]];
      assert r == lines[..at] + new_ + lines[at + 1..];
    } else {
      var i := lo + found.value;
      OtherLinesKept(lines, i + 1, i + 1 + BlockLen(lines[i + 1..], indent), indent + 2, path[1..], v);
    }
  }
}
