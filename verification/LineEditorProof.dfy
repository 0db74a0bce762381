/** The line editor refines the tree update: on any well-formed document it writes the lines of the
    document with that one value set. */
module LineEditorProof {
  import opened Options
  import opened Strings
  import opened LineEditor

  // ----- how a document prints -------------------------------------------

  lemma {:induction false} PrintConcat(a: seq<Entry>, b: seq<Entry>, n: nat)
    ensures Print(a + b, n) == Print(a, n) + Print(b, n)
    decreases |a|
  {
    hide KeyLine;
    if a == [] {
      assert a + b == b;
    } else {
      assert (a + b)[0] == a[0] && (a + b)[1..] == a[1..] + b;
      PrintConcat(a[1..], b, n);
    }
  }

  lemma PrintOne(e: Entry, n: nat)
    ensures Print([e], n) == e.lead + [KeyLine(e, n)] + Children(e, n)
  {
    assert [e][1..] == [];
    assert Print([], n) == [];
  }

  /** The lines around an entry's key. */
  function Above(es: seq<Entry>, i: nat, n: nat): seq<string>
    requires i < |es|
  {
    Print(es[..i], n) + es[i].lead
  }

  lemma PrintSplit(es: seq<Entry>, i: nat, n: nat)
    requires i < |es|
    ensures Print(es, n) == Above(es, i, n) + [KeyLine(es[i], n)] + Children(es[i], n) + Print(es[i + 1..], n)
  {
    hide KeyLine; hide Print; hide Children;
    assert es == es[..i] + ([es[i]] + es[i + 1..]);
    PrintConcat(es[..i], [es[i]] + es[i + 1..], n);
    PrintConcat([es[i]], es[i + 1..], n);
    PrintOne(es[i], n);
  }

  lemma PrintUpdated(es: seq<Entry>, i: nat, e: Entry, n: nat)
    requires i < |es| && e.lead == es[i].lead
    ensures Print(es[i := e], n) == Above(es, i, n) + [KeyLine(e, n)] + Children(e, n) + Print(es[i + 1..], n)
  {
    hide KeyLine; hide Print; hide Children;
    var es' := es[i := e];
    PrintSplit(es', i, n);
    assert es'[..i] == es[..i] && es'[i + 1..] == es[i + 1..];
  }

  // ----- finding a key ---------------------------------------------------

  lemma {:induction false} AbsentHasNone(es: seq<Entry>, n: nat, key: string)
    requires WellFormed(es) && PlainKey(key) && forall j | 0 <= j < |es| :: es[j].key != key
    ensures FindIn(Print(es, n), n, key) == None
    decreases |es|
  {
    hide KeyAt; hide KeyLine; hide WellFormedEntry; hide FindIn; hide PlainKey;
    if es == [] {
      FindNone([], n, key);
    } else {
      var e := es[0];
      RestWellFormed(es);
      LeadHasNone(e, n, key);
      KeyAtLine(e, n, n, key);
      FindNone([KeyLine(e, n)], n, key);
      ChildrenHaveNone(e, n, n, key);
      AbsentHasNone(es[1..], n, key);
      FindConcat(e.lead, [KeyLine(e, n)], n, key);
      FindConcat(e.lead + [KeyLine(e, n)], Children(e, n), n, key);
      FindConcat(e.lead + [KeyLine(e, n)] + Children(e, n), Print(es[1..], n), n, key);
    }
  }

  lemma PrefixWellFormed(es: seq<Entry>, i: nat)
    requires WellFormed(es) && i <= |es|
    ensures WellFormed(es[..i]) && WellFormed(es[i..]) && forall j | 0 <= j < |es| :: WellFormedEntry(es[j])
  {
  }

  lemma FindHere(above: seq<string>, line: string, below: seq<string>, n: nat, key: string)
    requires FindIn(above, n, key) == None && KeyAt(line, n, key)
    ensures FindIn(above + [line] + below, n, key) == Some(|above|)
  {
    hide KeyAt;
    assert above + [line] + below == above + ([line] + below);
    assert ([line] + below)[0] == line;
    FindConcat(above, [line] + below, n, key);
  }

  /** A key is found at its entry's line. */
  lemma FindPrint(es: seq<Entry>, more: seq<string>, n: nat, key: string)
    requires WellFormed(es) && PlainKey(key) && forall l | l in more :: Skip(l)
    ensures var i := IndexOfKey(es, key);
            FindIn(Print(es, n) + more, n, key) == if i == |es| then None else Some(|Above(es, i, n)|)
  {
    hide KeyAt; hide KeyLine; hide WellFormedEntry; hide FindIn; hide PlainKey; hide Print; hide Skip; hide Children;
    var i := IndexOfKey(es, key);
    PrefixWellFormed(es, i);
    if i == |es| {
      AbsentHasNone(es, n, key);
      SkipsHaveNone(more, n, key);
      FindConcat(Print(es, n), more, n, key);
    } else {
      assert es[..i] == es[..i];
      AbsentHasNone(es[..i], n, key);
      LeadHasNone(es[i], n, key);
      FindConcat(Print(es[..i], n), es[i].lead, n, key);
      KeyAtLine(es[i], n, n, key);
      PrintSplit(es, i, n);
      var below := Children(es[i], n) + Print(es[i + 1..], n) + more;
      FindHere(Above(es, i, n), KeyLine(es[i], n), below, n, key);
      assert Print(es, n) + more == Above(es, i, n) + [KeyLine(es[i], n)] + below;
    }
  }

  lemma SkipsHaveNone(more: seq<string>, n: nat, key: string)
    requires PlainKey(key) && forall l | l in more :: Skip(l)
    ensures FindIn(more, n, key) == None
  {
    hide KeyAt; hide Skip; hide PlainKey;
    forall i | 0 <= i < |more| ensures !KeyAt(more[i], n, key) {
      assert more[i] in more;
      KeyAtSkip(more[i], n, key);
    }
    FindNone(more, n, key);
  }

  // ----- where a block ends ----------------------------------------------

  lemma {:induction false} BlockPastSkips(a: seq<string>, b: seq<string>, n: int)
    requires forall l | l in a :: Skip(l)
    ensures BlockLen(a + b, n) == if BlockLen(b, n) == 0 then 0 else |a| + BlockLen(b, n)
  {
    hide Skip; hide IndentOf;
    if a == [] {
      assert a + b == b;
    } else {
      assert (a + b)[0] == a[0] && (a + b)[1..] == a[1..] + b;
      BlockPastSkips(a[1..], b, n);
    }
  }

  lemma BlockKeyLine(e: Entry, deep: nat, rest: seq<string>, n: int)
    requires WellFormedEntry(e)
    ensures BlockLen([KeyLine(e, deep)] + rest, n) == if deep <= n then 0 else 1 + BlockLen(rest, n)
  {
    hide Skip; hide IndentOf; hide KeyLine; hide PlainKey;
    EntryKey(e);
    KeyLineIs(e, deep);
    assert ([KeyLine(e, deep)] + rest)[1..] == rest;
  }

  /** A nested mapping's lines all belong to the block. */
  lemma {:induction false} BlockCovers(es: seq<Entry>, deep: nat, post: seq<string>, n: int)
    requires WellFormed(es) && n < deep
    ensures BlockLen(Print(es, deep) + post, n) == |Print(es, deep)| + BlockLen(post, n)
    decreases es
  {
    hide Skip; hide IndentOf; hide KeyLine; hide BlockLen; hide WellFormedEntry;
    if es == [] {
      assert Print(es, deep) + post == post;
    } else {
      var e := es[0];
      RestWellFormed(es);
      var rest := Print(es[1..], deep) + post;
      BlockCovers(es[1..], deep, post, n);
      ChildrenCovered(e, deep, rest, n);
      BlockKeyLine(e, deep, Children(e, deep) + rest, n);
      LeadSkips(e);
      BlockPastSkips(e.lead, [KeyLine(e, deep)] + (Children(e, deep) + rest), n);
      assert Print(es, deep) + post == e.lead + ([KeyLine(e, deep)] + (Children(e, deep) + rest));
    }
  }

  lemma {:induction false} ChildrenCovered(e: Entry, deep: nat, rest: seq<string>, n: int)
    requires WellFormedEntry(e) && n < deep
    ensures BlockLen(Children(e, deep) + rest, n) == |Children(e, deep)| + BlockLen(rest, n)
    decreases e
  {
    hide BlockLen;
    BlockCovers(e.children, deep + 2, rest, n);
  }

  lemma LeadSkips(e: Entry)
    requires WellFormedEntry(e)
    ensures forall l | l in e.lead :: Skip(l)
  {
  }

  /** Entries at an indent end a block at that indent, or a deeper one. */
  lemma EntriesEndBlock(es: seq<Entry>, n: nat, post: seq<string>, m: int)
    requires WellFormed(es) && n <= m && BlockLen(post, m) == 0
    ensures BlockLen(Print(es, n) + post, m) == 0
  {
    hide Skip; hide IndentOf; hide KeyLine; hide BlockLen; hide WellFormedEntry;
    if es == [] {
      assert Print(es, n) + post == post;
    } else {
      var e := es[0];
      RestWellFormed(es);
      var rest := Children(e, n) + Print(es[1..], n) + post;
      BlockKeyLine(e, n, rest, m);
      LeadSkips(e);
      BlockPastSkips(e.lead, [KeyLine(e, n)] + rest, m);
      assert Print(es, n) + post == e.lead + ([KeyLine(e, n)] + rest);
    }
  }

  lemma {:induction false} SkipsEndBlock(s: seq<string>, n: int)
    requires forall l | l in s :: Skip(l)
    ensures BlockLen(s, n) == 0
  {
    hide Skip; hide IndentOf;
    if s != [] { SkipsEndBlock(s[1..], n); }
  }

  lemma {:induction false} DeeperToo(s: seq<string>, n: int, m: int)
    requires BlockLen(s, n) == 0 && n <= m
    ensures BlockLen(s, m) == 0
  {
    hide Skip; hide IndentOf;
    if s != [] && Skip(s[0]) { DeeperToo(s[1..], n, m); }
  }

  // ----- the parts of an edit --------------------------------------------

  lemma {:induction false} CommentPasses(p: string, c: string)
    requires '#' !in p && (p == "" || !Space(p[|p| - 1])) && PlainComment(c)
    ensures CommentOf(p + c) == c
  {
    if p == "" {
      assert p + c == c;
    } else {
      assert (p + c)[0] == p[0] && (p + c)[1..] == p[1..] + c;
      CommentPasses(p[1..], c);
      LStripInside(p, c);
    }
  }

  lemma {:induction false} LStripInside(p: string, c: string)
    requires p != "" && '#' !in p && !Space(p[|p| - 1])
    ensures LStrip(p + c) != "" && LStrip(p + c)[0] != '#'
  {
    assert (p + c)[0] == p[0] && (p + c)[1..] == p[1..] + c;
    assert p[0] in p;
    if Space(p[0]) { LStripInside(p[1..], c); }
  }

  lemma KeyComment(e: Entry, n: nat)
    requires WellFormedEntry(e)
    ensures CommentOf(KeyLine(e, n)) == e.comment
  {
    hide PlainComment; hide CommentOf; hide Space;
    var p := Spaces(n) + e.key + ":" + (if e.value == "" then "" else " " + e.value);
    NoHash(Spaces(n), e.key, e.value);
    assert KeyLine(e, n) == p + e.comment;
    LastIsNoSpace(e, p, n);
    CommentPasses(p, e.comment);
  }

  lemma LastIsNoSpace(e: Entry, p: string, n: nat)
    requires WellFormedEntry(e)
    requires p == Spaces(n) + e.key + ":" + (if e.value == "" then "" else " " + e.value)
    ensures p != "" && !Space(p[|p| - 1])
  {
    if e.value != "" { assert p[|p| - 1] == e.value[|e.value| - 1]; }
  }

  lemma NoHash(sp: string, key: string, v: string)
    requires (forall i | 0 <= i < |sp| :: sp[i] == ' ') && PlainKey(key) && PlainValue(v)
    ensures '#' !in sp + key + ":" + (if v == "" then "" else " " + v)
  {
  }

  lemma {:induction false} NewLinesPrint(path: seq<string>, n: nat, v: string)
    requires path != [] && v != ""
    ensures NewLines(path, n, v) == Print([NewEntry([], path, v)], n)
    decreases |path|
  {
    var e := NewEntry([], path, v);
    PrintOne(e, n);
    if |path| == 1 {
      assert Spaces(n) + path[0] + ":" + (" " + v + "") == Spaces(n) + path[0] + ": " + v;
    } else {
      NewLinesPrint(path[1..], n + 2, v);
      assert Spaces(n) + path[0] + ":" + "" == Spaces(n) + path[0] + ":";
    }
  }

  lemma {:induction false} LastIsContent(es: seq<Entry>, n: nat)
    requires WellFormed(es) && es != []
    ensures |Print(es, n)| > 0 && !Skip(Print(es, n)[|Print(es, n)| - 1])
    decreases es
  {
    hide Skip; hide KeyLine; hide WellFormedEntry;
    var e := es[0];
    RestWellFormed(es);
    EntryKey(e);
    KeyLineIs(e, n);
    if |es| > 1 {
      LastIsContent(es[1..], n);
    } else {
      ChildrenEnd(e, n);
      assert es == [e];
      PrintOne(e, n);
    }
  }

  lemma {:induction false} ChildrenEnd(e: Entry, n: nat)
    requires WellFormedEntry(e)
    ensures Children(e, n) != [] ==> !Skip(Children(e, n)[|Children(e, n)| - 1])
    decreases e
  {
    hide Skip;
    if e.children != [] { LastIsContent(e.children, n + 2); }
  }

  // ----- the edit --------------------------------------------------------

  ghost predicate PlainPath(path: seq<string>) { path != [] && forall i | 0 <= i < |path| :: PlainKey(path[i]) }

  /** The range the edit looks in. */
  lemma RangeIs(pre: seq<string>, mid: seq<string>, post: seq<string>, more: nat, lines: seq<string>)
    requires lines == pre + mid + post && more <= |post|
    ensures lines[|pre|..|pre| + |mid| + more] == mid + post[..more]
  {
  }

  lemma InsertAfterContent(lines: seq<string>, lo: nat, hi: nat)
    requires lo < hi <= |lines| && !Skip(lines[hi - 1])
    ensures InsertAt(lines, lo, hi) == hi
  {
  }

  lemma MissingUnder(pre: seq<string>, es: seq<Entry>, post: seq<string>, n: nat, path: seq<string>, v: string)
    requires WellFormed(es) && n > 0 && PlainPath(path) && v != "" && IndexOfKey(es, path[0]) == |es|
    ensures var p := Print(es, n);
            Edit(pre + p + post, |pre|, |pre| + |p|, n, path, v) == pre + Print(EditEntries(es, path, v, []), n) + post
  {
    hide Print; hide WellFormed; hide PlainKey; hide FindIn; hide NewLines; hide NewEntry; hide Skip; hide InsertAt;
    hide Edit; hide EditEntries; hide IndexOfKey;
    var p := Print(es, n);
    var lines := pre + p + post;
    RangeIs(pre, p, post, 0, lines);
    assert p + post[..0] == p && p + [] == p;
    FindPrint(es, [], n, path[0]);
    EditKey(lines, |pre|, |pre| + |p|, n, path, 0, v);
    InsertAfterEntries(pre, es, post, n);
    NewLinesPrint(path, n, v);
    EditMissing(es, path, v, []);
    PrintConcat(es, [NewEntry([], path, v)], n);
    assert path[0..] == path;
    assert lines[..|pre| + |p|] == pre + p && lines[|pre| + |p|..] == post;
  }

  lemma NothingPrinted(n: nat)
    ensures Print([], n) == []
  {
  }

  /** New lines go after a block's entries, if it has any. */
  lemma InsertAfterEntries(pre: seq<string>, es: seq<Entry>, post: seq<string>, n: nat)
    requires WellFormed(es)
    ensures var p := Print(es, n);
            InsertAt(pre + p + post, |pre|, |pre| + |p|) == |pre| + |p|
  {
    hide Print; hide WellFormed; hide Skip;
    var p := Print(es, n);
    var lines := pre + p + post;
    if es == [] {
      NothingPrinted(n);
    } else {
      LastIsContent(es, n);
      assert lines[|pre| + |p| - 1] == p[|p| - 1];
      InsertAfterContent(lines, |pre|, |pre| + |p|);
    }
  }

  /** The edit from a block of entries on: `more` of the lines after them, all blank or comments, are in
      the range too. */
  lemma {:induction false} EditPrints(pre: seq<string>, es: seq<Entry>, post: seq<string>, more: nat, n: nat,
                                      path: seq<string>, v: string)
    requires WellFormed(es) && PlainPath(path) && v != ""
    requires more <= |post| && (forall l | l in post[..more] :: Skip(l)) && BlockLen(post, n) == 0
    requires IndexOfKey(es, path[0]) < |es| || (n > 0 && more == 0)
    ensures var p := Print(es, n);
            Edit(pre + p + post, |pre|, |pre| + |p| + more, n, path, v) ==
            pre + Print(EditEntries(es, path, v, []), n) + post
    decreases |path|
  {
    hide Print; hide WellFormedEntry; hide PlainKey; hide FindIn; hide NewLines; hide NewEntry; hide Skip;
    hide InsertAt;
    hide BlockLen; hide KeyLine; hide Children; hide CommentOf; hide WellFormed; hide Edit;
    var i := IndexOfKey(es, path[0]);
    EditPresent(es, path, v);
    hide IndexOfKey; hide EditEntries; hide Above;
    if i == |es| {
      MissingUnder(pre, es, post, n, path, v);
    } else {
      FoundStep(pre, es, post, more, n, path, v);
      PrefixWellFormed(es, i + 1);
      if |path| == 1 {
        ValueSet(pre, es, i, post, n, v);
      } else {
        var e := es[i];
        var pre', below := pre + Above(es, i, n) + [KeyLine(e, n)], Print(es[i + 1..], n) + post;
        EntriesEndBlock(es[i + 1..], n, post, n);
        DeeperToo(below, n, n + 2);
        ChildrenWellFormed(e);
        assert forall k | 0 <= k < |path| - 1 :: path[1..][k] == path[k + 1];
        EditPrints(pre', e.children, below, 0, n + 2, path[1..], v);
        UnderUpdated(pre, es, i, post, n, EditEntries(e.children, path[1..], v, []));
      }
    }
  }

  lemma UnderUpdated(pre: seq<string>, es: seq<Entry>, i: nat, post: seq<string>, n: nat, children: seq<Entry>)
    requires i < |es|
    ensures var pre', below := pre + Above(es, i, n) + [KeyLine(es[i], n)], Print(es[i + 1..], n) + post;
            && pre' + Print(es[i].children, n + 2) + below == pre + Print(es, n) + post
            && pre' + Print(children, n + 2) + below == pre + Print(es[i := es[i].(children := children)], n) + post
  {
    hide Print; hide KeyLine; hide Children; hide Above;
    var e' := es[i].(children := children);
    PrintSplit(es, i, n);
    PrintUpdated(es, i, e', n);
    SameKeyLine(es[i], e', n);
    ChildrenAre(es[i], n);
    ChildrenAre(e', n);
  }

  /** A key that is there is found at its entry, and its block is its children's lines. */
  lemma FoundStep(pre: seq<string>, es: seq<Entry>, post: seq<string>, more: nat, n: nat, path: seq<string>, v: string)
    requires WellFormed(es) && PlainPath(path) && more <= |post| && (forall l | l in post[..more] :: Skip(l))
    requires BlockLen(post, n) == 0 && IndexOfKey(es, path[0]) < |es|
    ensures var i := IndexOfKey(es, path[0]);
            var lines, at := pre + Print(es, n) + post, |pre| + |Above(es, i, n)|;
            && at < |lines| && at + 1 + |Print(es[i].children, n + 2)| <= |lines|
            && Edit(lines, |pre|, |pre| + |Print(es, n)| + more, n, path, v) ==
               if |path| == 1 then lines[at := Spaces(n) + es[i].key + ": " + v + CommentOf(lines[at])]
               else Edit(lines, at + 1, at + 1 + |Print(es[i].children, n + 2)|, n + 2, path[1..], v)
  {
    hide Print; hide WellFormedEntry; hide PlainKey; hide FindIn; hide NewLines; hide Skip; hide InsertAt;
    hide BlockLen; hide KeyLine; hide Children; hide CommentOf; hide WellFormed; hide Edit; hide Above;
    var i := IndexOfKey(es, path[0]);
    hide IndexOfKey;
    var p := Print(es, n);
    var lines := pre + p + post;
    RangeIs(pre, p, post, more, lines);
    FindPrint(es, post[..more], n, path[0]);
    PrintSplit(es, i, n);
    PrefixWellFormed(es, i + 1);
    ChildrenAre(es[i], n);
    var below := Print(es[i + 1..], n) + post;
    EntriesEndBlock(es[i + 1..], n, post, n);
    ChildrenCoveredAt(es[i], n, below, n);
    EditKey(lines, |pre|, |pre| + |p| + more, n, path, 0, v);
    assert path[0..] == path;
    assert lines[|pre| + |Above(es, i, n)| + 1..] == Children(es[i], n) + below;
  }

  /** The same edit on an entry that is there. */
  lemma EditPresent(es: seq<Entry>, path: seq<string>, v: string)
    requires path != []
    ensures var i := IndexOfKey(es, path[0]);
            && (i < |es| && |path| == 1 ==> EditEntries(es, path, v, []) == es[i := es[i].(value := v)])
            && (i < |es| && |path| > 1 ==>
                  EditEntries(es, path, v, []) ==
                     es[i := es[i].(children := EditEntries(es[i].children, path[1..], v, []))])
  {
  }

  lemma ChildrenWellFormed(e: Entry)
    requires WellFormedEntry(e)
    ensures WellFormed(e.children)
  {
  }

  lemma ChildrenAre(e: Entry, n: nat)
    ensures Children(e, n) == Print(e.children, n + 2)
  {
  }

  lemma SameKeyLine(e: Entry, f: Entry, n: nat)
    requires e.key == f.key && e.value == f.value && e.comment == f.comment
    ensures KeyLine(e, n) == KeyLine(f, n)
  {
  }

  lemma ChildrenCoveredAt(e: Entry, n: nat, rest: seq<string>, m: int)
    requires WellFormedEntry(e) && n <= m < n + 2 && BlockLen(rest, m) == 0
    ensures BlockLen(Children(e, n) + rest, m) == |Children(e, n)|
  {
    hide BlockLen;
    BlockCovers(e.children, n + 2, rest, m);
  }

  /** The line of a key that is there, given its value. */
  lemma ValueSet(pre: seq<string>, es: seq<Entry>, i: nat, post: seq<string>, n: nat, v: string)
    requires i < |es| && WellFormedEntry(es[i]) && v != ""
    ensures var lines := pre + Print(es, n) + post;
            var at := |pre| + |Above(es, i, n)|;
            && at < |lines|
            && lines[at := Spaces(n) + es[i].key + ": " + v + CommentOf(lines[at])] ==
               pre + Print(es[i := es[i].(value := v)], n) + post
  {
    hide Print; hide WellFormedEntry; hide Children; hide CommentOf;
    var e := es[i];
    var e' := e.(value := v);
    KeyComment(e, n);
    PrintSplit(es, i, n);
    PrintUpdated(es, i, e', n);
    assert Children(e', n) == Children(e, n) by { ChildrenAre(e, n); ChildrenAre(e', n); }
    assert KeyLine(e', n) == Spaces(n) + e.key + ": " + v + e.comment;
    hide KeyLine; hide Above;
    var below := Children(e, n) + Print(es[i + 1..], n);
    assert pre + Print(es, n) + post == (pre + Above(es, i, n)) + [KeyLine(e, n)] + (below + post);
    assert pre + Print(es[i := e'], n) + post == (pre + Above(es, i, n)) + [KeyLine(e', n)] + (below + post);
  }

  // ----- the whole document ----------------------------------------------

  lemma {:induction false} InsertAtKept(a: seq<string>, tail: seq<string>)
    requires a == [] || !Skip(a[|a| - 1])
    ensures InsertAt(a + tail, 0, |a| + |tail|) == |a| + Kept(tail)
    decreases |tail|
  {
    hide Skip;
    InsertPrefix(a + tail, |a| + |tail|);
    if tail == [] {
      assert a + tail == a;
      if a != [] { InsertAfterContent(a, 0, |a|); }
    } else {
      var front := tail[..|tail| - 1];
      assert (a + tail)[|a| + |tail| - 1] == tail[|tail| - 1];
      InsertAtKept(a, front);
      SamePrefix(a + tail, a + front, |a| + |front|);
    }
  }

  lemma InsertPrefix(lines: seq<string>, hi: nat)
    requires hi <= |lines|
    ensures InsertAt(lines, 0, hi) == if hi > 0 && Blank(lines[hi - 1]) then InsertAt(lines, 0, hi - 1) else hi
  {
  }

  lemma {:induction false} SamePrefix(a: seq<string>, b: seq<string>, hi: nat)
    requires hi <= |a| && hi <= |b| && forall i | 0 <= i < hi :: a[i] == b[i]
    ensures InsertAt(a, 0, hi) == InsertAt(b, 0, hi)
  {
    if hi > 0 { SamePrefix(a, b, hi - 1); }
  }

  /** The line editor writes the document with that one value set. */
  lemma SetLinesPrints(d: Doc, path: seq<string>, v: string)
    requires WellFormedDoc(d) && PlainPath(path) && v != ""
    ensures SetLines(PrintDoc(d), path, v) == PrintDoc(EditDoc(d, path, v))
  {
    hide Print; hide WellFormed; hide PlainKey; hide FindIn; hide NewLines; hide NewEntry; hide Skip; hide InsertAt;
    hide BlockLen; hide Edit; hide EditEntries; hide Kept;
    var p := Print(d.entries, 0);
    if IndexOfKey(d.entries, path[0]) < |d.entries| {
      SkipsEndBlock(d.tail, 0);
      assert d.tail[..|d.tail|] == d.tail && [] + p + d.tail == p + d.tail;
      EditPrints([], d.entries, d.tail, |d.tail|, 0, path, v);
      var edited := Print(EditEntries(d.entries, path, v, []), 0);
      assert [] + edited + d.tail == edited + d.tail;
    } else {
      MissingAtTop(d, path, v);
    }
  }

  lemma MissingAtTop(d: Doc, path: seq<string>, v: string)
    requires WellFormedDoc(d) && PlainPath(path) && v != "" && IndexOfKey(d.entries, path[0]) == |d.entries|
    ensures SetLines(PrintDoc(d), path, v) == PrintDoc(EditDoc(d, path, v))
  {
    hide Print; hide WellFormed; hide PlainKey; hide FindIn; hide NewLines; hide NewEntry; hide Skip; hide InsertAt;
    hide Kept; hide IndexOfKey; hide Edit; hide KeyLine; hide Children; hide EditEntries;
    var p := Print(d.entries, 0);
    var lines := p + d.tail;
    var k := Kept(d.tail);
    var lead := d.tail[..k] + [""];
    FindPrint(d.entries, d.tail, 0, path[0]);
    EditKey(lines, 0, |lines|, 0, path, 0, v);
    assert lines[0..|lines|] == lines && path[0..] == path;
    if d.entries != [] { LastIsContent(d.entries, 0); } else { assert p == [] by { NothingPrinted(0); } }
    InsertAtKept(p, d.tail);
    NewLinesPrint(path, 0, v);
    NewEntryLead(lead, path, v);
    EditMissing(d.entries, path, v, lead);
    PrintConcat(d.entries, [NewEntry(lead, path, v)], 0);
    SplicedIn(p, d.tail, k, Print([NewEntry([], path, v)], 0));
  }

  lemma SplicedIn(p: seq<string>, tail: seq<string>, k: nat, new_: seq<string>)
    requires k <= |tail|
    ensures (p + tail)[..|p| + k] + ([""] + new_) + (p + tail)[|p| + k..] == p + (tail[..k] + [""] + new_) + tail[k..]
  {
    assert (p + tail)[..|p| + k] == p + tail[..k] && (p + tail)[|p| + k..] == tail[k..];
  }

  lemma EditMissing(es: seq<Entry>, path: seq<string>, v: string, lead: seq<string>)
    requires path != [] && IndexOfKey(es, path[0]) == |es|
    ensures EditEntries(es, path, v, lead) == es + [NewEntry(lead, path, v)]
  {
  }

  lemma NewEntryLead(lead: seq<string>, path: seq<string>, v: string)
    requires path != []
    ensures Print([NewEntry(lead, path, v)], 0) == lead + Print([NewEntry([], path, v)], 0)
  {
    hide Print; hide KeyLine; hide Children;
    var e, f := NewEntry(lead, path, v), NewEntry([], path, v);
    PrintOne(e, 0);
    PrintOne(f, 0);
    SameKeyLine(e, f, 0);
    ChildrenAre(e, 0);
    ChildrenAre(f, 0);
  }
}
