/** What makes a line of a Markdown document open a fence, close one, be code or belong to a list item
    (scripts/builder_guide.py split_blocks): each from the line's own characters and the lines before it. */
module MarkdownClasses {
  import opened Options
  import opened Strings
  import opened Markdown
  import opened MarkdownShapes

  // ----- a line in its place ---------------------------------------------

  /** No opener before the line has only code after it. */
  ghost predicate NoFence(lines: seq<string>, i: nat)
    requires i <= |lines|
  {
    forall o | 0 <= o < i :: !OpenSince(lines, o, i)
  }

  /** The content offset of the list item a line may belong to, 0 outside a list. */
  function Depth(lines: seq<string>, i: nat): nat
    requires i <= |lines|
  {
    Before(lines, i).offset
  }

  /** Code may start on the line: a blank line, a thematic break, a heading or a closed fence comes before
      it, or nothing does. */
  ghost predicate Fresh(lines: seq<string>, i: nat)
    requires i <= |lines|
  {
    || i == 0 || ClassOf(lines, i - 1) == Closer
    || (ClassOf(lines, i - 1) == Prose &&
        (AllSpace(lines[i - 1], 0, |lines[i - 1]|) || BreakLine(lines[i - 1]) || HeadingLine(lines[i - 1])))
  }

  /** An opener's shape, not so far in that it is code of the item. */
  ghost predicate Opens(lines: seq<string>, i: nat)
    requires i < |lines|
  {
    Indent(lines[i]) < Depth(lines, i) + 4 && exists c, n: nat :: FenceLine(lines[i], c, n)
  }

  /** A line that is neither a fence's nor blank nor a thematic break. */
  ghost predicate Text(lines: seq<string>, i: nat)
    requires i < |lines|
  {
    !Opens(lines, i) && !AllSpace(lines[i], 0, |lines[i]|) && !BreakLine(lines[i])
  }

  /** It starts a list item: a marker, not so far in that it is code. */
  ghost predicate Item(lines: seq<string>, i: nat)
    requires i < |lines|
  {
    && Text(lines, i) && ContentOffset(lines[i]) > 0 && Indent(lines[i]) < Depth(lines, i) + 4
    && !(Fresh(lines, i) && Indent(lines[i]) >= 4 && Depth(lines, i) == 0)
  }

  /** Text after a blank line, a thematic break, a heading or a fence, further out than the item. */
  ghost predicate Dedents(lines: seq<string>, i: nat)
    requires i < |lines|
  {
    Text(lines, i) && !Item(lines, i) && Fresh(lines, i) && Indent(lines[i]) < Depth(lines, i)
  }

  /** Four columns further in than the item, where code may start or goes on. */
  ghost predicate IndentedCode(lines: seq<string>, i: nat)
    requires i < |lines|
  {
    && Text(lines, i) && !Item(lines, i)
    && Indent(lines[i]) >= (if Dedents(lines, i) then 0 else Depth(lines, i)) + 4
    && (Fresh(lines, i) || ClassOf(lines, i - 1) == Code)
  }

  // ----- the state is what came before -----------------------------------

  lemma NoFenceIff(lines: seq<string>, i: nat)
    requires i <= |lines|
    ensures NoFence(lines, i) <==> Before(lines, i).fence.None?
  {
    hide ClassOf; hide Before; hide FenceOpen;
    FenceIs(lines, i);
  }

  lemma FenceShape(line: string)
    ensures FenceOpen(line).Some? <==> exists c, n: nat :: FenceLine(line, c, n)
  {
    hide FenceLine; hide FenceOpen;
    if FenceOpen(line).Some? {
      var f := FenceOpen(line).value;
      FenceOpenIff(line, f.mark, f.length);
    }
    if c, n: nat :| FenceLine(line, c, n) { FenceOpenIff(line, c, n); }
  }

  /** A heading is no list item. */
  lemma HeadingNoItem(line: string)
    requires Heading(line)
    ensures ContentOffset(line) == 0
  {
    var sp := Run(line, ' ');
    var e := ExpandTabs(line, 0);
    ColumnPlain(line, sp);
    ColumnPlain(line, sp + 1);
    ExpandTabsIs(line, 0, sp, sp);
    assert e[sp] == '#';
    forall j | 0 <= j < sp ensures j < |e| && e[j] == ' ' {
      ColumnPlain(line, j);
      ColumnPlain(line, j + 1);
      ExpandTabsIs(line, 0, j, j);
    }
    hide ExpandTabs;
    LeadIs(e, sp);
    assert e[sp..][0] == '#';
  }

  /** What the state after a line says of the line. */
  lemma StepFresh(s: State, line: string, n: nat)
    ensures var (t, c) := Step(s, line, n);
            t.fence.None? ==>
              && (t.prevCode <==> c == Code)
              && (t.prevBlank <==> c == Closer || (c == Prose && (Blank(line) || Thematic(line) || Heading(line))))
  {
    if Heading(line) { HeadingNoItem(line); }
    hide Indent; hide FenceOpen; hide Blank; hide Thematic; hide ContentOffset; hide Heading; hide Closes;
  }

  lemma FreshIff(lines: seq<string>, i: nat)
    requires i <= |lines| && Before(lines, i).fence.None?
    ensures Before(lines, i).prevBlank <==> Fresh(lines, i)
    ensures Before(lines, i).prevCode <==> i > 0 && ClassOf(lines, i - 1) == Code
  {
    if i > 0 {
      StepFresh(Before(lines, i - 1), lines[i - 1], i);
      BlankIff(lines[i - 1]);
      ThematicIff(lines[i - 1]);
      HeadingIff(lines[i - 1]);
    }
    hide Step; hide Blank; hide Thematic; hide Heading; hide BreakLine; hide HeadingLine; hide AllSpace;
  }

  /** A line outside a fence, by its shape and the state's flags. */
  lemma OutsideIs(lines: seq<string>, i: nat)
    requires i < |lines| && Before(lines, i).fence.None?
    ensures ClassOf(lines, i) == if Opens(lines, i) then Opener else if IndentedCode(lines, i) then Code else Prose
    ensures Depth(lines, i + 1) ==
            if Opens(lines, i) then (if Indent(lines[i]) < Depth(lines, i) then 0 else Depth(lines, i))
            else if AllSpace(lines[i], 0, |lines[i]|) then Depth(lines, i)
            else if BreakLine(lines[i]) || Dedents(lines, i) then 0
            else if Item(lines, i) then ContentOffset(lines[i])
            else Depth(lines, i)
  {
    FreshIff(lines, i);
    FenceShape(lines[i]);
    BlankIff(lines[i]);
    ThematicIff(lines[i]);
    var s, line := Before(lines, i), lines[i];
    assert ClassOf(lines, i) == Outside(s, line, i + 1).1 && Depth(lines, i + 1) == Outside(s, line, i + 1).0.offset;
    hide Step; hide Before; hide Indent; hide FenceOpen; hide Blank; hide Thematic; hide ContentOffset; hide Heading;
    hide BreakLine; hide AllSpace; hide FenceLine; hide Fresh; hide ClassOf;
  }

  lemma InsideIs(lines: seq<string>, i: nat)
    requires i < |lines| && Before(lines, i).fence.Some?
    ensures ClassOf(lines, i) ==
            if Closes(lines[i], Before(lines, i).fence.value) && Indent(lines[i]) < Depth(lines, i) + 4
            then Closer else Code
    ensures Depth(lines, i + 1) == Depth(lines, i)
  {
    hide Closes; hide Indent;
  }

  // ----- each class ------------------------------------------------------

  /** A line opens a fence exactly when none is open and it has an opener's shape. */
  lemma OpenerIff(lines: seq<string>, i: nat)
    requires i < |lines|
    ensures ClassOf(lines, i) == Opener <==> NoFence(lines, i) && Opens(lines, i)
  {
    NoFenceIff(lines, i);
    hide NoFence; hide ClassOf; hide Opens; hide IndentedCode; hide Before;
    if Before(lines, i).fence.None? { OutsideIs(lines, i); } else { InsideIs(lines, i); }
  }

  /** The line is the mark of the fence open since line o, at least as often, and nothing else. */
  ghost predicate ShutsAt(lines: seq<string>, i: nat, o: nat, f: Fence, a: nat, b: nat)
    requires i < |lines|
  {
    OpenSince(lines, o, i) && FenceLine(lines[o], f.mark, f.length) && CloseAt(lines[i], f, a, b)
  }

  lemma OpenFence(lines: seq<string>, i: nat, o: nat, c: char, n: nat)
    requires i <= |lines| && o < i && OpenSince(lines, o, i) && FenceLine(lines[o], c, n)
    ensures Before(lines, i).fence == Some(Fence(c, n)) && !Space(c)
  {
    FenceOpenIff(lines[o], c, n);
    hide ClassOf; hide Before; hide FenceOpen;
    FenceIs(lines, i);
    OneOpener(lines, o, Before(lines, i).since - 1, i);
  }

  /** It closes one exactly when one is open, of that mark and no longer, and it holds nothing else. */
  lemma CloserIff(lines: seq<string>, i: nat)
    requires i < |lines|
    ensures ClassOf(lines, i) == Closer <==>
            && Indent(lines[i]) < Depth(lines, i) + 4
            && exists o: nat, f: Fence, a: nat, b: nat :: ShutsAt(lines, i, o, f, a, b)
  {
    hide ClassOf; hide IndentedCode; hide Before; hide FenceOpen; hide Closes; hide CloseAt;
    hide FenceLine; hide Opens; hide Indent; hide Depth;
    FenceIs(lines, i);
    if Before(lines, i).fence.None? {
      OutsideIs(lines, i);
    } else {
      InsideIs(lines, i);
      var o, f := Before(lines, i).since - 1, Before(lines, i).fence.value;
      FenceOpenIff(lines[o], f.mark, f.length);
      OpenFence(lines, i, o, f.mark, f.length);
      ClosesIff(lines[i], f);
      if a: nat, b: nat :| CloseAt(lines[i], f, a, b) { assert ShutsAt(lines, i, o, f, a, b); }
      if p: nat, g: Fence, a: nat, b: nat :| ShutsAt(lines, i, p, g, a, b) {
        OpenFence(lines, i, p, g.mark, g.length);
      }
    }
  }

  /** It is code exactly when it is inside a fence it does not close, or outside one and indented. */
  lemma CodeIff(lines: seq<string>, i: nat)
    requires i < |lines|
    ensures ClassOf(lines, i) == Code <==>
            if NoFence(lines, i) then IndentedCode(lines, i) && !Opens(lines, i) else ClassOf(lines, i) != Closer
  {
    NoFenceIff(lines, i);
    hide NoFence; hide ClassOf; hide Opens; hide IndentedCode; hide Before; hide Closes;
    if Before(lines, i).fence.None? { OutsideIs(lines, i); } else { InsideIs(lines, i); }
  }

  // ----- lists -----------------------------------------------------------

  /** The line ends the list item before it: an opener or text further out, or a thematic break. */
  ghost predicate EndsList(lines: seq<string>, i: nat)
    requires i < |lines|
  {
    && NoFence(lines, i)
    && if Opens(lines, i) then Indent(lines[i]) < Depth(lines, i) else BreakLine(lines[i]) || Dedents(lines, i)
  }

  ghost predicate StartsItem(lines: seq<string>, i: nat)
    requires i < |lines|
  {
    NoFence(lines, i) && Item(lines, i)
  }

  /** Line j starts an item that no line since has ended or followed with another. */
  ghost predicate ItemSince(lines: seq<string>, j: nat, i: nat)
    requires i <= |lines|
  {
    j < i && StartsItem(lines, j) && forall k | j < k < i :: !StartsItem(lines, k) && !EndsList(lines, k)
  }

  lemma DepthStep(lines: seq<string>, i: nat)
    requires i < |lines|
    ensures Depth(lines, i + 1) ==
            if StartsItem(lines, i) then ContentOffset(lines[i])
            else if EndsList(lines, i) then 0
            else Depth(lines, i)
    ensures StartsItem(lines, i) ==> ContentOffset(lines[i]) > 0 && !EndsList(lines, i)
  {
    NoFenceIff(lines, i);
    BlankNoBreak(lines[i]);
    hide NoFence; hide ClassOf; hide IndentedCode; hide Before; hide Closes; hide Depth; hide Indent; hide Fresh;
    hide ContentOffset; hide FenceLine; hide BreakLine; hide AllSpace;
    if Before(lines, i).fence.None? { OutsideIs(lines, i); } else { InsideIs(lines, i); }
  }

  lemma BlankNoBreak(line: string)
    ensures !(AllSpace(line, 0, |line|) && BreakLine(line))
  {
  }

  lemma NoDepthYet(lines: seq<string>)
    ensures Depth(lines, 0) == 0
  {
  }

  /** A line is in a list exactly when an item before it goes on, and its depth is that item's content offset. */
  lemma {:induction false} DepthIs(lines: seq<string>, i: nat)
    requires i <= |lines|
    ensures Depth(lines, i) > 0 <==> exists j: nat :: ItemSince(lines, j, i)
    ensures forall j: nat | ItemSince(lines, j, i) :: Depth(lines, i) == ContentOffset(lines[j])
  {
    hide StartsItem; hide EndsList; hide ContentOffset; hide Depth;
    if i == 0 {
      NoDepthYet(lines);
    } else {
      DepthIs(lines, i - 1);
      DepthStep(lines, i - 1);
      forall j: nat | ItemSince(lines, j, i) && j < i - 1 ensures ItemSince(lines, j, i - 1) {}
      if StartsItem(lines, i - 1) {
        assert ItemSince(lines, i - 1, i);
      } else if Depth(lines, i) > 0 {
        var j: nat :| ItemSince(lines, j, i - 1);
        assert ItemSince(lines, j, i);
      }
    }
  }

  // ----- documents without lists -----------------------------------------

  ghost predicate NoLists(lines: seq<string>) { forall i | 0 <= i < |lines| :: ContentOffset(lines[i]) == 0 }

  lemma NoDepth(lines: seq<string>, i: nat)
    requires i <= |lines| && NoLists(lines)
    ensures Depth(lines, i) == 0
  {
    hide Depth; hide ContentOffset;
    DepthIs(lines, i);
  }

  /** An opener's shape is no more than three columns in. */
  lemma FenceShallow(line: string, c: char, n: nat)
    requires FenceLine(line, c, n)
    ensures Indent(line) <= 3
  {
    var k: nat :| FenceAt(line, k, c, n);
    assert line[k] == c;
    IndentIs(line, k);
    ColumnPlain(line, k);
  }

  /** Without lists: a line opens a fence exactly when none is open and it has an opener's shape; outside a
      fence it is code exactly when it is indented, is neither blank nor a thematic break, and comes first or
      after a blank line, a thematic break, a heading, a fence or other code. */
  lemma WithoutLists(lines: seq<string>, i: nat)
    requires i < |lines| && NoLists(lines)
    ensures ClassOf(lines, i) == Opener <==>
            NoFence(lines, i) && exists c, n: nat :: FenceLine(lines[i], c, n)
    ensures NoFence(lines, i) ==>
              (ClassOf(lines, i) == Code <==>
                 && Indented(lines[i]) && !AllSpace(lines[i], 0, |lines[i]|) && !BreakLine(lines[i])
                 && (Fresh(lines, i) || ClassOf(lines, i - 1) == Code))
  {
    NoDepth(lines, i);
    OpenerIff(lines, i);
    CodeIff(lines, i);
    IndentedIff(lines[i]);
    hide Depth; hide ContentOffset; hide ClassOf; hide NoFence; hide BreakLine; hide Fresh; hide Indented;
    hide AllSpace; hide Indent; hide FenceLine;
    if c, n: nat :| FenceLine(lines[i], c, n) { FenceShallow(lines[i], c, n); }
  }
}
