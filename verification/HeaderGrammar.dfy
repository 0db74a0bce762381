/** A top-level block's header as a grammar, and that the reader takes exactly its sentences
    (scripts/pipelines_check.py HEADER). */
module HeaderGrammar {
  import opened Options
  import opened Strings
  import opened TopLevel

  ghost predicate White(s: string) { forall i | 0 <= i < |s| :: Space(s[i]) }

  /** A letter or underscore, then letters, digits and underscores. */
  ghost predicate IsName(s: string) { s != "" && Letter(s[0]) && forall i | 0 <= i < |s| :: Word(s[i]) }

  /** Nothing, or quotes around anything but a quote or a line's end. */
  ghost predicate IsLabel(s: string) {
    || s == ""
    || (|s| >= 2 && s[0] == '"' && s[|s| - 1] == '"' && forall i | 1 <= i < |s| - 1 :: s[i] != '"' && s[i] != '\n')
  }

  /** A dot with whitespace on either side, and a name. */
  datatype Piece = Piece(before: string, after: string, name: string) {
    ghost predicate Formed() { White(before) && White(after) && IsName(name) }
  }

  function Written(ps: seq<Piece>): string {
    if ps == [] then "" else ps[0].before + "." + ps[0].after + ps[0].name + Written(ps[1..])
  }

  /** The names with their dots, no whitespace. */
  function Joined(ps: seq<Piece>): string {
    if ps == [] then "" else "." + ps[0].name + Joined(ps[1..])
  }

  /** What may follow a header's first name. */
  ghost predicate Tail(s: string, ps: seq<Piece>, gap: string, quoted: string, trail: string) {
    && s == Written(ps) + gap + quoted + trail && (forall p | p in ps :: p.Formed())
    && White(gap) && IsLabel(quoted) && White(trail)
  }

  ghost predicate Sentence(s: string, lead: string, first: string, rest: string, ps: seq<Piece>, gap: string,
                           quoted: string, trail: string)
  {
    s == lead + first + rest && White(lead) && IsName(first) && Tail(rest, ps, gap, quoted, trail)
  }

  /** A name's characters: ASCII letters and the underscore, and after the first the digits too. */
  lemma NameChars(c: char)
    ensures Letter(c) <==> 65 <= c as int <= 90 || 97 <= c as int <= 122 || c as int == 95
    ensures Word(c) <==> Letter(c) || 48 <= c as int <= 57
  {
  }

  // ----- reading ---------------------------------------------------------

  lemma {:induction false} WordsIs(s: string, n: nat)
    requires n <= |s| && (forall i | 0 <= i < n :: Word(s[i])) && (n < |s| ==> !Word(s[n]))
    ensures Words(s) == n
  {
    if n > 0 { WordsIs(s[1..], n - 1); }
  }

  lemma {:induction false} WordsAre(s: string)
    ensures forall i | 0 <= i < Words(s) :: Word(s[i])
  {
    if s != "" && Word(s[0]) {
      WordsAre(s[1..]);
      assert forall i | 1 <= i < Words(s) :: s[i] == s[1..][i - 1];
    }
  }

  lemma LeadSplit(ws: string, rest: string)
    requires White(ws) && (rest != "" ==> !Space(rest[0]))
    ensures Lead(ws + rest) == |ws| && (ws + rest)[|ws|..] == rest
  {
    LeadIs(ws + rest, |ws|);
  }

  lemma WhiteTo(s: string, n: nat)
    requires n <= |s| && forall i | 0 <= i < n :: Space(s[i])
    ensures White(s[..n])
  {
    hide Space;
    var ws := s[..n];
    forall i | 0 <= i < |ws| ensures Space(ws[i]) { assert ws[i] == s[i]; }
  }

  lemma CutAt(s: string, n: nat)
    requires n <= |s|
    ensures s == s[..n] + s[n..] && (n < |s| ==> s[n..][0] == s[n])
  {
  }

  lemma LeadWhite(s: string)
    ensures White(s[..Lead(s)]) && s == s[..Lead(s)] + s[Lead(s)..]
    ensures Lead(s) < |s| ==> s[Lead(s)..][0] == s[Lead(s)] && !Space(s[Lead(s)])
  {
    hide Lead; hide Space; hide White;
    WhiteTo(s, Lead(s));
    CutAt(s, Lead(s));
  }

  /** A label and whitespace, read from its quote. */
  lemma LabelReads(quoted: string, trail: string)
    requires IsLabel(quoted) && quoted != "" && White(trail)
    ensures NameRest(quoted + trail) == Some("")
  {
    var t := quoted + trail;
    var inner := t[1..];
    var q := |quoted| - 2;
    assert Lead(t) == 0 && t[0..] == t;
    assert inner[q] == '"' && forall i | 0 <= i < q :: inner[i] == quoted[i + 1];
    assert IndexOf(inner, '"') == q;
    assert t[q + 2..] == trail;
    LeadIs(trail, |trail|);
  }

  lemma EmptyReads(s: string)
    requires White(s)
    ensures NameRest(s) == Some("")
  {
    LeadIs(s, |s|);
  }

  lemma GapReads(gap: string, rest: string)
    requires White(gap) && rest != "" && !Space(rest[0])
    ensures NameRest(gap + rest) == NameRest(rest)
  {
    LeadSplit(gap, rest);
    assert Lead(rest) == 0 && rest[0..] == rest;
  }

  /** The reader's step over a dot and a name. */
  lemma DotReads(s: string, t: string, u: string, n: nat)
    requires t == s[Lead(s)..] && t != "" && t[0] == '.' && u == t[1..][Lead(t[1..])..] && u != "" && Letter(u[0])
    requires n == Words(u) && n > 0
    ensures var r := NameRest(u[n..]); NameRest(s) == if r.None? then None else Some("." + u[..n] + r.value)
  {
    hide Space; hide Word; hide Letter;
  }

  lemma Assoc(a: string, b: string, c: string, d: string, e: string)
    ensures a + b + c + d + e == a + (b + (c + (d + e)))
  {
  }

  lemma NameNoSpace(name: string, rest: string)
    requires IsName(name)
    ensures Letter((name + rest)[0]) && !Space((name + rest)[0])
  {
  }

  /** A piece, read: its name and what the rest says. */
  lemma PieceReads(p: Piece, rest: string)
    requires p.Formed() && (rest != "" ==> !Word(rest[0]))
    ensures var r := NameRest(rest);
            NameRest(p.before + "." + p.after + p.name + rest) ==
            if r.None? then None else Some("." + p.name + r.value)
  {
    hide NameRest; hide Word; hide Letter;
    Assoc(p.before, ".", p.after, p.name, rest);
    NameNoSpace(p.name, rest);
    NameFirst(p.name, rest);
    var u := p.name + rest;
    var t := "." + (p.after + u);
    assert t[0] == '.' && !Space(t[0]) && t[1..] == p.after + u;
    hide IsName; hide Space;
    LeadSplit(p.before, t);
    LeadSplit(p.after, u);
    hide White; hide Lead;
    DotReads(p.before + t, t, u, |p.name|);
  }

  lemma NameFirst(name: string, rest: string)
    requires IsName(name) && (rest != "" ==> !Word(rest[0]))
    ensures Words(name + rest) == |name| && (name + rest)[|name|..] == rest && (name + rest)[..|name|] == name
  {
    hide Word; hide Letter;
    var u := name + rest;
    assert forall i | 0 <= i < |name| :: u[i] == name[i];
    assert rest != "" ==> u[|name|] == rest[0];
    WordsIs(u, |name|);
  }

  /** A tail starts with no character of a name. */
  lemma TailFirst(s: string, ps: seq<Piece>, gap: string, quoted: string, trail: string)
    requires Tail(s, ps, gap, quoted, trail) && s != ""
    ensures !Word(s[0])
  {
    if ps != [] {
      assert ps[0] in ps;
      var b := ps[0].before;
      assert Written(ps)[0] == if b != "" then b[0] else '.';
    } else {
      assert s == gap + quoted + trail;
    }
  }

  lemma {:induction false} TailReads(s: string, ps: seq<Piece>, gap: string, quoted: string, trail: string)
    requires Tail(s, ps, gap, quoted, trail)
    ensures NameRest(s) == Some(Joined(ps))
    decreases |ps|
  {
    hide NameRest; hide Space; hide Word; hide IsLabel;
    if ps == [] {
      LastReads(s, gap, quoted, trail);
    } else {
      var rest := Written(ps[1..]) + gap + quoted + trail;
      assert s == ps[0].before + "." + ps[0].after + ps[0].name + rest;
      assert ps[0] in ps;
      TailReads(rest, ps[1..], gap, quoted, trail);
      if rest != "" { TailFirst(rest, ps[1..], gap, quoted, trail); }
      PieceReads(ps[0], rest);
    }
  }

  lemma LastReads(s: string, gap: string, quoted: string, trail: string)
    requires s == "" + gap + quoted + trail && White(gap) && IsLabel(quoted) && White(trail)
    ensures NameRest(s) == Some("")
  {
    hide NameRest;
    assert s == gap + (quoted + trail);
    if quoted == "" {
      assert White(s);
      EmptyReads(s);
    } else {
      GapReads(gap, quoted + trail);
      LabelReads(quoted, trail);
    }
  }

  // ----- and nothing else ------------------------------------------------

  /** What the reader accepts after a label's opening quote is the label and whitespace. */
  lemma LabelStep(t: string)
    requires t != "" && t[0] == '"' && NameRest(t).Some?
    ensures var q := IndexOf(t[1..], '"');
            q < |t| - 1 && '\n' !in t[1..][..q] && White(t[q + 2..]) && NameRest(t) == Some("")
  {
    assert Lead(t) == 0 && t[0..] == t;
  }

  lemma LabelOnly(t: string) returns (q: nat)
    requires t != "" && t[0] == '"' && NameRest(t).Some?
    ensures 2 <= q <= |t| && IsLabel(t[..q]) && White(t[q..]) && NameRest(t) == Some("")
  {
    LabelStep(t);
    hide NameRest; hide Space;
    var inner := t[1..];
    var n := IndexOf(inner, '"');
    q := n + 2;
    var quoted := t[..q];
    forall i | 1 <= i < |quoted| - 1 ensures quoted[i] != '"' && quoted[i] != '\n' {
      assert quoted[i] == inner[i - 1] && inner[..n][i - 1] == inner[i - 1];
    }
    assert quoted[q - 1] == inner[n];
  }

  /** The three ways a tail may go on. */
  lemma TailCases(s: string, t: string)
    requires NameRest(s).Some? && t == s[Lead(s)..] && t != ""
    ensures t[0] == '"' || t[0] == '.'
    ensures t[0] == '.' ==>
              var u := t[1..][Lead(t[1..])..]; u != "" && Letter(u[0]) && Words(u) > 0 && NameRest(u[Words(u)..]).Some?
  {
    hide Space;
  }

  lemma WordsName(u: string)
    requires u != "" && Letter(u[0]) && Words(u) > 0
    ensures IsName(u[..Words(u)])
  {
    WordsAre(u);
  }

  lemma NoPieces(s: string, gap: string, quoted: string, trail: string)
    requires s == gap + (quoted + trail) && White(gap) && IsLabel(quoted) && White(trail)
    ensures Tail(s, [], gap, quoted, trail) && Joined([]) == ""
  {
    hide White; hide IsLabel;
    assert Written([]) + gap + quoted + trail == s;
  }

  lemma {:induction false} TailOnly(s: string) returns (ps: seq<Piece>, gap: string, quoted: string, trail: string)
    requires NameRest(s).Some?
    ensures Tail(s, ps, gap, quoted, trail) && NameRest(s) == Some(Joined(ps))
    decreases |s|
  {
    hide NameRest; hide Space; hide White; hide IsLabel; hide Tail; hide Lead;
    LeadWhite(s);
    var before, t := s[..Lead(s)], s[Lead(s)..];
    assert s == before + t;
    if t == "" {
      ps, gap, quoted, trail := [], before, "", "";
      BlankTail(s, before);
    } else {
      TailCases(s, t);
      if t[0] == '"' {
        ps, gap, quoted, trail := LabelTail(s, before, t);
      } else {
        ps, gap, quoted, trail := DotOnly(s, before, t);
      }
    }
  }

  lemma BlankTail(s: string, gap: string)
    requires s == gap + "" && White(gap)
    ensures Tail(s, [], gap, "", "") && NameRest(s) == Some(Joined([]))
  {
    EmptyReads(gap);
    assert s == gap && s == gap + ("" + "");
    NoPieces(s, gap, "", "");
  }

  lemma LabelTail(s: string, before: string, t: string)
    returns (ps: seq<Piece>, gap: string, quoted: string, trail: string)
    requires NameRest(s).Some? && s == before + t && White(before) && t != "" && t[0] == '"'
    ensures Tail(s, ps, gap, quoted, trail) && NameRest(s) == Some(Joined(ps))
  {
    hide NameRest; hide White; hide IsLabel; hide Tail;
    GapReads(before, t);
    var q := LabelOnly(t);
    ps, gap, quoted, trail := [], before, t[..q], t[q..];
    assert t == quoted + trail;
    NoPieces(s, gap, quoted, trail);
  }

  lemma Rejoin(s: string, before: string, t: string, dotted: string, after: string, u: string, x: string, y: string)
    requires s == before + t && t == "." + dotted && dotted == after + u && u == x + y
    ensures s == before + "." + after + x + y
  {
    Assoc(before, ".", after, x, y);
  }

  lemma FirstChar(t: string)
    requires t != "" && t[0] == '.'
    ensures t == "." + t[1..]
  {
  }

  lemma {:induction false} DotOnly(s: string, before: string, t: string)
    returns (ps: seq<Piece>, gap: string, quoted: string, trail: string)
    requires NameRest(s).Some? && t == s[Lead(s)..] && t != "" && t[0] == '.' && s == before + t && White(before)
    ensures Tail(s, ps, gap, quoted, trail) && NameRest(s) == Some(Joined(ps))
    decreases |s|, 0
  {
    hide NameRest; hide Space; hide Word; hide White; hide IsName; hide Tail; hide Words; hide Lead; hide Letter;
    hide Written; hide Joined;
    TailCases(s, t);
    var dotted := t[1..];
    LeadWhite(dotted);
    var after, u := dotted[..Lead(dotted)], dotted[Lead(dotted)..];
    var n := Words(u);
    WordsName(u);
    DotReads(s, t, u, n);
    var x, y := u[..n], u[n..];
    CutAt(u, n);
    FirstChar(t);
    Rejoin(s, before, t, dotted, after, u, x, y);
    ps, gap, quoted, trail := TailOnly(y);
    var p := Piece(before, after, x);
    PieceFirst(s, p, y, ps, gap, quoted, trail);
    ps := [p] + ps;
  }

  lemma PieceFirst(s: string, p: Piece, rest: string, ps: seq<Piece>, gap: string, quoted: string, trail: string)
    requires p.Formed() && s == p.before + "." + p.after + p.name + rest && Tail(rest, ps, gap, quoted, trail)
    ensures Tail(s, [p] + ps, gap, quoted, trail) && Joined([p] + ps) == "." + p.name + Joined(ps)
  {
    hide Piece.Formed; hide White; hide IsLabel;
    assert ([p] + ps)[1..] == ps;
    assert s == Written([p] + ps) + gap + quoted + trail;
  }

  /** A header is exactly a sentence of the grammar, and its kind the dotted name without whitespace. */
  lemma HeaderIff(s: string, kind: string)
    ensures Header(s) == Some(kind) <==>
            exists lead, first, rest, ps, gap, quoted, trail ::
              Sentence(s, lead, first, rest, ps, gap, quoted, trail) && kind == first + Joined(ps)
  {
    hide Header; hide Sentence;
    if Header(s) == Some(kind) {
      var lead, first, rest, ps, gap, quoted, trail := HeaderOnly(s);
    }
    if lead, first, rest, ps, gap, quoted, trail :|
      Sentence(s, lead, first, rest, ps, gap, quoted, trail) && kind == first + Joined(ps)
    {
      HeaderReads(s, lead, first, rest, ps, gap, quoted, trail);
    }
  }

  lemma HeaderReads(s: string, lead: string, first: string, rest: string, ps: seq<Piece>, gap: string,
                    quoted: string, trail: string)
    requires Sentence(s, lead, first, rest, ps, gap, quoted, trail)
    ensures Header(s) == Some(first + Joined(ps))
  {
    hide NameRest;
    var t := first + rest;
    assert s == lead + t && t[0] == first[0] && !Space(t[0]);
    if rest != "" { TailFirst(rest, ps, gap, quoted, trail); }
    TailReads(rest, ps, gap, quoted, trail);
    hide Tail; hide Word; hide Space;
    LeadSplit(lead, t);
    NameFirst(first, rest);
  }

  lemma HeaderCases(s: string, t: string, n: nat)
    requires Header(s).Some? && t == s[Lead(s)..] && n == Words(t)
    ensures t != "" && Letter(t[0]) && n > 0 && NameRest(t[n..]).Some?
    ensures Header(s) == Some(t[..n] + NameRest(t[n..]).value)
  {
    hide NameRest; hide Space;
  }

  lemma HeaderOnly(s: string) returns (lead: string, first: string, rest: string, ps: seq<Piece>, gap: string,
                                       quoted: string, trail: string)
    requires Header(s).Some?
    ensures Sentence(s, lead, first, rest, ps, gap, quoted, trail) && Header(s) == Some(first + Joined(ps))
  {
    hide NameRest; hide Word; hide Letter; hide Space; hide Tail; hide Header; hide White; hide IsName; hide Words;
    hide Lead;
    var t := s[Lead(s)..];
    var n := Words(t);
    HeaderCases(s, t, n);
    LeadWhite(s);
    WordsName(t);
    lead, first, rest := s[..Lead(s)], t[..n], t[n..];
    ps, gap, quoted, trail := TailOnly(rest);
    assert t == first + rest && s == lead + t;
    assert s == lead + first + rest;
  }
}
