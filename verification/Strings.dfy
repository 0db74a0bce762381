/** Strings as the tools compare, split and join them. */
module Strings {

  /** Code-point order, which is Python's and, over UTF-8, Go's. */
  predicate Less(a: string, b: string) {
    if b == "" then false
    else if a == "" then true
    else if a[0] != b[0] then a[0] < b[0]
    else Less(a[1..], b[1..])
  }

  /** Less up to where they first differ: there the one has ended or has the smaller character. */
  lemma {:induction false} LessIs(a: string, b: string)
    ensures Less(a, b) <==>
            exists k | 0 <= k <= |a| :: k < |b| && a[..k] == b[..k] && (k == |a| || a[k] < b[k])
    decreases |a|
  {
    if a != "" && b != "" && a[0] == b[0] {
      LessIs(a[1..], b[1..]);
      if Less(a, b) {
        var k :| 0 <= k <= |a[1..]| && k < |b[1..]| && a[1..][..k] == b[1..][..k]
                 && (k == |a[1..]| || a[1..][k] < b[1..][k]);
        assert a[..k + 1] == [a[0]] + a[1..][..k] && b[..k + 1] == [b[0]] + b[1..][..k];
      }
      if k :| 0 <= k <= |a| && k < |b| && a[..k] == b[..k] && (k == |a| || a[k] < b[k]) {
        assert a[1..][..k - 1] == a[..k][1..] && b[1..][..k - 1] == b[..k][1..];
      }
    } else if b != "" {
      assert a[..0] == b[..0];
    }
  }

  lemma {:induction false} LessTrichotomy(a: string, b: string)
    ensures Less(a, b) || a == b || Less(b, a)
    ensures !(Less(a, b) && Less(b, a))
    ensures Less(a, b) ==> a != b
    decreases |a|
  {
    if a != "" && b != "" && a[0] == b[0] {
      LessTrichotomy(a[1..], b[1..]);
      assert a == [a[0]] + a[1..] && b == [b[0]] + b[1..];
    }
  }

  lemma {:induction false} LessTransitive(a: string, b: string, c: string)
    requires Less(a, b) && Less(b, c)
    ensures Less(a, c)
    decreases |a|
  {
    if a != "" && a[0] == b[0] && b[0] == c[0] {
      LessTransitive(a[1..], b[1..], c[1..]);
    }
  }

  /** What strip, split and a regex's \s take for whitespace, in ASCII. */
  predicate Space(c: char) { c == ' ' || c == '\t' || c == '\n' || c == '\r' || c == '\U{0b}' || c == '\U{0c}' }

  function Spaces(n: nat): (r: string)
    ensures |r| == n && forall i | 0 <= i < n :: r[i] == ' '
  {
    seq(n, _ => ' ')
  }

  predicate StartsWith(s: string, p: string) { |p| <= |s| && s[..|p|] == p }

  predicate EndsWith(s: string, p: string) { |p| <= |s| && s[|s| - |p|..] == p }

  /** How many whitespace characters a string starts with. */
  function Lead(s: string): (n: nat)
    ensures n <= |s| && (forall i | 0 <= i < n :: Space(s[i])) && (n < |s| ==> !Space(s[n]))
  {
    if s != "" && Space(s[0]) then 1 + Lead(s[1..]) else 0
  }

  // ----- sorted ----------------------------------------------------------

  ghost predicate SortedNames(s: seq<string>) { forall i, j | 0 <= i < j < |s| :: !Less(s[j], s[i]) }

  function Insert(s: seq<string>, x: string): seq<string> {
    if s == [] || !Less(s[0], x) then [x] + s else [s[0]] + Insert(s[1..], x)
  }

  /** Python's sorted on a list of strings. */
  function Sort(s: seq<string>): seq<string> {
    if s == [] then [] else Insert(Sort(s[1..]), s[0])
  }

  lemma {:induction false} InsertAdds(s: seq<string>, x: string)
    ensures multiset(Insert(s, x)) == multiset(s) + multiset{x}
  {
    hide Less;
    if s != [] && Less(s[0], x) {
      InsertAdds(s[1..], x);
      assert s == [s[0]] + s[1..];
    }
  }

  lemma {:induction false} InsertSorts(s: seq<string>, x: string)
    requires SortedNames(s)
    ensures SortedNames(Insert(s, x))
  {
    hide Less;
    if s != [] && Less(s[0], x) {
      var r := Insert(s[1..], x);
      InsertSorts(s[1..], x);
      InsertAdds(s[1..], x);
      LessTrichotomy(s[0], x);
      forall i | 0 <= i < |r| ensures !Less(r[i], s[0]) {
        assert r[i] in multiset(r);
        if r[i] != x {
          var j :| 0 <= j < |s[1..]| && s[1..][j] == r[i];
          assert s[j + 1] == r[i];
        }
      }
    } else if s != [] {
      forall i | 0 <= i < |s| ensures !Less(s[i], x) {
        LessTrichotomy(s[0], s[i]);
        if Less(s[i], x) && Less(s[0], s[i]) { LessTransitive(s[0], s[i], x); }
      }
    }
  }

  lemma {:induction false} SortIs(s: seq<string>)
    ensures SortedNames(Sort(s)) && multiset(Sort(s)) == multiset(s)
  {
    if s != [] {
      SortIs(s[1..]);
      InsertAdds(Sort(s[1..]), s[0]);
      InsertSorts(Sort(s[1..]), s[0]);
      assert s == [s[0]] + s[1..];
    }
  }

  lemma SortMembers(s: seq<string>)
    ensures forall x :: x in Sort(s) <==> x in s
  {
    SortIs(s);
    assert forall x :: x in s <==> x in multiset(s);
    assert forall x :: x in Sort(s) <==> x in multiset(Sort(s));
  }

  /** A sorted list is its own sort. */
  lemma {:induction false} SortIdempotent(s: seq<string>)
    requires SortedNames(s)
    ensures Sort(s) == s
  {
    if s != [] {
      SortIdempotent(s[1..]);
      assert s == [s[0]] + s[1..];
      if |s| > 1 { assert s[1..][0] == s[1]; }
    }
  }

  // ----- split and join --------------------------------------------------

  /** The index of the first `c`, or the length. */
  function IndexOf(s: string, c: char): (i: nat)
    ensures i <= |s| && (i < |s| ==> s[i] == c) && forall j | 0 <= j < i :: s[j] != c
  {
    if s == "" || s[0] == c then 0 else 1 + IndexOf(s[1..], c)
  }

  /** str.split on one character: never empty. */
  function Split(s: string, c: char): (r: seq<string>)
    ensures |r| >= 1
    decreases |s|
  {
    var i := IndexOf(s, c);
    if i == |s| then [s] else [s[..i]] + Split(s[i + 1..], c)
  }

  function Join(names: seq<string>, c: char): string {
    if names == [] then "" else if |names| == 1 then names[0] else names[0] + [c] + Join(names[1..], c)
  }

  lemma {:induction false} SplitJoin(names: seq<string>, c: char)
    requires names != [] && forall n | n in names :: c !in n
    ensures Split(Join(names, c), c) == names
  {
    hide IndexOf;
    var s := Join(names, c);
    if |names| == 1 {
      FirstIndex(names[0], "", c);
      assert names[0] + "" == names[0];
    } else {
      var rest := Join(names[1..], c);
      assert s == names[0] + ([c] + rest);
      FirstIndex(names[0], [c] + rest, c);
      assert s[..|names[0]|] == names[0] && s[|names[0]| + 1..] == rest;
      SplitJoin(names[1..], c);
    }
  }

  lemma {:induction false} FirstIndex(a: string, b: string, c: char)
    requires c !in a && (b == "" || b[0] == c)
    ensures IndexOf(a + b, c) == |a|
  {
    if a != "" {
      assert (a + b)[1..] == a[1..] + b && (a + b)[0] == a[0];
      FirstIndex(a[1..], b, c);
    } else {
      assert a + b == b;
    }
  }

  /** Every character of a string is a separator or belongs to one of its parts. */
  lemma {:induction false} SplitCovers(s: string, c: char, x: char)
    requires x in s && x != c
    ensures exists p :: p in Split(s, c) && x in p
    decreases |s|
  {
    var i := IndexOf(s, c);
    if i == |s| {
      assert s in Split(s, c);
    } else if x in s[..i] {
      assert s[..i] in Split(s, c);
    } else {
      assert s == s[..i] + [c] + s[i + 1..];
      SplitCovers(s[i + 1..], c, x);
      var p :| p in Split(s[i + 1..], c) && x in p;
      assert p in Split(s, c);
    }
  }
}
