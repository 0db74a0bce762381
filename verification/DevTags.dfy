/** The names of promotions, dev-<n> (scripts/promote.py HISTORY, next_number). */
module DevTags {
  import opened Options

  predicate Digit(c: char) { '0' <= c <= '9' }

  function DigitOf(d: nat): char
    requires d < 10
  {
    '0' + d as char
  }

  function Decimal(n: nat): string {
    if n < 10 then [DigitOf(n)] else Decimal(n / 10) + [DigitOf(n % 10)]
  }

  /** Python's int of a string of digits. */
  function Number(s: string): nat
    requires forall i | 0 <= i < |s| :: Digit(s[i])
  {
    if s == "" then 0
    else
      assert Digit(s[|s| - 1]);
      10 * Number(s[..|s| - 1]) + (s[|s| - 1] - '0') as nat
  }

  function DevTag(n: nat): string { "dev-" + Decimal(n) }

  /** `^dev-([1-9][0-9]*)$`. */
  predicate IsHistory(name: string) {
    && |name| > 4 && name[..4] == "dev-" && name[4] != '0'
    && forall i | 4 <= i < |name| :: Digit(name[i])
  }

  function History(name: string): Option<nat> {
    if IsHistory(name) then
      assert forall i | 0 <= i < |name[4..]| :: name[4..][i] == name[i + 4];
      Some(Number(name[4..]))
    else None
  }

  lemma {:induction false} DecimalReads(n: nat)
    ensures var s := Decimal(n);
            && s != "" && (forall i | 0 <= i < |s| :: Digit(s[i])) && Number(s) == n && (n > 0 ==> s[0] != '0')
  {
    var s := Decimal(n);
    if n < 10 {
      assert s[..0] == "";
      assert Number(s) == 10 * Number(s[..0]) + n;
    } else {
      DecimalReads(n / 10);
      assert s[..|s| - 1] == Decimal(n / 10) && s[0] == Decimal(n / 10)[0];
    }
  }

  lemma {:induction false} NumberWrites(s: string)
    requires s != "" && s[0] != '0' && forall i | 0 <= i < |s| :: Digit(s[i])
    ensures Number(s) > 0 && Decimal(Number(s)) == s
    decreases |s|
  {
    var front, c := s[..|s| - 1], s[|s| - 1];
    var d := (c - '0') as nat;
    assert s == front + [c] && DigitOf(d) == c;
    if front == "" {
      assert Number(front) == 0;
    } else {
      assert front[0] == s[0];
      NumberWrites(front);
      assert Number(s) / 10 == Number(front) && Number(s) % 10 == d;
    }
  }

  /** A history tag is exactly dev-<n>, and reads as n. */
  lemma HistoryIff(name: string, n: nat)
    ensures History(name) == Some(n) <==> n > 0 && name == DevTag(n)
  {
    DecimalReads(n);
    var t := DevTag(n);
    assert t[4..] == Decimal(n) && t[..4] == "dev-";
    if n > 0 {
      assert forall i | 4 <= i < |t| :: t[i] == Decimal(n)[i - 4];
      assert IsHistory(t);
    }
    if IsHistory(name) {
      assert forall i | 0 <= i < |name[4..]| :: name[4..][i] == name[i + 4];
      NumberWrites(name[4..]);
      assert name == name[..4] + name[4..];
    }
  }

  lemma TagsDiffer(m: nat, n: nat)
    requires m > 0 && DevTag(m) == DevTag(n)
    ensures m == n
  {
    HistoryIff(DevTag(m), m);
    DecimalReads(n);
    assert DevTag(m)[4..] == Decimal(m) && DevTag(n)[4..] == Decimal(n);
    DecimalReads(m);
  }

  // ----- next_number -----------------------------------------------------

  /** One above the highest history tag; 1 when there is none. */
  ghost predicate IsNext(names: set<string>, n: nat) {
    && n > 0 && (n > 1 ==> DevTag(n - 1) in names)
    && forall m: nat | m >= n :: DevTag(m) !in names
  }

  lemma NextUnique(names: set<string>, m: nat, n: nat)
    requires IsNext(names, m) && IsNext(names, n)
    ensures m == n
  {
  }

  /** The name a line of ls-remote is about: its tag, the peeled line of an annotated one included. */
  function NameOf(ref: string): string {
    var r := if |ref| >= 10 && ref[..10] == "refs/tags/" then ref[10..] else ref;
    if |r| >= 3 && r[|r| - 3..] == "^{}" then r[..|r| - 3] else r
  }

  /** A line about dev-<m>: the tag, under refs/tags/ or bare, peeled or not. */
  ghost predicate Refers(ref: string, m: nat) {
    || ref == DevTag(m) || ref == DevTag(m) + "^{}"
    || ref == "refs/tags/" + DevTag(m) || ref == "refs/tags/" + (DevTag(m) + "^{}")
  }

  lemma Reads(ref: string, m: nat)
    requires NameOf(ref) == DevTag(m)
    ensures Refers(ref, m)
  {
    hide DevTag;
    var t := DevTag(m);
    var under := if |ref| >= 10 && ref[..10] == "refs/tags/" then "refs/tags/" else "";
    var r := ref[|under|..];
    var peeled := if |r| >= 3 && r[|r| - 3..] == "^{}" then "^{}" else "";
    assert ref == under + r && r == t + peeled;
    assert under == "" ==> ref == r;
    assert peeled == "" ==> r == t;
  }

  lemma Peels(t: string, peeled: string)
    requires t != "" && t[0] == 'd' && Digit(t[|t| - 1]) && peeled in {"", "^{}"}
    ensures NameOf(t + peeled) == t
  {
    var r := t + peeled;
    assert "refs/tags/"[0] == 'r' && r[0] == 'd';
    assert |r| >= 10 ==> r[..10][0] == 'd';
    if peeled == "" {
      assert r == t;
      assert |r| >= 3 ==> r[|r| - 3..][2] == r[|r| - 1];
    } else {
      assert r[|r| - 3..] == peeled && r[..|r| - 3] == t;
    }
  }

  lemma Strips(r: string)
    requires r != "" && r[0] == 'd'
    ensures NameOf("refs/tags/" + r) == NameOf(r)
  {
    var ref := "refs/tags/" + r;
    assert ref[..10] == "refs/tags/" && ref[10..] == r;
    assert |r| >= 10 ==> r[..10][0] == 'd';
  }

  lemma NameOfIff(ref: string, m: nat)
    ensures NameOf(ref) == DevTag(m) <==> Refers(ref, m)
  {
    if NameOf(ref) == DevTag(m) { Reads(ref, m); }
    var t := DevTag(m);
    DecimalReads(m);
    assert t[0] == 'd' && t[|t| - 1] == Decimal(m)[|Decimal(m)| - 1];
    hide NameOf; hide DevTag;
    Peels(t, "");
    Peels(t, "^{}");
    assert t + "" == t;
    Strips(t);
    Strips(t + "^{}");
  }

  /** One above the highest dev-<m> any line is about. */
  method NextNumber(refs: seq<string>) returns (n: nat)
    ensures n > 0 && (n > 1 ==> exists r | r in refs :: Refers(r, n - 1))
    ensures forall r, m: nat | r in refs && m >= n :: !Refers(r, m)
  {
    hide NameOf; hide DevTag; hide History; hide Refers;
    var top := 0;
    for i := 0 to |refs|
      invariant top > 0 ==> exists j | 0 <= j < i :: NameOf(refs[j]) == DevTag(top)
      invariant forall j, m: nat | 0 <= j < i && m > top :: NameOf(refs[j]) != DevTag(m)
    {
      var h := History(NameOf(refs[i]));
      forall m: nat | m > 0 ensures h == Some(m) <==> NameOf(refs[i]) == DevTag(m) {
        HistoryIff(NameOf(refs[i]), m);
      }
      if h.Some? {
        HistoryIff(NameOf(refs[i]), h.value);
        if h.value > top { top := h.value; }
      }
    }
    n := top + 1;
    if top > 0 {
      ghost var j :| 0 <= j < |refs| && NameOf(refs[j]) == DevTag(top);
      assert refs[j] in refs;
      NameOfIff(refs[j], top);
    }
    forall r, m: nat | r in refs && m >= n ensures !Refers(r, m) { NameOfIff(r, m); }
  }
}
