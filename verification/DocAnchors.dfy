/**
 The anchors and the links of a markdown file, as the documentation checker collects them. What
 its regular expressions find in one line is given: whether the line is a fence, the anchor of
 its heading, and the targets of its links.
 */
module DocAnchors {
  import opened Collections

  /** The base anchor of a heading may be empty, when nothing of the heading survives. */
  datatype Line = Line(fence: bool, heading: Option<string>, targets: seq<string>)

  datatype Link = Link(lineno: nat, target: string)

  // ---- which lines count

  function FenceCount(lines: seq<Line>): nat {
    if lines == [] then 0 else FenceCount(lines[..|lines| - 1]) + if lines[|lines| - 1].fence then 1 else 0
  }

  /** An odd number of fences before the line: the last one is still open. */
  predicate InFence(lines: seq<Line>, i: nat)
    requires i <= |lines|
  {
    FenceCount(lines[..i]) % 2 == 1
  }

  predicate Visible(lines: seq<Line>, i: nat)
    requires i < |lines|
  {
    !lines[i].fence && !InFence(lines, i)
  }

  predicate HasAnchor(line: Line) {
    line.heading.Some? && line.heading.value != ""
  }

  /** The base anchors of the headings that count, in order. */
  function Bases(lines: seq<Line>): seq<string> {
    if lines == [] then [] else
      var n := |lines| - 1;
      Bases(lines[..n]) + if Visible(lines, n) && HasAnchor(lines[n]) then [lines[n].heading.value] else []
  }

  /** The links outside fences, in order, with line numbers from one. */
  function Links(lines: seq<Line>): seq<Link> {
    if lines == [] then [] else
      var n := |lines| - 1;
      Links(lines[..n]) + if Visible(lines, n) then LinksAt(n + 1, lines[n].targets) else []
  }

  function LinksAt(lineno: nat, targets: seq<string>): seq<Link> {
    seq(|targets|, i requires 0 <= i < |targets| => Link(lineno, targets[i]))
  }

  // ---- anchors

  function Decimal(n: nat): (s: string)
    ensures |s| > 0 && '-' !in s
  {
    if n < 10 then ["0123456789"[n]] else Decimal(n / 10) + ["0123456789"[n % 10]]
  }

  function Suffixed(base: string, count: nat): string {
    if count == 0 then base else base + "-" + Decimal(count)
  }

  /** The anchor of the i-th heading: its base, numbered by how often that base came before. */
  function AnchorAt(bases: seq<string>, i: nat): string
    requires i < |bases|
  {
    Suffixed(bases[i], multiset(bases[..i])[bases[i]])
  }

  function Anchors(bases: seq<string>): set<string> {
    set i | 0 <= i < |bases| :: AnchorAt(bases, i)
  }

  // ---- the two loops

  lemma BasesStep(lines: seq<Line>, i: nat)
    requires i < |lines|
    ensures Bases(lines[..i + 1])
         == Bases(lines[..i]) + if Visible(lines, i) && HasAnchor(lines[i]) then [lines[i].heading.value] else []
  {
    assert lines[..i + 1][..i] == lines[..i];
  }

  lemma LinksStep(lines: seq<Line>, i: nat)
    requires i < |lines|
    ensures Links(lines[..i + 1])
         == Links(lines[..i]) + if Visible(lines, i) then LinksAt(i + 1, lines[i].targets) else []
  {
    assert lines[..i + 1][..i] == lines[..i];
  }

  lemma FenceStep(lines: seq<Line>, i: nat)
    requires i < |lines|
    ensures InFence(lines, i + 1) == if lines[i].fence then !InFence(lines, i) else InFence(lines, i)
  {
    assert lines[..i + 1][..i] == lines[..i];
  }

  lemma AnchorsStep(bases: seq<string>, b: string)
    ensures Anchors(bases + [b]) == Anchors(bases) + {Suffixed(b, multiset(bases)[b])}
  {
    var bs := bases + [b];
    assert bs[..|bases|] == bases;
    assert AnchorAt(bs, |bases|) == Suffixed(b, multiset(bases)[b]);
    forall i | 0 <= i < |bases| ensures AnchorAt(bs, i) == AnchorAt(bases, i) {
      assert bs[..i] == bases[..i];
    }
    forall x | x in Anchors(bases) + {Suffixed(b, multiset(bases)[b])} ensures x in Anchors(bs) {
      if x in Anchors(bases) {
        var i :| 0 <= i < |bases| && x == AnchorAt(bases, i);
        assert x == AnchorAt(bs, i);
      } else {
        assert x == AnchorAt(bs, |bases|);
      }
    }
  }

  /** The two collections of the loop, after the headings with these bases. */
  ghost predicate Collected(bases: seq<string>, seen: map<string, nat>, anchors: set<string>) {
    && (forall b :: (if b in seen then seen[b] else 0) == multiset(bases)[b])
    && anchors == Anchors(bases)
  }

  lemma CollectedStep(bases: seq<string>, seen: map<string, nat>, anchors: set<string>, base: string, count: nat)
    requires Collected(bases, seen, anchors) && count == if base in seen then seen[base] else 0
    ensures Collected(bases + [base], seen[base := count + 1], anchors + {Suffixed(base, count)})
  {
    AnchorsStep(bases, base);
    var seen', bases' := seen[base := count + 1], bases + [base];
    assert multiset(bases') == multiset(bases)[base := multiset(bases)[base] + 1];
    forall b ensures (if b in seen' then seen'[b] else 0) == multiset(bases')[b] {
      assert (if b in seen then seen[b] else 0) == multiset(bases)[b];
    }
  }

  method CollectAnchors(lines: seq<Line>) returns (anchors: set<string>)
    ensures anchors == Anchors(Bases(lines))
  {
    anchors := {};
    var seen: map<string, nat> := map[];
    var inFence := false;
    ghost var bases := [];
    for i := 0 to |lines|
      invariant inFence == InFence(lines, i)
      invariant bases == Bases(lines[..i])
      invariant Collected(bases, seen, anchors)
    {
      var line := lines[i];
      FenceStep(lines, i);
      BasesStep(lines, i);
      if line.fence {
        inFence := !inFence;
      } else if !inFence && line.heading.Some? {
        var base := line.heading.value;
        if base != "" {
          var count := if base in seen then seen[base] else 0;
          CollectedStep(bases, seen, anchors, base, count);
          bases := bases + [base];
          seen := seen[base := count + 1];
          anchors := anchors + {Suffixed(base, count)};
        }
      }
    }
    assert lines[..|lines|] == lines;
  }

  method IterLinks(lines: seq<Line>) returns (links: seq<Link>)
    ensures links == Links(lines)
  {
    links := [];
    var inFence := false;
    for i := 0 to |lines|
      invariant inFence == InFence(lines, i)
      invariant links == Links(lines[..i])
    {
      FenceStep(lines, i);
      LinksStep(lines, i);
      if lines[i].fence {
        inFence := !inFence;
        continue;
      }
      if inFence { continue; }
      var targets := lines[i].targets;
      for j := 0 to |targets|
        invariant links == Links(lines[..i]) + LinksAt(i + 1, targets)[..j]
      {
        links := links + [Link(i + 1, targets[j])];
      }
    }
    assert lines[..|lines|] == lines;
  }

  // ---- fences, headings and numbers, said without the loops

  /** This fence is open before line i: it opened there, and no fence has come since. */
  ghost predicate OpenAt(lines: seq<Line>, a: nat, i: nat) {
    a < i <= |lines| && lines[a].fence && !InFence(lines, a) && forall b :: a < b < i ==> !lines[b].fence
  }

  lemma {:induction false} NoFenceSince(lines: seq<Line>, a: nat, i: nat)
    requires a <= i <= |lines| && forall b :: a <= b < i ==> !lines[b].fence
    ensures InFence(lines, i) == InFence(lines, a)
  {
    if a < i {
      NoFenceSince(lines, a, i - 1);
      FenceStep(lines, i - 1);
    }
  }

  lemma {:induction false} SomeFenceIsOpen(lines: seq<Line>, i: nat) returns (a: nat)
    requires i <= |lines| && InFence(lines, i)
    ensures OpenAt(lines, a, i)
  {
    if i > 0 {
      FenceStep(lines, i - 1);
      if lines[i - 1].fence { a := i - 1; } else { a := SomeFenceIsOpen(lines, i - 1); }
    }
  }

  /** A line is inside fences exactly if some fence outside of them came before it and none since. */
  lemma InFenceIff(lines: seq<Line>, i: nat)
    requires i <= |lines|
    ensures InFence(lines, i) <==> exists a: nat :: OpenAt(lines, a, i)
    ensures i < |lines| ==> (Visible(lines, i) <==> !lines[i].fence && !exists a: nat :: OpenAt(lines, a, i))
  {
    if InFence(lines, i) { var a := SomeFenceIsOpen(lines, i); }
    if exists a: nat :: OpenAt(lines, a, i) {
      var a: nat :| OpenAt(lines, a, i);
      FenceStep(lines, a);
      NoFenceSince(lines, a + 1, i);
    }
  }

  /** The lines outside fences with this heading. */
  function HeadingLines(lines: seq<Line>, b: string): set<nat> {
    set i: nat | i < |lines| && Visible(lines, i) && lines[i].heading == Some(b)
  }

  lemma HeadingBefore(lines: seq<Line>, b: string, n: nat, i: nat)
    requires i < n <= |lines|
    ensures i in HeadingLines(lines[..n], b) <==> i in HeadingLines(lines, b)
  {
    assert lines[..n][..i] == lines[..i];
  }

  lemma HeadingLinesStep(lines: seq<Line>, b: string)
    requires lines != []
    ensures var n := |lines| - 1;
            |HeadingLines(lines, b)| == |HeadingLines(lines[..n], b)|
                                        + if Visible(lines, n) && lines[n].heading == Some(b) then 1 else 0
  {
    var n := |lines| - 1;
    var before, all := HeadingLines(lines[..n], b), HeadingLines(lines, b);
    assert forall i :: i in before ==> i < n;
    assert forall i :: i in all ==> i <= n;
    forall i: nat | i < n ensures i in before <==> i in all { HeadingBefore(lines, b, n, i); }
    OneMoreAtEnd(before, all, n);
  }

  lemma OneMoreAtEnd(before: set<nat>, all: set<nat>, n: nat)
    requires (forall i :: i in before ==> i < n) && (forall i :: i in all ==> i <= n)
    requires forall i: nat :: i < n ==> (i in before <==> i in all)
    ensures |all| == |before| + if n in all then 1 else 0
  {
    if n in all {
      assert all == before + {n};
    } else {
      assert all == before;
    }
  }

  /** Every heading outside fences counts, as often as it is there, unless nothing of it survives. */
  lemma {:induction false} BasesCount(lines: seq<Line>, b: string)
    ensures multiset(Bases(lines))[b] == if b == "" then 0 else |HeadingLines(lines, b)|
  {
    if lines != [] {
      BasesCount(lines[..|lines| - 1], b);
      HeadingLinesStep(lines, b);
    }
  }

  function DigitValue(c: char): int {
    c as int - '0' as int
  }

  /** The number that a text of digits stands for. */
  function NumberOf(s: string): int {
    if s == "" then 0 else 10 * NumberOf(s[..|s| - 1]) + DigitValue(s[|s| - 1])
  }

  lemma Digit(n: nat)
    requires n < 10
    ensures DigitValue("0123456789"[n]) == n
  {
  }

  lemma {:induction false} DecimalReadsBack(n: nat)
    ensures NumberOf(Decimal(n)) == n
  {
    Digit(n % 10);
    if n >= 10 {
      DecimalReadsBack(n / 10);
      assert Decimal(n)[..|Decimal(n)| - 1] == Decimal(n / 10);
    } else {
      assert Decimal(n)[..0] == "";
    }
  }

  // ---- what is in the set

  /** The k-th occurrence of a base, counting from zero. */
  lemma {:induction false} Occurrence(bases: seq<string>, b: string, k: nat) returns (i: nat)
    requires k < multiset(bases)[b]
    ensures i < |bases| && bases[i] == b && multiset(bases[..i])[b] == k
  {
    var n := |bases| - 1;
    assert bases == bases[..n] + [bases[n]];
    if k < multiset(bases[..n])[b] {
      i := Occurrence(bases[..n], b, k);
      assert bases[..n][..i] == bases[..i];
    } else {
      i := n;
    }
  }

  lemma EarlierIsFewer(bases: seq<string>, i: nat, j: nat)
    requires i < j <= |bases|
    ensures multiset(bases[..i])[bases[i]] < multiset(bases[..j])[bases[i]]
  {
    assert bases[..j] == bases[..i] + [bases[i]] + bases[i + 1..j];
  }

  /** An anchor is a base, or a base with the number of one of its repeats; every repeat has its number. */
  lemma AnchorsAreRepeats(bases: seq<string>, x: string)
    ensures x in Anchors(bases) <==> exists b, k: nat :: k < multiset(bases)[b] && x == Suffixed(b, k)
  {
    if x in Anchors(bases) {
      var i :| 0 <= i < |bases| && x == AnchorAt(bases, i);
      EarlierIsFewer(bases, i, |bases|);
      assert bases[..|bases|] == bases;
      var b, k := bases[i], multiset(bases[..i])[bases[i]];
      assert k < multiset(bases)[b] && x == Suffixed(b, k);
    }
    if exists b, k: nat :: k < multiset(bases)[b] && x == Suffixed(b, k) {
      var b, k: nat :| k < multiset(bases)[b] && x == Suffixed(b, k);
      var i := Occurrence(bases, b, k);
      assert x == AnchorAt(bases, i);
    }
  }

  // ---- does every heading have an anchor of its own?

  lemma DigitInjective(m: nat, n: nat)
    requires m < 10 && n < 10 && "0123456789"[m] == "0123456789"[n]
    ensures m == n
  {
  }

  lemma {:induction false} DecimalInjective(m: nat, n: nat)
    requires Decimal(m) == Decimal(n)
    ensures m == n
  {
    var s := Decimal(m);
    assert m < 10 <==> |s| == 1;
    assert n < 10 <==> |s| == 1;
    if m >= 10 && n >= 10 {
      assert s[..|s| - 1] == Decimal(m / 10) == Decimal(n / 10);
      DecimalInjective(m / 10, n / 10);
      assert s[|s| - 1] == "0123456789"[m % 10] == "0123456789"[n % 10];
      DigitInjective(m % 10, n % 10);
    } else if m < 10 && n < 10 {
      assert s[0] == "0123456789"[m] == "0123456789"[n];
      DigitInjective(m, n);
    }
  }

  /** The hyphen before a number is the last one. */
  lemma LastHyphen(x: string, b: string, d: string, c: string, e: string)
    requires x == b + "-" + d == c + "-" + e && '-' !in d
    ensures |c| <= |b|
  {
    forall i | |b| < i < |x| ensures x[i] != '-' {
      assert x[i] == d[i - |b| - 1];
    }
    assert x[|c|] == '-';
  }

  lemma SuffixedInjective(b: string, k: nat, c: string, l: nat)
    requires k > 0 && l > 0 && Suffixed(b, k) == Suffixed(c, l)
    ensures b == c && k == l
  {
    var x := Suffixed(b, k);
    LastHyphen(x, b, Decimal(k), c, Decimal(l));
    LastHyphen(x, c, Decimal(l), b, Decimal(k));
    assert x[|b| + 1..] == Decimal(k) && x[|c| + 1..] == Decimal(l);
    assert x[..|b|] == b && x[..|c|] == c;
    DecimalInjective(k, l);
  }

  lemma SuffixLengthens(b: string, k: nat)
    ensures k > 0 ==> |Suffixed(b, k)| > |b|
  {
  }

  /** Some heading is already called what a repeat of another one gets. */
  ghost predicate Clash(bases: seq<string>) {
    exists b, k: nat :: 0 < k < multiset(bases)[b] && Suffixed(b, k) in bases
  }

  ghost predicate AllDistinct(bases: seq<string>) {
    forall i, j :: 0 <= i < j < |bases| ==> AnchorAt(bases, i) != AnchorAt(bases, j)
  }

  lemma CountAt(bases: seq<string>, i: nat) returns (k: nat)
    requires i < |bases|
    ensures k == multiset(bases[..i])[bases[i]] < multiset(bases)[bases[i]]
  {
    k := multiset(bases[..i])[bases[i]];
    EarlierIsFewer(bases, i, |bases|);
    assert bases[..|bases|] == bases;
  }

  lemma RepeatIsNoBase(bases: seq<string>, b: string, k: nat)
    requires !Clash(bases) && 0 < k < multiset(bases)[b]
    ensures Suffixed(b, k) !in bases
  {
  }

  lemma DistinctUnlessClash(bases: seq<string>, i: nat, j: nat)
    requires i < j < |bases| && !Clash(bases)
    ensures AnchorAt(bases, i) != AnchorAt(bases, j)
  {
    var k := CountAt(bases, i);
    var l := CountAt(bases, j);
    var b, c := bases[i], bases[j];
    EarlierIsFewer(bases, i, j);
    if k > 0 { RepeatIsNoBase(bases, b, k); }
    if l > 0 { RepeatIsNoBase(bases, c, l); }
    if k > 0 && l > 0 && Suffixed(b, k) == Suffixed(c, l) { SuffixedInjective(b, k, c, l); }
  }

  /**
   Every heading has an anchor of its own exactly when no heading is itself called like a numbered
   repeat; the source promises it without the condition.
   */
  lemma AnchorsDistinctIff(bases: seq<string>)
    ensures AllDistinct(bases) <==> !Clash(bases)
  {
    if !Clash(bases) {
      forall i, j | 0 <= i < j < |bases| ensures AnchorAt(bases, i) != AnchorAt(bases, j) {
        DistinctUnlessClash(bases, i, j);
      }
    } else {
      var b, k: nat :| 0 < k < multiset(bases)[b] && Suffixed(b, k) in bases;
      ClashCollides(bases, b, k);
    }
  }

  lemma ClashCollides(bases: seq<string>, b: string, k: nat)
    requires 0 < k < multiset(bases)[b] && Suffixed(b, k) in bases
    ensures !AllDistinct(bases)
  {
    var c := Suffixed(b, k);
    SuffixLengthens(b, k);
    var i := Occurrence(bases, b, k);
    var j := Occurrence(bases, c, 0);
    assert AnchorAt(bases, i) == AnchorAt(bases, j) == c;
    assert i != j;
    if i < j { assert AnchorAt(bases, i) == AnchorAt(bases, j); } else { assert AnchorAt(bases, j) == AnchorAt(bases, i); }
  }

  /** A file with the headings a, a and a-1 has only two anchors for its three headings. */
  lemma SharedAnchor()
    ensures var bases := ["a", "a", "a-1"];
            Clash(bases) && AnchorAt(bases, 1) == AnchorAt(bases, 2) == "a-1"
  {
    var bases := ["a", "a", "a-1"];
    assert bases[..1] == ["a"] && bases[..2] == ["a", "a"];
    assert Decimal(1) == "1" && Suffixed("a", 1) == "a-1";
    assert multiset(bases[..1])["a"] == 1;
    assert multiset(bases[..2])["a-1"] == 0;
    assert multiset(bases)["a"] == 2 && bases[2] == Suffixed("a", 1);
  }

  // ---- what the links are

  lemma {:induction false} LinksAreVisible(lines: seq<Line>, l: Link)
    ensures l in Links(lines) <==> 0 < l.lineno <= |lines| && Visible(lines, l.lineno - 1)
                                   && l.target in lines[l.lineno - 1].targets
  {
    if lines != [] {
      var n := |lines| - 1;
      LinksAreVisible(lines[..n], l);
      LinksAtMembers(n + 1, lines[n].targets, l);
      if 0 < l.lineno <= n {
        assert lines[..n][..l.lineno - 1] == lines[..l.lineno - 1];
      }
    }
  }

  lemma LinksAtMembers(lineno: nat, targets: seq<string>, l: Link)
    ensures l in LinksAt(lineno, targets) <==> l.lineno == lineno && l.target in targets
  {
    if l.lineno == lineno && l.target in targets {
      var i :| 0 <= i < |targets| && targets[i] == l.target;
      assert LinksAt(lineno, targets)[i] == l;
    }
  }
}
