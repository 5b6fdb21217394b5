/**
 The arithmetic of a sliding window over a sequence of stamps, shared by both rate limiter
 backends: what eviction keeps, how many stamps an interval holds, and the answer that is
 computed from the stamps still inside the window.
 */
module SlidingWindow {

  /** What the limiter tells its caller (the source's `Result`). */
  datatype Answer = Answer(allowed: bool, remaining: int, resetAt: int)

  /** The stamps later than `h`, in their order. */
  function After(s: seq<int>, h: int): seq<int> {
    if s == [] then [] else
      var n := |s| - 1;
      if s[n] > h then After(s[..n], h) + [s[n]] else After(s[..n], h)
  }

  /** How many stamps fall in the half-open interval from `lo` to `hi`. */
  function CountIn(s: seq<int>, lo: int, hi: int): nat {
    if s == [] then 0 else
      var n := |s| - 1;
      CountIn(s[..n], lo, hi) + if lo <= s[n] < hi then 1 else 0
  }

  /** How many stamps fall in the half-open interval of width `width` that starts at `lo`. */
  function CountFrom(s: seq<int>, lo: int, width: int): nat {
    CountIn(s, lo, lo + width)
  }

  /** At most `limit` stamps lie in any half-open interval of the given width. */
  ghost predicate Bounded(s: seq<int>, limit: int, width: int) {
    forall lo :: CountFrom(s, lo, width) <= limit
  }

  ghost predicate Sorted(s: seq<int>) {
    forall i, j :: 0 <= i < j < |s| ==> s[i] <= s[j]
  }

  /** No stamp is later than `t`. */
  ghost predicate UpTo(s: seq<int>, t: int) {
    forall i :: 0 <= i < |s| ==> s[i] <= t
  }

  /** The stamps kept after one decision: the new stamp joins them when it is admitted. */
  function Admit(inWindow: seq<int>, rpm: int, now: int): seq<int> {
    if |inWindow| < rpm then inWindow + [now] else inWindow
  }

  /** The answer computed from the stamps inside the window. */
  function Decide(inWindow: seq<int>, rpm: int, now: int, window: int): Answer {
    var kept := Admit(inWindow, rpm, now);
    Answer(|inWindow| < rpm,
           if rpm < |kept| then 0 else rpm - |kept|,
           (if kept != [] then kept[0] else now) + window)
  }

  // ---- lemmas about After

  lemma {:induction false} AfterAppend(s: seq<int>, x: int, h: int)
    ensures After(s + [x], h) == After(s, h) + if x > h then [x] else []
  {
    assert (s + [x])[..|s|] == s;
  }

  lemma {:induction false} AfterTwice(s: seq<int>, g: int, h: int)
    requires g <= h
    ensures After(After(s, g), h) == After(s, h)
  {
    if s != [] {
      var n := |s| - 1;
      AfterTwice(s[..n], g, h);
      if s[n] > g { AfterAppend(After(s[..n], g), s[n], h); }
    }
  }

  lemma {:induction false} AfterMember(s: seq<int>, h: int, x: int)
    ensures x in After(s, h) <==> x in s && x > h
  {
    if s != [] {
      var n := |s| - 1;
      assert s == s[..n] + [s[n]];
      AfterMember(s[..n], h, x);
    }
  }

  lemma {:induction false} AfterAll(s: seq<int>, h: int)
    requires forall i :: 0 <= i < |s| ==> s[i] > h
    ensures After(s, h) == s
  {
    if s != [] {
      AfterAll(s[..|s| - 1], h);
      assert s == s[..|s| - 1] + [s[|s| - 1]];
    }
  }

  lemma {:induction false} AfterNone(s: seq<int>, h: int)
    requires UpTo(s, h)
    ensures After(s, h) == []
  {
    if s != [] { AfterNone(s[..|s| - 1], h); }
  }

  lemma {:induction false} AfterConcat(s: seq<int>, t: seq<int>, h: int)
    ensures After(s + t, h) == After(s, h) + After(t, h)
  {
    if t == [] {
      assert s + t == s;
    } else {
      var n := |t| - 1;
      AfterConcat(s, t[..n], h);
      AfterAppend(s + t[..n], t[n], h);
      assert s + t == (s + t[..n]) + [t[n]];
      assert After(s + t, h) == After(s, h) + After(t[..n], h) + if t[n] > h then [t[n]] else [];
    }
  }

  lemma {:induction false} AfterUpTo(s: seq<int>, h: int, t: int)
    requires UpTo(s, t)
    ensures UpTo(After(s, h), t)
  {
    if s != [] { AfterUpTo(s[..|s| - 1], h, t); }
  }

  /** Eviction preserves order and bounds, and leaves only stamps later than `h`. */
  lemma {:induction false} AfterSorted(s: seq<int>, h: int, t: int)
    requires Sorted(s) && UpTo(s, t)
    ensures Sorted(After(s, h)) && UpTo(After(s, h), t)
    ensures forall i :: 0 <= i < |After(s, h)| ==> After(s, h)[i] > h
  {
    if s != [] {
      var n := |s| - 1;
      AfterSorted(s[..n], h, s[n]);
    }
  }

  // ---- lemmas about CountIn

  lemma {:induction false} CountAppend(s: seq<int>, x: int, lo: int, hi: int)
    ensures CountIn(s + [x], lo, hi) == CountIn(s, lo, hi) + if lo <= x < hi then 1 else 0
  {
    assert (s + [x])[..|s|] == s;
  }

  /** A bound survives one more stamp when every interval around that stamp has room. */
  lemma AppendBounded(s: seq<int>, x: int, limit: int, width: int)
    requires Bounded(s, limit, width)
    requires forall lo :: lo <= x < lo + width ==> CountFrom(s, lo, width) < limit
    ensures Bounded(s + [x], limit, width)
  {
    var s' := s + [x];
    forall lo {:trigger CountFrom(s', lo, width)} ensures CountFrom(s', lo, width) <= limit {
      assert CountFrom(s, lo, width) <= limit;
      CountAppend(s, x, lo, lo + width);
    }
  }

  /** Evicting stamps up to `h` changes no count in an interval that starts after `h`. */
  lemma {:induction false} CountAfter(s: seq<int>, h: int, lo: int, hi: int)
    requires h < lo
    ensures CountIn(After(s, h), lo, hi) == CountIn(s, lo, hi)
  {
    if s != [] {
      var rest, x := s[..|s| - 1], s[|s| - 1];
      assert s == rest + [x];
      CountAfter(rest, h, lo, hi);
      AfterLast(rest, x, h);
      if x > h { CountLast(After(rest, h), rest, x, lo, hi); } else { CountAppend(rest, x, lo, hi); }
    }
  }

  lemma AfterLast(s: seq<int>, x: int, h: int)
    ensures x > h ==> After(s + [x], h) == After(s, h) + [x]
    ensures x <= h ==> After(s + [x], h) == After(s, h)
  {
    AfterAppend(s, x, h);
  }

  lemma CountLast(s: seq<int>, t: seq<int>, x: int, lo: int, hi: int)
    requires CountIn(s, lo, hi) == CountIn(t, lo, hi)
    ensures CountIn(s + [x], lo, hi) == CountIn(t + [x], lo, hi)
  {
    CountAppend(s, x, lo, hi);
    CountAppend(t, x, lo, hi);
  }

  lemma {:induction false} CountAtMostLength(s: seq<int>, lo: int, hi: int)
    ensures CountIn(s, lo, hi) <= |s|
  {
    if s != [] { CountAtMostLength(s[..|s| - 1], lo, hi); }
  }
}
