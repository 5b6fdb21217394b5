/**
 Runs of the in-process limiter on a non-decreasing clock: calls on any keys and cleanups in
 any order. Eviction and cleanup are invisible, keys are isolated, and the Remaining and
 ResetAt of every answer say exactly what happens next.
 */
module MemoryRuns {
  import opened SlidingWindow
  import opened MemoryTable

  datatype Op = Call(key: string, rpm: int, now: int) | Clean(now: int)

  function Step(t: Table, op: Op): Table {
    match op
    case Call(key, rpm, now) => Called(t, key, rpm, now)
    case Clean(now) => Cleaned(t, now)
  }

  function Run(ops: seq<Op>): Table {
    if ops == [] then map[] else Step(Run(ops[..|ops| - 1]), ops[|ops| - 1])
  }

  ghost predicate Chronological(ops: seq<Op>) {
    forall i, j :: 0 <= i < j < |ops| ==> ops[i].now <= ops[j].now
  }

  ghost predicate Before(ops: seq<Op>, t: int) {
    forall i :: 0 <= i < |ops| ==> ops[i].now <= t
  }

  // ---- the specification: one log per key, nothing ever forgotten

  /** The answer of a limiter that looks at the full log of one key. */
  function LogAnswer(log: seq<int>, rpm: int, now: int, window: int): Answer {
    if rpm <= 0 then Answer(false, 0, now + window)
    else Decide(After(log, now - window), rpm, now, window)
  }

  /** Every stamp of `key` such a limiter admits, in order; other keys and cleanups are skipped. */
  function KeyLog(ops: seq<Op>, key: string, window: int): seq<int> {
    if ops == [] then [] else
      var n := |ops| - 1;
      var log := KeyLog(ops[..n], key, window);
      if ops[n].Call? && ops[n].key == key && LogAnswer(log, ops[n].rpm, ops[n].now, window).allowed
      then log + [ops[n].now] else log
  }

  function RunLog(ops: seq<Op>): Log {
    if ops == [] then map[] else
      var n := |ops| - 1;
      match ops[n]
      case Call(key, rpm, now) => Logged(Run(ops[..n]), RunLog(ops[..n]), key, rpm, now)
      case Clean(_) => RunLog(ops[..n])
  }

  lemma {:induction false} RunTracks(ops: seq<Op>, t: int)
    requires Chronological(ops) && Before(ops, t)
    ensures Tracks(Run(ops), RunLog(ops), t, 0)
  {
    if ops != [] {
      var n := |ops| - 1;
      var op, table, log := ops[n], Run(ops[..n]), RunLog(ops[..n]);
      RunTracks(ops[..n], op.now);
      match op {
        case Call(key, rpm, now) =>
          if 0 < rpm { CallTracks(table, log, now, 0, key, rpm, now); }
        case Clean(now) =>
          CleanTracks(table, log, now, 0, now);
      }
      TracksLater(Run(ops), RunLog(ops), op.now, t, 0);
    }
  }

  lemma {:induction false} RunLogIsKeyLog(ops: seq<Op>, key: string)
    requires Chronological(ops)
    ensures LogOf(RunLog(ops), key) == KeyLog(ops, key, WINDOW)
  {
    if ops != [] {
      var n := |ops| - 1;
      RunLogIsKeyLog(ops[..n], key);
      RunTracks(ops[..n], ops[n].now);
      assert TracksKey(Run(ops[..n]), RunLog(ops[..n]), ops[n].now, 0, key);
    }
  }

  /**
   Refinement of the full log: on a non-decreasing clock the limiter, which evicts and cleans
   up, answers every call exactly like one that keeps every admitted stamp forever.
   */
  lemma RefinesFullLog(ops: seq<Op>, key: string, rpm: int, now: int)
    requires Chronological(ops) && Before(ops, now)
    ensures Answered(Run(ops), key, rpm, now) == LogAnswer(KeyLog(ops, key, WINDOW), rpm, now, WINDOW)
  {
    RunTracks(ops, now);
    RunLogIsKeyLog(ops, key);
    assert TracksKey(Run(ops), RunLog(ops), now, 0, key);
  }

  /** The calls on one key, without cleanups and without the calls on other keys. */
  function OnlyKey(ops: seq<Op>, key: string): seq<Op> {
    if ops == [] then [] else
      var n := |ops| - 1;
      var rest := OnlyKey(ops[..n], key);
      if ops[n].Call? && ops[n].key == key then rest + [ops[n]] else rest
  }

  lemma {:induction false} OnlyKeyChronological(ops: seq<Op>, key: string, t: int)
    requires Chronological(ops) && Before(ops, t)
    ensures Chronological(OnlyKey(ops, key)) && Before(OnlyKey(ops, key), t)
  {
    if ops != [] {
      var n := |ops| - 1;
      var rest := OnlyKey(ops[..n], key);
      OnlyKeyChronological(ops[..n], key, ops[n].now);
      ChronologicalAppend(rest, ops[n]);
      assert Before(rest, t) && Before(rest + [ops[n]], t);
    }
  }

  lemma ChronologicalAppend(ops: seq<Op>, op: Op)
    requires Chronological(ops) && Before(ops, op.now)
    ensures Chronological(ops + [op])
  {
  }

  lemma {:induction false} OnlyKeyLog(ops: seq<Op>, key: string)
    ensures KeyLog(OnlyKey(ops, key), key, WINDOW) == KeyLog(ops, key, WINDOW)
  {
    if ops != [] {
      var n := |ops| - 1;
      OnlyKeyLog(ops[..n], key);
      KeyLogExtends(OnlyKey(ops[..n], key), ops[n], key);
    }
  }

  lemma KeyLogExtends(ops: seq<Op>, op: Op, key: string)
    ensures var log := KeyLog(ops, key, WINDOW);
            KeyLog(ops + [op], key, WINDOW) ==
              if op.Call? && op.key == key && LogAnswer(log, op.rpm, op.now, WINDOW).allowed
              then log + [op.now] else log
  {
    assert (ops + [op])[..|ops|] == ops;
  }

  /**
   Isolation: an answer on a key is the same as if only that key had ever been used and no
   cleanup had ever run.
   */
  lemma KeysAreIsolated(ops: seq<Op>, key: string, rpm: int, now: int)
    requires Chronological(ops) && Before(ops, now)
    ensures Answered(Run(ops), key, rpm, now) == Answered(Run(OnlyKey(ops, key)), key, rpm, now)
  {
    OnlyKeyChronological(ops, key, now);
    OnlyKeyLog(ops, key);
    RefinesFullLog(ops, key, rpm, now);
    RefinesFullLog(OnlyKey(ops, key), key, rpm, now);
  }

  // ---- what Remaining and ResetAt promise

  /** Every call on `key` asks for the same limit. */
  ghost predicate ConstantRpm(ops: seq<Op>, key: string, rpm: int) {
    forall i :: 0 <= i < |ops| && ops[i].Call? && ops[i].key == key ==> ops[i].rpm == rpm
  }

  /** How many calls on `key` there are. */
  function CallsOn(ops: seq<Op>, key: string): nat {
    if ops == [] then 0 else
      var n := |ops| - 1;
      CallsOn(ops[..n], key) + if ops[n].Call? && ops[n].key == key then 1 else 0
  }

  /** Every call on `key` comes before `t`. */
  ghost predicate CallsBefore(ops: seq<Op>, key: string, t: int) {
    forall i :: 0 <= i < |ops| && ops[i].Call? && ops[i].key == key ==> ops[i].now < t
  }

  lemma {:induction false} KeyLogSorted(ops: seq<Op>, key: string, t: int)
    requires Chronological(ops) && Before(ops, t)
    ensures Sorted(KeyLog(ops, key, WINDOW)) && UpTo(KeyLog(ops, key, WINDOW), t)
  {
    if ops != [] { KeyLogSorted(ops[..|ops| - 1], key, ops[|ops| - 1].now); }
  }

  lemma {:induction false} AfterShrinks(s: seq<int>, h: int)
    ensures |After(s, h)| <= |s|
  {
    if s != [] { AfterShrinks(s[..|s| - 1], h); }
  }

  lemma {:induction false} WindowHoldsAtMost(ops: seq<Op>, key: string, rpm: nat, t: int)
    requires Chronological(ops) && Before(ops, t) && ConstantRpm(ops, key, rpm)
    ensures |After(KeyLog(ops, key, WINDOW), t - WINDOW)| <= rpm
  {
    if ops != [] {
      var n := |ops| - 1;
      WindowHoldsAtMost(ops[..n], key, rpm, ops[n].now);
      AdmissionFits(KeyLog(ops[..n], key, WINDOW), rpm, ops[n].now, t);
    }
  }

  lemma AdmissionFits(log: seq<int>, rpm: nat, now: int, t: int)
    requires |After(log, now - WINDOW)| <= rpm && now <= t
    ensures |After(log, t - WINDOW)| <= rpm
    ensures LogAnswer(log, rpm, now, WINDOW).allowed ==> |After(log + [now], t - WINDOW)| <= rpm
  {
    AfterAppend(log, now, t - WINDOW);
    AfterTwice(log, now - WINDOW, t - WINDOW);
    AfterShrinks(After(log, now - WINDOW), t - WINDOW);
  }

  /**
   The window just after a call, and how the call's answer describes it, whatever limits earlier
   calls asked for.
   */
  lemma AnswerDescribesWindow(ops: seq<Op>, key: string, rpm: int, now: int)
    requires Chronological(ops) && Before(ops, now) && 0 < rpm
    ensures var a := Answered(Run(ops), key, rpm, now);
            var s := After(KeyLog(ops + [Call(key, rpm, now)], key, WINDOW), now - WINDOW);
            && 0 < |s|
            && now - WINDOW < s[0] <= now
            && a.resetAt == s[0] + WINDOW
            && a.remaining == Free(s, rpm)
            && (if a.allowed then |s| <= rpm else rpm <= |s|)
  {
    var log := KeyLog(ops, key, WINDOW);
    assert (ops + [Call(key, rpm, now)])[..|ops|] == ops;
    RefinesFullLog(ops, key, rpm, now);
    KeyLogSorted(ops, key, now);
    AfterSorted(log, now - WINDOW, now);
    AfterAppend(log, now, now - WINDOW);
  }

  /** The places left under the limit: none, if a higher limit has filled them. */
  function Free(window: seq<int>, rpm: int): nat {
    if |window| < rpm then rpm - |window| else 0
  }

  /** From `now` on, `mid` calls `key` with the same limit, and only while `s[0]` is in the window. */
  ghost predicate WithinReset(s: seq<int>, mid: seq<Op>, key: string, rpm: int, now: int) {
    && 0 < |s| && s[0] <= now && Sorted(s)
    && ConstantRpm(mid, key, rpm)
    && CallsBefore(mid, key, s[0] + WINDOW)
    && (forall i :: 0 <= i < |mid| ==> now <= mid[i].now)
  }

  /**
   While the oldest stamp `window[0]` stays in the window, calls on the key are admitted
   until the limit is used up, and nothing leaves the window.
   */
  lemma {:induction false} UntilReset(base: seq<Op>, mid: seq<Op>, key: string, rpm: int, now: int)
    returns (admitted: seq<int>)
    requires WithinReset(After(KeyLog(base, key, WINDOW), now - WINDOW), mid, key, rpm, now)
    ensures KeyLog(base + mid, key, WINDOW) == KeyLog(base, key, WINDOW) + admitted
    ensures forall i :: 0 <= i < |admitted| ==> now <= admitted[i]
    ensures var free := Free(After(KeyLog(base, key, WINDOW), now - WINDOW), rpm);
            |admitted| == if CallsOn(mid, key) < free then CallsOn(mid, key) else free
  {
    var log := KeyLog(base, key, WINDOW);
    if mid == [] {
      assert base + mid == base;
      admitted := [];
    } else {
      var n := |mid| - 1;
      assert WithinReset(After(log, now - WINDOW), mid[..n], key, rpm, now);
      var earlier := UntilReset(base, mid[..n], key, rpm, now);
      assert base + mid == base + mid[..n] + [mid[n]];
      admitted := OneMoreBeforeReset(base + mid[..n], mid[n], log, earlier, key, rpm, now);
    }
  }

  lemma OneMoreBeforeReset(ops: seq<Op>, op: Op, log: seq<int>, earlier: seq<int>, key: string, rpm: int, now: int)
    returns (admitted: seq<int>)
    requires WithinReset(After(log, now - WINDOW), [op], key, rpm, now)
    requires KeyLog(ops, key, WINDOW) == log + earlier
    requires forall i :: 0 <= i < |earlier| ==> now <= earlier[i]
    ensures KeyLog(ops + [op], key, WINDOW) == log + admitted
    ensures forall i :: 0 <= i < |admitted| ==> now <= admitted[i]
    ensures |admitted| == |earlier| +
              if op.Call? && op.key == key && |After(log, now - WINDOW)| + |earlier| < rpm then 1 else 0
  {
    KeyLogExtends(ops, op, key);
    admitted := earlier;
    if op.Call? && op.key == key {
      assert [op][0].rpm == rpm && now <= [op][0].now < After(log, now - WINDOW)[0] + WINDOW;
      WindowUntilReset(log, earlier, now, op.now);
      if |After(log, now - WINDOW)| + |earlier| < rpm {
        assert log + earlier + [op.now] == log + (earlier + [op.now]);
        admitted := earlier + [op.now];
      }
    }
  }

  lemma SortedAfterAll(s: seq<int>, h: int)
    requires Sorted(s) && s != [] && s[0] > h
    ensures After(s, h) == s
  {
    forall i | 0 <= i < |s| ensures s[i] > h {
      if i > 0 { assert s[0] <= s[i]; }
    }
    AfterAll(s, h);
  }

  /** Before the oldest stamp's minute is over, the window is the old window and what came since. */
  lemma WindowUntilReset(log: seq<int>, admitted: seq<int>, now: int, t: int)
    requires var s := After(log, now - WINDOW);
             0 < |s| && s[0] <= now && Sorted(s) && now <= t < s[0] + WINDOW
    requires forall i :: 0 <= i < |admitted| ==> now <= admitted[i]
    ensures After(log + admitted, t - WINDOW) == After(log, now - WINDOW) + admitted
  {
    var s, h := After(log, now - WINDOW), t - WINDOW;
    AfterAll(admitted, h);
    StillAllThere(log, s, admitted, now - WINDOW, h);
  }

  lemma StillAllThere(log: seq<int>, s: seq<int>, admitted: seq<int>, g: int, h: int)
    requires s == After(log, g) && g <= h && Sorted(s) && s != [] && s[0] > h && After(admitted, h) == admitted
    ensures After(log + admitted, h) == s + admitted
  {
    AfterConcat(log, admitted, h);
    AfterTwice(log, g, h);
    SortedAfterAll(s, h);
  }

  lemma ChronologicalParts(ops: seq<Op>, c: Op, mid: seq<Op>)
    requires Chronological(ops + [c] + mid)
    ensures Chronological(ops) && Before(ops, c.now) && Chronological(ops + [c]) && Before(ops + [c], c.now)
    ensures forall i :: 0 <= i < |mid| ==> c.now <= mid[i].now
  {
    var all := ops + [c] + mid;
    assert all[|ops|] == c;
    assert forall i :: 0 <= i < |ops| ==> all[i] == ops[i];
    assert forall i :: 0 <= i < |mid| ==> all[|ops| + 1 + i] == mid[i];
    assert forall i :: 0 <= i < |ops| + 1 ==> all[i] == (ops + [c])[i];
  }

  /** What the full log looks like after a call and some later calls before its ResetAt. */
  lemma CallThenCalls(ops: seq<Op>, key: string, rpm: int, now: int, mid: seq<Op>) returns (admitted: seq<int>)
    requires 0 < rpm && ConstantRpm(mid, key, rpm)
    requires Chronological(ops + [Call(key, rpm, now)] + mid)
    requires CallsBefore(mid, key, Answered(Run(ops), key, rpm, now).resetAt)
    ensures var a := Answered(Run(ops), key, rpm, now);
            var log := KeyLog(ops + [Call(key, rpm, now)], key, WINDOW);
            var s := After(log, now - WINDOW);
            && 0 < |s| && Sorted(s) && now - WINDOW < s[0] <= now
            && a.resetAt == s[0] + WINDOW
            && a.remaining == Free(s, rpm) && (!a.allowed ==> a.remaining == 0)
            && KeyLog(ops + [Call(key, rpm, now)] + mid, key, WINDOW) == log + admitted
            && |admitted| == (if CallsOn(mid, key) < a.remaining then CallsOn(mid, key) else a.remaining)
            && forall i :: 0 <= i < |admitted| ==> now <= admitted[i]
  {
    var base := ops + [Call(key, rpm, now)];
    ChronologicalParts(ops, Call(key, rpm, now), mid);
    AnswerDescribesWindow(ops, key, rpm, now);
    KeyLogSorted(base, key, now);
    AfterSorted(KeyLog(base, key, WINDOW), now - WINDOW, now);
    admitted := UntilReset(base, mid, key, rpm, now);
  }

  /**
   Remaining is exact. It is never negative and is zero on every denial, even if the limit of the
   key has been lowered; and of the calls on that key before ResetAt exactly the first `remaining`
   are admitted and all later ones are denied, whatever cleanups and calls on other keys come in
   between.
   */
  lemma RemainingIsExact(ops: seq<Op>, key: string, rpm: int, now: int, mid: seq<Op>, next: int)
    requires 0 < rpm && ConstantRpm(mid, key, rpm)
    requires Chronological(ops + [Call(key, rpm, now)] + mid)
    requires Before(ops + [Call(key, rpm, now)] + mid, next)
    requires var a := Answered(Run(ops), key, rpm, now);
             CallsBefore(mid, key, a.resetAt) && next < a.resetAt
    ensures var a := Answered(Run(ops), key, rpm, now);
            && 0 <= a.remaining < rpm && (!a.allowed ==> a.remaining == 0)
            && (Answered(Run(ops + [Call(key, rpm, now)] + mid), key, rpm, next).allowed
                <==> CallsOn(mid, key) < a.remaining)
  {
    var base := ops + [Call(key, rpm, now)];
    assert (base + mid)[|ops|] == Call(key, rpm, now);
    var admitted := CallThenCalls(ops, key, rpm, now, mid);
    RefinesFullLog(base + mid, key, rpm, next);
    WindowUntilReset(KeyLog(base, key, WINDOW), admitted, now, next);
  }

  /**
   ResetAt is exact. It lies after the call and at most one minute later; after a denial every
   call on the key before it is denied too; and the first call on the key at or after it is
   admitted, unless earlier calls asked for another limit, whatever cleanups and calls on other
   keys come in between.
   */
  lemma ResetAtIsExact(ops: seq<Op>, key: string, rpm: int, now: int, mid: seq<Op>, next: int)
    requires 0 < rpm && ConstantRpm(mid, key, rpm)
    requires Chronological(ops + [Call(key, rpm, now)] + mid)
    requires Before(ops + [Call(key, rpm, now)] + mid, next)
    requires CallsBefore(mid, key, Answered(Run(ops), key, rpm, now).resetAt)
    ensures var a := Answered(Run(ops), key, rpm, now);
            var later := Answered(Run(ops + [Call(key, rpm, now)] + mid), key, rpm, next);
            && now < a.resetAt <= now + 60_000_000_000
            && (next < a.resetAt && !a.allowed ==> !later.allowed)
            && (a.resetAt <= next && ConstantRpm(ops, key, rpm) ==> later.allowed)
  {
    var base := ops + [Call(key, rpm, now)];
    assert Before(base + mid, next);
    var admitted := CallThenCalls(ops, key, rpm, now, mid);
    if next < Answered(Run(ops), key, rpm, now).resetAt {
      RemainingIsExact(ops, key, rpm, now, mid, next);
    } else if ConstantRpm(ops, key, rpm) {
      RefinesFullLog(base + mid, key, rpm, next);
      ChronologicalParts(ops, Call(key, rpm, now), mid);
      ConstantWithCall(ops, key, rpm, now);
      WindowHoldsAtMost(base, key, rpm, now);
      OldestLeaves(KeyLog(base, key, WINDOW), admitted, rpm, now, next);
    }
  }

  lemma ConstantWithCall(ops: seq<Op>, key: string, rpm: int, now: int)
    requires ConstantRpm(ops, key, rpm)
    ensures ConstantRpm(ops + [Call(key, rpm, now)], key, rpm)
  {
  }

  /** A limit of zero or less is denied for a minute, and leaves no trace. */
  lemma NothingForNoLimit(ops: seq<Op>, key: string, rpm: int, now: int)
    requires rpm <= 0
    ensures Answered(Run(ops), key, rpm, now) == Answer(false, 0, now + 60_000_000_000)
    ensures Run(ops + [Call(key, rpm, now)]) == Run(ops)
  {
    assert (ops + [Call(key, rpm, now)])[..|ops|] == ops;
  }

  /** Once the oldest stamp's minute is over, there is room for one more. */
  lemma OldestLeaves(log: seq<int>, admitted: seq<int>, rpm: int, now: int, t: int)
    requires var s := After(log, now - WINDOW);
             0 < |s| && |s| + |admitted| <= rpm && s[0] + WINDOW <= t && now <= t
    ensures LogAnswer(log + admitted, rpm, t, WINDOW).allowed
  {
    var s := After(log, now - WINDOW);
    AfterConcat(log, admitted, t - WINDOW);
    AfterTwice(log, now - WINDOW, t - WINDOW);
    assert s == [s[0]] + s[1..];
    AfterConcat([s[0]], s[1..], t - WINDOW);
    AfterNone([s[0]], t - WINDOW);
    AfterShrinks(s[1..], t - WINDOW);
    AfterShrinks(admitted, t - WINDOW);
  }
}
