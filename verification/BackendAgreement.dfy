/**
 The two backends side by side on one non-decreasing millisecond clock. The in-process limiter
 sees the same instants in nanoseconds; its cleanups and the expiry of Redis keys may happen at
 any moment and touch only their own backend.
 */
module BackendAgreement {
  import opened Collections
  import opened SlidingWindow
  import Mem = MemoryTable
  import Runs = MemoryRuns
  import opened RedisScript
  import opened RedisReplicas

  const NS_PER_MS: int := 1_000_000

  datatype Op =
    | Call(key: string, rpm: int, now: int, member: string)
    | Clean(now: int)
    | Expire(key: string, now: int)

  // ---- what each backend makes of a sequence of operations

  function InMemory(ops: seq<Op>): seq<Runs.Op> {
    if ops == [] then [] else
      var n := |ops| - 1;
      var rest := InMemory(ops[..n]);
      match ops[n]
      case Call(key, rpm, now, _) => rest + [Runs.Call(key, rpm, now * NS_PER_MS)]
      case Clean(now) => rest + [Runs.Clean(now * NS_PER_MS)]
      case Expire(_, _) => rest
  }

  /** AllowN denies a limit of zero or less without running the script. */
  function OnRedis(s: State, op: Op): State {
    var s' := Apply(s, Tick(op.now));
    match op
    case Call(key, rpm, now, member) => if rpm <= 0 then s' else Apply(s', Script(key, rpm, now, member))
    case Clean(_) => s'
    case Expire(key, _) => Apply(s', Vanish(key))
  }

  function InRedis(start: int, ops: seq<Op>): State {
    if ops == [] then Init(start) else OnRedis(InRedis(start, ops[..|ops| - 1]), ops[|ops| - 1])
  }

  /** The clock does not go back, members are fresh, and a key expires no earlier than its deadline. */
  ghost predicate CanFollow(s: State, op: Op) {
    && s.server <= op.now
    && (op.Call? ==> Fresh(Admitted(s.log, op.key), op.member))
    && (op.Expire? ==> Enabled(Apply(s, Tick(op.now)), Vanish(op.key), 0))
  }

  ghost predicate Plausible(start: int, ops: seq<Op>) {
    ops == [] ||
    (Plausible(start, ops[..|ops| - 1]) && CanFollow(InRedis(start, ops[..|ops| - 1]), ops[|ops| - 1]))
  }

  /** An answer in milliseconds, restated in nanoseconds. */
  function Scaled(a: Answer): Answer {
    a.(resetAt := a.resetAt * NS_PER_MS)
  }

  function ScaledStamps(s: seq<int>): seq<int> {
    seq(|s|, i requires 0 <= i < |s| => s[i] * NS_PER_MS)
  }

  lemma {:induction false} ScaledAfter(s: seq<int>, h: int)
    ensures After(ScaledStamps(s), h * NS_PER_MS) == ScaledStamps(After(s, h))
  {
    if s != [] {
      var n := |s| - 1;
      ScaledAfter(s[..n], h);
      assert ScaledStamps(s) == ScaledStamps(s[..n]) + [s[n] * NS_PER_MS];
      AfterAppend(ScaledStamps(s[..n]), s[n] * NS_PER_MS, h * NS_PER_MS);
    }
  }

  // ---- the Redis side keeps its invariant, and time passes alike on both sides

  lemma {:induction false} RedisInv(start: int, ops: seq<Op>)
    requires Plausible(start, ops)
    ensures Inv(InRedis(start, ops), 0) && start <= InRedis(start, ops).server
    ensures ops != [] ==> InRedis(start, ops).server == ops[|ops| - 1].now
  {
    if ops != [] {
      var n := |ops| - 1;
      var s, op := InRedis(start, ops[..n]), ops[n];
      RedisInv(start, ops[..n]);
      ApplyKeepsInv(s, Tick(op.now), 0);
      var s' := Apply(s, Tick(op.now));
      match op
      case Call(key, rpm, now, member) =>
        if 0 < rpm { ApplyKeepsInv(s', Script(key, rpm, now, member), 0); }
      case Clean(_) =>
      case Expire(key, _) => ApplyKeepsInv(s', Vanish(key), 0);
    }
  }

  lemma {:induction false} MemoryClock(start: int, ops: seq<Op>)
    requires Plausible(start, ops)
    ensures Runs.Chronological(InMemory(ops))
    ensures Runs.Before(InMemory(ops), InRedis(start, ops).server * NS_PER_MS)
  {
    if ops != [] {
      var n := |ops| - 1;
      MemoryClock(start, ops[..n]);
      RedisInv(start, ops[..n]);
      RedisInv(start, ops);
      var rest := InMemory(ops[..n]);
      assert Runs.Before(rest, ops[n].now * NS_PER_MS);
      match ops[n]
      case Call(key, rpm, now, _) => Runs.ChronologicalAppend(rest, Runs.Call(key, rpm, now * NS_PER_MS));
      case Clean(now) => Runs.ChronologicalAppend(rest, Runs.Clean(now * NS_PER_MS));
      case Expire(_, _) =>
    }
  }

  // ---- both sides have admitted the same stamps

  function RedisStamps(start: int, ops: seq<Op>, key: string): seq<int> {
    StampsOf(Admitted(InRedis(start, ops).log, key))
  }

  function MemoryStamps(ops: seq<Op>, key: string): seq<int> {
    Runs.KeyLog(InMemory(ops), key, Mem.WINDOW)
  }

  /** The script counts exactly the stamps later than one window ago. */
  lemma ScriptCounts(s: State, key: string, now: int)
    requires Inv(s, 0) && s.server <= now
    ensures var a := Admitted(s.log, key);
            && Trimmed(Scores(s.db, key), now - WINDOW_MS) == Trimmed(Everything(a), now - WINDOW_MS)
            && |Trimmed(Scores(s.db, key), now - WINDOW_MS)| == |After(StampsOf(a), now - WINDOW_MS)|
  {
    assert InvKey(s, 0, key);
    var a := Admitted(s.log, key);
    TrimmedAgree(Scores(s.db, key), Everything(a), s.server - WINDOW_MS, now - WINDOW_MS);
    TrimmedSize(a, now - WINDOW_MS);
  }

  lemma {:induction false} SameStamps(start: int, ops: seq<Op>, key: string)
    requires Plausible(start, ops)
    ensures MemoryStamps(ops, key) == ScaledStamps(RedisStamps(start, ops, key))
  {
    if ops == [] {
      assert ScaledStamps([]) == [];
    } else {
      var n := |ops| - 1;
      var s, op := InRedis(start, ops[..n]), ops[n];
      SameStamps(start, ops[..n], key);
      RedisInv(start, ops[..n]);
      match op
      case Call(k, rpm, now, member) =>
        Runs.KeyLogExtends(InMemory(ops[..n]), Runs.Call(k, rpm, now * NS_PER_MS), key);
        if k == key && 0 < rpm { SameAdmission(s, key, rpm, now, member); }
        ScaledAppend(RedisStamps(start, ops[..n], key), now);
      case Clean(now) =>
        Runs.KeyLogExtends(InMemory(ops[..n]), Runs.Clean(now * NS_PER_MS), key);
      case Expire(_, _) =>
    }
  }

  lemma SameAdmission(s: State, key: string, rpm: int, now: int, member: string)
    requires Inv(s, 0) && s.server <= now && 0 < rpm
    ensures var stamps := StampsOf(Admitted(s.log, key));
            var s' := Apply(Apply(s, Tick(now)), Script(key, rpm, now, member));
            var admit := Runs.LogAnswer(ScaledStamps(stamps), rpm, now * NS_PER_MS, Mem.WINDOW).allowed;
            StampsOf(Admitted(s'.log, key)) == (if admit then stamps + [now] else stamps)
  {
    var a := Admitted(s.log, key);
    ScriptCounts(s, key, now);
    ScriptOn(Apply(s, Tick(now)), key, rpm, now, member);
    ScaledDecision(StampsOf(a), rpm, now);
    HistoryAppend(a, Admission(member, now));
  }

  lemma ScaledDecision(stamps: seq<int>, rpm: int, now: int)
    ensures Runs.LogAnswer(ScaledStamps(stamps), rpm, now * NS_PER_MS, Mem.WINDOW)
         == Scaled(Runs.LogAnswer(stamps, rpm, now, WINDOW_MS))
  {
    ScaledAfter(stamps, now - WINDOW_MS);
  }

  lemma ScaledAppend(s: seq<int>, x: int)
    ensures ScaledStamps(s + [x]) == ScaledStamps(s) + [x * NS_PER_MS]
  {
  }

  // ---- the oldest score is the first stamp

  lemma {:induction false} EveryStampHasAMember(a: seq<Admission>, i: nat)
    requires Distinct(a) && i < |a|
    ensures |StampsOf(a)| == |a| && a[i].member in Everything(a)
    ensures Everything(a)[a[i].member] == a[i].stamp == StampsOf(a)[i]
  {
    var n := |a| - 1;
    if i < n {
      EveryStampHasAMember(a[..n], i);
    } else if n > 0 {
      EveryStampHasAMember(a[..n], n - 1);
    }
  }

  lemma LowestIsFirst(a: seq<Admission>, h: int, x: int)
    requires Distinct(a) && Sorted(StampsOf(a))
    requires IsLowest(Trimmed(Everything(a), h), x)
    ensures After(StampsOf(a), h) != [] && x == After(StampsOf(a), h)[0]
  {
    var z, s := Trimmed(Everything(a), h), After(StampsOf(a), h);
    var m :| m in z && z[m] == x;
    StampOf(a, m);
    AfterMember(StampsOf(a), h, x);
    AfterMember(StampsOf(a), h, s[0]);
    var i :| 0 <= i < |StampsOf(a)| && StampsOf(a)[i] == s[0];
    StampsLength(a);
    EveryStampHasAMember(a, i);
    assert a[i].member in z;
    FirstIsLeast(StampsOf(a), h, x);
  }

  lemma {:induction false} StampsLength(a: seq<Admission>)
    ensures |StampsOf(a)| == |a|
  {
    if a != [] { StampsLength(a[..|a| - 1]); }
  }

  lemma FirstIsLeast(s: seq<int>, h: int, x: int)
    requires Sorted(s) && x in After(s, h)
    ensures After(s, h)[0] <= x
  {
    if s != [] { AfterSorted(s, h, s[|s| - 1]); }
  }

  /** Stamps scaled up are sorted exactly when the stamps are. */
  lemma SortedUnscaled(s: seq<int>)
    requires Sorted(ScaledStamps(s))
    ensures Sorted(s)
  {
    forall i, j | 0 <= i < j < |s| ensures s[i] <= s[j] {
      assert ScaledStamps(s)[i] <= ScaledStamps(s)[j];
    }
  }

  lemma {:induction false} StampsPositive(start: int, ops: seq<Op>, key: string)
    requires Plausible(start, ops) && 0 < start
    ensures forall x :: x in RedisStamps(start, ops, key) ==> 0 < x
  {
    if ops != [] {
      var n := |ops| - 1;
      StampsPositive(start, ops[..n], key);
      RedisInv(start, ops[..n]);
      var s, op := InRedis(start, ops[..n]), ops[n];
      if op.Call? && op.key == key && 0 < op.rpm {
        ScriptOn(Apply(s, Tick(op.now)), key, op.rpm, op.now, op.member);
        HistoryAppend(Admitted(s.log, key), Admission(op.member, op.now));
      }
      var before, after := RedisStamps(start, ops[..n], key), RedisStamps(start, ops, key);
      assert after == before || after == before + [op.now];
    }
  }

  /** The lowest score in the set the script leaves is the first stamp of the window. */
  lemma OldestOfSet(a: seq<Admission>, rpm: int, now: int, member: string, oldest: int)
    requires Distinct(a) && Fresh(a, member) && Sorted(StampsOf(a)) && UpTo(StampsOf(a), now) && 0 < rpm
    requires var kept := Trimmed(Everything(a), now - WINDOW_MS);
             IsLowest(if |kept| < rpm then kept[member := now] else kept, oldest)
    ensures var window := Admit(After(StampsOf(a), now - WINDOW_MS), rpm, now);
            window != [] && oldest == window[0]
  {
    var h := now - WINDOW_MS;
    var kept := Trimmed(Everything(a), h);
    TrimmedSize(a, h);
    if |kept| < rpm {
      var x := Admission(member, now);
      HistoryAppend(a, x);
      EverythingMember(a, member);
      assert Trimmed(Everything(a + [x]), h) == kept[member := now];
      AfterAppend(StampsOf(a), now, h);
      LowestIsFirst(a + [x], h, oldest);
    } else {
      LowestIsFirst(a, h, oldest);
    }
  }

  /** Whatever the script replies, the answer made of it is the full-log answer. */
  lemma ReplyIsLogAnswer(s: State, key: string, rpm: int, now: int, member: string, r: Reply)
    requires Inv(s, 0) && s.server <= now && 0 < now && 0 < rpm
    requires Fresh(Admitted(s.log, key), member)
    requires var stamps := StampsOf(Admitted(s.log, key));
             Sorted(stamps) && UpTo(stamps, now) && forall x :: x in stamps ==> 0 < x
    requires Replies(s.db, now, key, now, rpm, member, r)
    ensures ReplyAnswer(r, rpm, now) == Runs.LogAnswer(StampsOf(Admitted(s.log, key)), rpm, now, WINDOW_MS)
  {
    var a, h := Admitted(s.log, key), now - WINDOW_MS;
    ScriptCounts(s, key, now);
    assert InvKey(s, 0, key);
    ScriptLeaves(s, key, rpm, now, member);
    OldestOfSet(a, rpm, now, member, r.oldest);
    OldestPositive(StampsOf(a), h, rpm, now);
    assert r.count == |Admit(After(StampsOf(a), h), rpm, now)|;
  }

  lemma OldestPositive(stamps: seq<int>, h: int, rpm: int, now: int)
    requires (forall x :: x in stamps ==> 0 < x) && 0 < now && 0 < rpm
    ensures var window := Admit(After(stamps, h), rpm, now); window != [] && 0 < window[0]
  {
    WindowPositive(stamps, h);
    var window := After(stamps, h);
    assert Admit(window, rpm, now)[0] in window + [now];
  }

  lemma ScriptLeaves(s: State, key: string, rpm: int, now: int, member: string)
    requires 0 < rpm
    ensures var kept := Trimmed(Scores(s.db, key), now - WINDOW_MS);
            var left := Scores(Scripted(s.db, now, key, now, rpm, member), key);
            left == (if |kept| < rpm then kept[member := now] else kept) && left != map[]
  {
    var kept := Trimmed(Scores(s.db, key), now - WINDOW_MS);
    assert |kept| < rpm ==> member in kept[member := now];
  }

  lemma WindowPositive(s: seq<int>, h: int)
    requires forall x :: x in s ==> 0 < x
    ensures forall x :: x in After(s, h) ==> 0 < x
  {
    forall x | x in After(s, h) ensures 0 < x { AfterMember(s, h, x); }
  }

  /**
   Backend agreement: after any plausible sequence of calls, cleanups and expiries since an
   instant after the epoch, the next call gets the same Allowed, Remaining and ResetAt from
   both backends, whatever the script's choice among equal scores.
   */
  lemma BackendsAgree(start: int, ops: seq<Op>, key: string, rpm: int, now: int, member: string, r: Reply)
    requires 0 < start && Plausible(start, ops)
    requires CanFollow(InRedis(start, ops), Call(key, rpm, now, member))
    requires 0 < rpm ==> Replies(InRedis(start, ops).db, now, key, now, rpm, member, r)
    ensures Mem.Answered(Runs.Run(InMemory(ops)), key, rpm, now * NS_PER_MS)
         == Scaled(if 0 < rpm then ReplyAnswer(r, rpm, now) else Answer(false, 0, now + WINDOW_MS))
  {
    var s, stamps := InRedis(start, ops), RedisStamps(start, ops, key);
    var t := now * NS_PER_MS;
    RedisInv(start, ops);
    MemoryClock(start, ops);
    Runs.RefinesFullLog(InMemory(ops), key, rpm, t);
    SameStamps(start, ops, key);
    Runs.KeyLogSorted(InMemory(ops), key, t);
    SortedUnscaled(stamps);
    StampsPositive(start, ops, key);
    ScaledDecision(stamps, rpm, now);
    if 0 < rpm {
      assert InvKey(s, 0, key);
      ReplyIsLogAnswer(s, key, rpm, now, member, r);
    }
  }

  // ---- so Remaining and ResetAt mean the same on Redis

  lemma {:induction false} InMemoryConcat(ops: seq<Op>, more: seq<Op>)
    ensures InMemory(ops + more) == InMemory(ops) + InMemory(more)
  {
    if more == [] {
      assert ops + more == ops;
    } else {
      var n := |more| - 1;
      assert (ops + more)[..|ops + more| - 1] == ops + more[..n];
      InMemoryConcat(ops, more[..n]);
    }
  }

  lemma InMemoryAround(ops: seq<Op>, c: Op, mid: seq<Op>)
    requires c.Call?
    ensures InMemory(ops + [c] + mid)
         == InMemory(ops) + [Runs.Call(c.key, c.rpm, c.now * NS_PER_MS)] + InMemory(mid)
  {
    InMemoryConcat(ops + [c], mid);
    InMemoryConcat(ops, [c]);
    assert [c][..0] == [] && InMemory([c]) == [Runs.Call(c.key, c.rpm, c.now * NS_PER_MS)];
  }

  /** The calls of `mid` on the key ask for `rpm` and come before the instant `reset`. */
  ghost predicate CallsUntil(mid: seq<Op>, key: string, rpm: int, reset: int) {
    forall i :: 0 <= i < |mid| && mid[i].Call? && mid[i].key == key ==> mid[i].rpm == rpm && mid[i].now < reset
  }

  function CallsOn(mid: seq<Op>, key: string): nat {
    if mid == [] then 0 else
      var n := |mid| - 1;
      CallsOn(mid[..n], key) + if mid[n].Call? && mid[n].key == key then 1 else 0
  }

  lemma {:induction false} CallsInMemory(mid: seq<Op>, key: string, rpm: int, reset: int)
    requires CallsUntil(mid, key, rpm, reset)
    ensures Runs.ConstantRpm(InMemory(mid), key, rpm) && Runs.CallsBefore(InMemory(mid), key, reset * NS_PER_MS)
    ensures Runs.CallsOn(InMemory(mid), key) == CallsOn(mid, key)
  {
    if mid != [] {
      var n := |mid| - 1;
      assert CallsUntil(mid[..n], key, rpm, reset);
      CallsInMemory(mid[..n], key, rpm, reset);
      var rest := InMemory(mid[..n]);
      match mid[n]
      case Call(k, r, now, _) =>
        assert mid[n].Call?;
        assert (rest + [Runs.Call(k, r, now * NS_PER_MS)])[..|rest|] == rest;
      case Clean(now) => assert (rest + [Runs.Clean(now * NS_PER_MS)])[..|rest|] == rest;
      case Expire(_, _) =>
    }
  }

  lemma {:induction false} PlausiblePrefix(start: int, ops: seq<Op>, more: seq<Op>)
    requires Plausible(start, ops + more)
    ensures Plausible(start, ops)
  {
    if more == [] {
      assert ops + more == ops;
    } else {
      assert (ops + more)[..|ops + more| - 1] == ops + more[..|more| - 1];
      PlausiblePrefix(start, ops, more[..|more| - 1]);
    }
  }

  /** A call with its reply, in a plausible sequence: what the in-process limiter would have answered. */
  lemma ReplyInMemory(start: int, ops: seq<Op>, c: Op, r: Reply)
    requires 0 < start && Plausible(start, ops + [c]) && c.Call? && 0 < c.rpm
    requires Replies(InRedis(start, ops).db, c.now, c.key, c.now, c.rpm, c.member, r)
    ensures Mem.Answered(Runs.Run(InMemory(ops)), c.key, c.rpm, c.now * NS_PER_MS) == Scaled(ReplyAnswer(r, c.rpm, c.now))
  {
    assert (ops + [c])[..|ops|] == ops;
    BackendsAgree(start, ops, c.key, c.rpm, c.now, c.member, r);
  }

  /**
   Remaining is exact on Redis too: after any reply, of the calls on the key before ResetAt exactly
   the first `remaining` are admitted, whatever limits were asked for before and whichever keys
   expire meanwhile.
   */
  lemma RemainingIsExactOnRedis(start: int, ops: seq<Op>, c: Op, mid: seq<Op>, d: Op, r: Reply, r': Reply)
    requires 0 < start && c.Call? && d.Call? && c.key == d.key && c.rpm == d.rpm && 0 < c.rpm
    requires Plausible(start, ops + [c] + mid + [d])
    requires Replies(InRedis(start, ops).db, c.now, c.key, c.now, c.rpm, c.member, r)
    requires Replies(InRedis(start, ops + [c] + mid).db, d.now, d.key, d.now, d.rpm, d.member, r')
    requires var reset := ReplyAnswer(r, c.rpm, c.now).resetAt; CallsUntil(mid, c.key, c.rpm, reset) && d.now < reset
    ensures var a := ReplyAnswer(r, c.rpm, c.now);
            && 0 <= a.remaining < c.rpm && (!a.allowed ==> a.remaining == 0)
            && (r'.allowed == 1 <==> CallsOn(mid, c.key) < a.remaining)
  {
    var all := ops + [c] + mid;
    PlausiblePrefix(start, all, [d]);
    PlausiblePrefix(start, ops + [c], mid);
    ReplyInMemory(start, ops, c, r);
    ReplyInMemory(start, all, d, r');
    MemoryClock(start, all);
    InMemoryAround(ops, c, mid);
    CallsInMemory(mid, c.key, c.rpm, ReplyAnswer(r, c.rpm, c.now).resetAt);
    ClockBefore(start, all, d);
    Runs.RemainingIsExact(InMemory(ops), c.key, c.rpm, c.now * NS_PER_MS, InMemory(mid), d.now * NS_PER_MS);
  }

  lemma ClockBefore(start: int, ops: seq<Op>, d: Op)
    requires Plausible(start, ops + [d])
    ensures Runs.Before(InMemory(ops), d.now * NS_PER_MS)
  {
    PlausiblePrefix(start, ops, [d]);
    assert (ops + [d])[..|ops|] == ops;
    MemoryClock(start, ops);
  }
}
