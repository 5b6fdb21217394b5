/**
 Several replicas sharing one Redis server. Each script call carries its caller's clock;
 expiry follows the server's clock. Runs interleave server ticks, script calls from any
 replica, and keys vanishing at any moment from their deadline on.
 */
module RedisReplicas {
  import opened Collections
  import opened SlidingWindow
  import opened RedisScript

  /** An admitted request: its member and the score it was stored under. */
  datatype Admission = Admission(member: string, stamp: int)

  type History = map<string, seq<Admission>>

  function Admitted(log: History, key: string): seq<Admission> {
    if key in log then log[key] else []
  }

  function StampsOf(a: seq<Admission>): seq<int> {
    if a == [] then [] else StampsOf(a[..|a| - 1]) + [a[|a| - 1].stamp]
  }

  /** All admissions as one sorted set that never lost a member. */
  function Everything(a: seq<Admission>): map<string, int> {
    if a == [] then map[] else Everything(a[..|a| - 1])[a[|a| - 1].member := a[|a| - 1].stamp]
  }

  ghost predicate Fresh(a: seq<Admission>, member: string) {
    forall i :: 0 <= i < |a| ==> a[i].member != member
  }

  ghost predicate Distinct(a: seq<Admission>) {
    forall i, j :: 0 <= i < j < |a| ==> a[i].member != a[j].member
  }

  function Logged(db: Db, log: History, key: string, now: int, limit: int, member: string): History {
    if |Trimmed(Scores(db, key), now - WINDOW_MS)| < limit
    then log[key := Admitted(log, key) + [Admission(member, now)]] else log
  }

  // ---- a set and a history

  /** The set holds nothing foreign, and everything admitted later than `h`. */
  ghost predicate Agree(z: map<string, int>, all: map<string, int>, h: int) {
    && (forall m :: m in z ==> m in all && z[m] == all[m])
    && (forall m :: m in all && all[m] > h ==> m in z)
  }

  lemma {:induction false} EverythingMember(a: seq<Admission>, member: string)
    ensures member !in Everything(a) <==> Fresh(a, member)
  {
    if a != [] {
      var n := |a| - 1;
      EverythingMember(a[..n], member);
      assert forall i :: 0 <= i < |a| ==> a[i] == if i < n then a[..n][i] else a[n];
    }
  }

  lemma HistoryAppend(a: seq<Admission>, x: Admission)
    ensures StampsOf(a + [x]) == StampsOf(a) + [x.stamp]
    ensures Everything(a + [x]) == Everything(a)[x.member := x.stamp]
  {
    assert (a + [x])[..|a|] == a;
  }

  lemma {:induction false} StampOf(a: seq<Admission>, member: string)
    requires member in Everything(a)
    ensures Everything(a)[member] in StampsOf(a)
  {
    var n := |a| - 1;
    if a[n].member != member { StampOf(a[..n], member); }
    assert StampsOf(a)[|StampsOf(a)| - 1] == a[n].stamp;
  }

  /** As many members survive a trim as there are stamps later than its bound. */
  lemma {:induction false} TrimmedSize(a: seq<Admission>, h: int)
    requires Distinct(a)
    ensures |Trimmed(Everything(a), h)| == |After(StampsOf(a), h)|
  {
    if a != [] {
      var n := |a| - 1;
      var x := a[n];
      TrimmedSize(a[..n], h);
      EverythingMember(a[..n], x.member);
      HistoryAppend(a[..n], x);
      AfterAppend(StampsOf(a[..n]), x.stamp, h);
      TrimmedInsert(Everything(a[..n]), x.member, x.stamp, h);
    }
  }

  lemma TrimmedInsert(z: map<string, int>, member: string, stamp: int, h: int)
    requires member !in z
    ensures |Trimmed(z[member := stamp], h)| == |Trimmed(z, h)| + if stamp > h then 1 else 0
  {
    var t, t' := Trimmed(z, h), Trimmed(z[member := stamp], h);
    if stamp > h {
      assert t'.Keys == t.Keys + {member};
      assert |t'| == |t'.Keys| && |t| == |t.Keys|;
    } else {
      assert t' == t;
    }
  }

  lemma TrimmedAgree(z: map<string, int>, all: map<string, int>, h: int, g: int)
    requires Agree(z, all, h) && h <= g
    ensures Trimmed(z, g) == Trimmed(all, g)
  {
  }

  lemma TrimmedFewer(z: map<string, int>, g: int, h: int)
    requires g <= h
    ensures |Trimmed(z, h)| <= |Trimmed(z, g)|
  {
    var low, high := Trimmed(z, g), Trimmed(z, h);
    assert high.Keys <= low.Keys;
    SubsetSize(high.Keys, low.Keys);
    assert |high| == |high.Keys| && |low| == |low.Keys|;
  }

  // ---- the transition system

  datatype State = State(server: int, db: Db, log: History)

  datatype Event =
    | Tick(to: int)
    | Script(key: string, limit: int, now: int, member: string)
    | Vanish(key: string)

  function Init(server: int): State {
    State(server, map[], map[])
  }

  /** Every caller's clock is within `e` of the server's, and members are never reused. */
  ghost predicate Enabled(s: State, ev: Event, e: int) {
    match ev
    case Tick(to) => s.server <= to
    case Script(key, _, now, member) =>
      s.server - e <= now <= s.server + e && Fresh(Admitted(s.log, key), member)
    case Vanish(key) =>
      key in s.db && s.db[key].deadline.Some? && s.db[key].deadline.value <= s.server
  }

  function Apply(s: State, ev: Event): State {
    match ev
    case Tick(to) => s.(server := to)
    case Script(key, limit, now, member) =>
      s.(db := Scripted(s.db, s.server, key, now, limit, member),
         log := Logged(s.db, s.log, key, now, limit, member))
    case Vanish(key) => s.(db := s.db - {key})
  }

  function Exec(server: int, run: seq<Event>): State {
    if run == [] then Init(server) else Apply(Exec(server, run[..|run| - 1]), run[|run| - 1])
  }

  ghost predicate Legal(server: int, run: seq<Event>, e: int) {
    run == [] ||
    (Legal(server, run[..|run| - 1], e) && Enabled(Exec(server, run[..|run| - 1]), run[|run| - 1], e))
  }

  ghost predicate Limited(run: seq<Event>, key: string, limit: int) {
    forall i :: 0 <= i < |run| && run[i].Script? && run[i].key == key ==> run[i].limit <= limit
  }

  // ---- what every step keeps

  /** The set of `key` holds every admission that a call within `e` of the server's clock counts. */
  ghost predicate InvKey(s: State, e: int, key: string) {
    var a := Admitted(s.log, key);
    && Distinct(a)
    && UpTo(StampsOf(a), s.server + e)
    && Agree(Scores(s.db, key), Everything(a), s.server + e - WINDOW_MS)
    && (key in s.db ==>
          && s.db[key].deadline.Some?
          && ScoresAtMost(s.db[key].scores, s.db[key].deadline.value + e - WINDOW_MS))
  }

  ghost predicate Inv(s: State, e: int) {
    forall key :: InvKey(s, e, key)
  }

  /** What a script call does to the set of its key. */
  lemma ScriptOnSet(db: Db, server: int, key: string, limit: int, now: int, member: string)
    ensures var db' := Scripted(db, server, key, now, limit, member);
            var kept := Trimmed(Scores(db, key), now - WINDOW_MS);
            && Scores(db', key) == (if |kept| < limit then kept[member := now] else kept)
            && (key in db' && |kept| < limit ==> db'[key].deadline == Some(server + WINDOW_MS))
            && (key in db' && limit <= |kept| ==> key in db && db'[key].deadline == db[key].deadline)
  {
  }

  /** What a script call does to the set and the history of its key. */
  lemma ScriptOn(s: State, key: string, limit: int, now: int, member: string)
    ensures var s' := Apply(s, Script(key, limit, now, member));
            var a, kept := Admitted(s.log, key), Trimmed(Scores(s.db, key), now - WINDOW_MS);
            && s'.server == s.server
            && Admitted(s'.log, key) == (if |kept| < limit then a + [Admission(member, now)] else a)
            && Scores(s'.db, key) == (if |kept| < limit then kept[member := now] else kept)
            && (key in s'.db && |kept| < limit ==> s'.db[key].deadline == Some(s.server + WINDOW_MS))
            && (key in s'.db && limit <= |kept| ==> key in s.db && s'.db[key].deadline == s.db[key].deadline)
  {
    ScriptOnSet(s.db, s.server, key, limit, now, member);
  }

  /** The invariant of one key, on the set and the history that it is about. */
  ghost predicate KeyOk(a: seq<Admission>, z: map<string, int>, t: int) {
    Distinct(a) && UpTo(StampsOf(a), t) && Agree(z, Everything(a), t - WINDOW_MS)
  }

  ghost predicate ScoresAtMost(z: map<string, int>, t: int) {
    forall m :: m in z ==> z[m] <= t
  }

  lemma TrimKeepsKey(a: seq<Admission>, z: map<string, int>, t: int, h: int)
    requires KeyOk(a, z, t) && h <= t - WINDOW_MS
    ensures KeyOk(a, Trimmed(z, h), t)
  {
    AgreeTrimmed(z, Everything(a), h, t - WINDOW_MS);
  }

  lemma AddKeepsKey(a: seq<Admission>, z: map<string, int>, t: int, x: Admission)
    requires KeyOk(a, z, t) && Fresh(a, x.member) && x.stamp <= t
    ensures KeyOk(a + [x], z[x.member := x.stamp], t)
    ensures ScoresAtMost(z[x.member := x.stamp], t)
  {
    AppendKeepsHistory(a, x, t);
    AgreeInserted(z, Everything(a), x.member, x.stamp, t - WINDOW_MS);
    ScoresUpTo(a, z, t);
  }

  lemma ScriptKeepsKey(s: State, e: int, key: string, limit: int, now: int, member: string)
    requires InvKey(s, e, key) && Enabled(s, Script(key, limit, now, member), e) && 0 <= e
    ensures InvKey(Apply(s, Script(key, limit, now, member)), e, key)
  {
    var a, kept := Admitted(s.log, key), Trimmed(Scores(s.db, key), now - WINDOW_MS);
    ScriptOn(s, key, limit, now, member);
    TrimKeepsKey(a, Scores(s.db, key), s.server + e, now - WINDOW_MS);
    if |kept| < limit { AddKeepsKey(a, kept, s.server + e, Admission(member, now)); }
  }

  lemma AppendKeepsHistory(a: seq<Admission>, x: Admission, t: int)
    requires Distinct(a) && UpTo(StampsOf(a), t) && Fresh(a, x.member) && x.stamp <= t
    ensures Distinct(a + [x]) && UpTo(StampsOf(a + [x]), t)
    ensures x.member !in Everything(a)
    ensures Everything(a + [x]) == Everything(a)[x.member := x.stamp]
  {
    HistoryAppend(a, x);
    EverythingMember(a, x.member);
  }

  lemma AgreeTrimmed(z: map<string, int>, all: map<string, int>, g: int, h: int)
    requires Agree(z, all, h) && g <= h
    ensures Agree(Trimmed(z, g), all, h)
  {
  }

  lemma AgreeInserted(z: map<string, int>, all: map<string, int>, member: string, stamp: int, h: int)
    requires Agree(z, all, h)
    ensures Agree(z[member := stamp], all[member := stamp], h)
  {
  }

  lemma ScoresUpTo(a: seq<Admission>, z: map<string, int>, t: int)
    requires UpTo(StampsOf(a), t)
    requires forall m :: m in z ==> m in Everything(a) && z[m] == Everything(a)[m]
    ensures forall m :: m in z ==> z[m] <= t
  {
    forall m | m in z ensures z[m] <= t { StampOf(a, m); }
  }

  lemma VanishKeepsKey(s: State, e: int, key: string)
    requires InvKey(s, e, key) && Enabled(s, Vanish(key), e)
    ensures InvKey(Apply(s, Vanish(key)), e, key)
  {
  }

  lemma ApplyKeepsInv(s: State, ev: Event, e: int)
    requires Inv(s, e) && Enabled(s, ev, e) && 0 <= e
    ensures Inv(Apply(s, ev), e)
  {
    forall key ensures InvKey(Apply(s, ev), e, key) {
      assert InvKey(s, e, key);
      match ev
      case Tick(_) =>
      case Script(k, limit, now, member) =>
        if k == key { ScriptKeepsKey(s, e, key, limit, now, member); }
      case Vanish(k) =>
        if k == key { VanishKeepsKey(s, e, key); }
    }
  }

  lemma {:induction false} ReachableInv(server: int, run: seq<Event>, e: int)
    requires Legal(server, run, e) && 0 <= e
    ensures Inv(Exec(server, run), e)
  {
    if run != [] {
      var n := |run| - 1;
      ReachableInv(server, run[..n], e);
      ApplyKeepsInv(Exec(server, run[..n]), run[n], e);
    }
  }

  // ---- the window bound

  /** Stamps from `lo` on are all still in a set that agrees above `lo`, and survive a trim below it. */
  lemma CountedInSet(a: seq<Admission>, z: map<string, int>, h: int, g: int, lo: int, hi: int)
    requires Distinct(a) && Agree(z, Everything(a), h) && h < lo && g < lo
    ensures CountIn(StampsOf(a), lo, hi) <= |Trimmed(z, g)|
  {
    var stamps := StampsOf(a);
    CountAfter(stamps, lo - 1, lo, hi);
    CountAtMostLength(After(stamps, lo - 1), lo, hi);
    TrimmedSize(a, lo - 1);
    TrimmedAgree(z, Everything(a), h, lo - 1);
    TrimmedFewer(z, g, lo - 1);
  }

  lemma ScriptBounded(s: State, e: int, key: string, limit: int, now: int, member: string, bound: int)
    requires InvKey(s, e, key) && Enabled(s, Script(key, limit, now, member), e) && 0 <= e && limit <= bound
    requires Bounded(StampsOf(Admitted(s.log, key)), bound, WINDOW_MS - 2 * e)
    ensures Bounded(StampsOf(Admitted(Apply(s, Script(key, limit, now, member)).log, key)), bound, WINDOW_MS - 2 * e)
  {
    var a, z, width := Admitted(s.log, key), Scores(s.db, key), WINDOW_MS - 2 * e;
    ScriptOn(s, key, limit, now, member);
    if |Trimmed(z, now - WINDOW_MS)| < limit {
      HistoryAppend(a, Admission(member, now));
      OneMoreBounded(a, z, s.server + e - WINDOW_MS, now, width, bound);
    }
  }

  lemma OneMoreBounded(a: seq<Admission>, z: map<string, int>, h: int, now: int, width: int, bound: int)
    requires Distinct(a) && Agree(z, Everything(a), h)
    requires width <= WINDOW_MS && now - width >= h && |Trimmed(z, now - WINDOW_MS)| < bound
    requires Bounded(StampsOf(a), bound, width)
    ensures Bounded(StampsOf(a) + [now], bound, width)
  {
    forall lo | lo <= now < lo + width ensures CountFrom(StampsOf(a), lo, width) < bound {
      CountedInSet(a, z, h, now - WINDOW_MS, lo, lo + width);
    }
    AppendBounded(StampsOf(a), now, bound, width);
  }

  /**
   The shared window bounds the rate over every run: if each caller's clock is within `e` of
   the server's when its script runs, any half-open interval of 60000 - 2e milliseconds holds
   at most `limit` admitted stamps of a key, however replicas and expiry interleave.
   */
  lemma {:induction false} ReplicatedWindowBound(server: int, run: seq<Event>, e: int, key: string, limit: nat)
    requires Legal(server, run, e) && 0 <= e && Limited(run, key, limit)
    ensures Bounded(StampsOf(Admitted(Exec(server, run).log, key)), limit, 60_000 - 2 * e)
  {
    if run != [] {
      var n := |run| - 1;
      var s, ev := Exec(server, run[..n]), run[n];
      assert Limited(run[..n], key, limit);
      ReplicatedWindowBound(server, run[..n], e, key, limit);
      ReachableInv(server, run[..n], e);
      assert InvKey(s, e, key);
      if ev.Script? && ev.key == key {
        ScriptBounded(s, e, key, ev.limit, ev.now, ev.member, limit);
      }
    }
  }

  // ---- nothing is kept for longer than a window

  /** The key holds something, and may vanish at the latest a minute from now. */
  ghost predicate ShortLived(s: State, key: string) {
    key in s.db ==>
      s.db[key].scores != map[] && s.db[key].deadline.Some? && s.db[key].deadline.value <= s.server + 60_000
  }

  lemma ApplyKeepsShortLived(s: State, ev: Event, e: int, key: string)
    requires Enabled(s, ev, e) && ShortLived(s, key)
    ensures ShortLived(Apply(s, ev), key)
  {
    match ev
    case Tick(_) =>
    case Vanish(_) =>
    case Script(k, limit, now, member) => if k == key { ScriptedShortLived(s, key, limit, now, member); }
  }

  lemma ScriptedShortLived(s: State, key: string, limit: int, now: int, member: string)
    requires ShortLived(s, key)
    ensures ShortLived(Apply(s, Script(key, limit, now, member)), key)
  {
    var kept := Trimmed(Scores(s.db, key), now - WINDOW_MS);
    ScriptOn(s, key, limit, now, member);
    assert |kept| < limit ==> member in kept[member := now];
  }

  /** In every run a key without requests for a minute is free to vanish, and no key stands for an empty set. */
  lemma {:induction false} KeysAreShortLived(server: int, run: seq<Event>, e: int, key: string)
    requires Legal(server, run, e)
    ensures ShortLived(Exec(server, run), key)
  {
    if run != [] {
      var n := |run| - 1;
      KeysAreShortLived(server, run[..n], e, key);
      ApplyKeepsShortLived(Exec(server, run[..n]), run[n], e, key);
    }
  }

  // ---- the bound is tight

  lemma Extend(server: int, run: seq<Event>, ev: Event, e: int)
    requires Legal(server, run, e) && Enabled(Exec(server, run), ev, e)
    ensures Legal(server, run + [ev], e) && Exec(server, run + [ev]) == Apply(Exec(server, run), ev)
  {
    assert (run + [ev])[..|run|] == run;
  }

  /** One caller is early by `e`, the next one late by `e`. */
  function TightRun(key: string, e: int): seq<Event> {
    [] + [Script(key, 2, 0, "a")] + [Script(key, 2, 0, "b")] + [Tick(WINDOW_MS - e)]
    + [Script(key, 2, WINDOW_MS, "c")] + [Script(key, 2, WINDOW_MS - 2 * e, "d")]
  }

  function OneKey(server: int, key: string, scores: map<string, int>, deadline: int, a: seq<Admission>): State {
    State(server, map[key := ZSet(scores, Some(deadline))], map[key := a])
  }

  /**
   The interval in ReplicatedWindowBound cannot be one millisecond longer: for every clock
   bound there is a legal run with limit 2 in which such an interval holds three stamps.
   */
  lemma ReplicatedBoundIsTight(key: string, e: int)
    requires 0 <= 2 * e <= WINDOW_MS
    ensures Legal(0, TightRun(key, e), e) && Limited(TightRun(key, e), key, 2)
    ensures !Bounded(StampsOf(Admitted(Exec(0, TightRun(key, e)).log, key)), 2, WINDOW_MS - 2 * e + 1)
  {
    var a, b, c, d := Admission("a", 0), Admission("b", 0), Admission("c", WINDOW_MS), Admission("d", WINDOW_MS - 2 * e);
    var r := [] + [Script(key, 2, 0, "a")] + [Script(key, 2, 0, "b")];
    TightStart(key, e);
    Extend(0, r, Tick(WINDOW_MS - e), e);
    r := r + [Tick(WINDOW_MS - e)];
    TightStepC(key, e);
    Extend(0, r, Script(key, 2, WINDOW_MS, "c"), e);
    r := r + [Script(key, 2, WINDOW_MS, "c")];
    TightStepD(key, e);
    Extend(0, r, Script(key, 2, WINDOW_MS - 2 * e, "d"), e);
    assert Admitted(Exec(0, TightRun(key, e)).log, key) == [a, b, c, d];
    TightCount([a, b, c, d], e);
    TightLimited(key, e);
  }

  lemma TightLimited(key: string, e: int)
    ensures Limited(TightRun(key, e), key, 2)
  {
  }

  lemma TightStepA(key: string, e: int)
    requires 0 <= e
    ensures Enabled(Init(0), Script(key, 2, 0, "a"), e)
    ensures Apply(Init(0), Script(key, 2, 0, "a")) == OneKey(0, key, map["a" := 0], WINDOW_MS, [Admission("a", 0)])
  {
    assert Trimmed(map[], -WINDOW_MS) == map[];
    assert [] + [Admission("a", 0)] == [Admission("a", 0)];
  }

  lemma TightStepB(key: string, e: int)
    requires 0 <= e
    ensures var s := OneKey(0, key, map["a" := 0], WINDOW_MS, [Admission("a", 0)]);
            && Enabled(s, Script(key, 2, 0, "b"), e)
            && Apply(s, Script(key, 2, 0, "b"))
            == OneKey(0, key, map["a" := 0, "b" := 0], WINDOW_MS, [Admission("a", 0), Admission("b", 0)])
  {
    assert Trimmed(map["a" := 0], -WINDOW_MS) == map["a" := 0];
    assert map["a" := 0]["b" := 0] == map["a" := 0, "b" := 0];
    assert [Admission("a", 0)] + [Admission("b", 0)] == [Admission("a", 0), Admission("b", 0)];
  }

  lemma TightStart(key: string, e: int)
    requires 0 <= e
    ensures var r := [] + [Script(key, 2, 0, "a")] + [Script(key, 2, 0, "b")];
            && Legal(0, r, e)
            && Exec(0, r) == OneKey(0, key, map["a" := 0, "b" := 0], WINDOW_MS, [Admission("a", 0), Admission("b", 0)])
  {
    TightStepA(key, e);
    Extend(0, [], Script(key, 2, 0, "a"), e);
    TightStepB(key, e);
    Extend(0, [] + [Script(key, 2, 0, "a")], Script(key, 2, 0, "b"), e);
  }

  lemma TightStepC(key: string, e: int)
    requires 0 <= e
    ensures var s := OneKey(WINDOW_MS - e, key, map["a" := 0, "b" := 0], WINDOW_MS, [Admission("a", 0), Admission("b", 0)]);
            && Enabled(s, Script(key, 2, WINDOW_MS, "c"), e)
            && Apply(s, Script(key, 2, WINDOW_MS, "c"))
            == OneKey(WINDOW_MS - e, key, map["c" := WINDOW_MS], WINDOW_MS - e + WINDOW_MS,
                      [Admission("a", 0), Admission("b", 0), Admission("c", WINDOW_MS)])
  {
    assert Trimmed(map["a" := 0, "b" := 0], 0) == map[];
    var a, b := Admission("a", 0), Admission("b", 0);
    assert [a, b] + [Admission("c", WINDOW_MS)] == [a, b, Admission("c", WINDOW_MS)];
    assert map[]["c" := WINDOW_MS] == map["c" := WINDOW_MS];
  }

  lemma TightStepD(key: string, e: int)
    requires 0 <= 2 * e <= WINDOW_MS
    ensures var log := [Admission("a", 0), Admission("b", 0), Admission("c", WINDOW_MS)];
            var s := OneKey(WINDOW_MS - e, key, map["c" := WINDOW_MS], WINDOW_MS - e + WINDOW_MS, log);
            var ev := Script(key, 2, WINDOW_MS - 2 * e, "d");
            && Enabled(s, ev, e)
            && Admitted(Apply(s, ev).log, key) == log + [Admission("d", WINDOW_MS - 2 * e)]
  {
    assert Trimmed(map["c" := WINDOW_MS], -2 * e) == map["c" := WINDOW_MS];
  }

  lemma FourStamps(log: seq<Admission>)
    requires |log| == 4
    ensures StampsOf(log) == [log[0].stamp, log[1].stamp, log[2].stamp, log[3].stamp]
  {
    HistoryAppend(log[..3], log[3]);
    HistoryAppend(log[..2], log[2]);
    HistoryAppend(log[..1], log[1]);
    HistoryAppend([], log[0]);
    assert log[..3] + [log[3]] == log && log[..2] + [log[2]] == log[..3];
    assert log[..1] + [log[1]] == log[..2] && [] + [log[0]] == log[..1];
  }

  lemma ThreeOfFour(a: int, b: int, c: int, d: int, lo: int, hi: int)
    requires lo <= a < hi && lo <= b < hi && lo <= d < hi
    ensures CountIn([a, b, c, d], lo, hi) >= 3
  {
    CountAppend([a, b, c], d, lo, hi);
    CountAppend([a, b], c, lo, hi);
    CountAppend([a], b, lo, hi);
    CountAppend([], a, lo, hi);
    assert [a, b, c] + [d] == [a, b, c, d] && [a, b] + [c] == [a, b, c] && [a] + [b] == [a, b] && [] + [a] == [a];
  }

  lemma TightCount(log: seq<Admission>, e: int)
    requires 0 <= 2 * e <= WINDOW_MS
    requires log == [Admission("a", 0), Admission("b", 0), Admission("c", WINDOW_MS), Admission("d", WINDOW_MS - 2 * e)]
    ensures !Bounded(StampsOf(log), 2, WINDOW_MS - 2 * e + 1)
  {
    var width := WINDOW_MS - 2 * e + 1;
    FourStamps(log);
    ThreeOfFour(log[0].stamp, log[1].stamp, log[2].stamp, log[3].stamp, 0, width);
    assert CountFrom(StampsOf(log), 0, width) > 2;
  }
}
