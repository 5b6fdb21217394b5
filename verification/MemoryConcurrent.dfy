/**
 AllowN under concurrency. A call reads the clock before it takes the lock, so critical
 sections can run in a different order from the readings they carry; the cleanup reads the
 clock while it holds the lock. Runs interleave clock ticks, readings, critical sections and
 cleanups in any order.
 */
module MemoryConcurrent {
  import opened SlidingWindow
  import opened MemoryTable

  /** A call that has read the clock and not yet taken the lock. */
  datatype Pending = Pending(key: string, rpm: int, now: int)

  /**
   `latest` is the latest reading of a call processed under the lock so far, `cleaned` the latest
   reading of a cleanup; `log` remembers every admitted stamp.
   */
  datatype State = State(clock: int, pending: map<nat, Pending>, table: Table, latest: int, cleaned: int, log: Log)

  datatype Event =
    | Tick(to: int)
    | Read(pid: nat, key: string, rpm: int)
    | Enter(pid: nat)
    | Clean

  function Init(clock: int): State {
    State(clock, map[], map[], clock, clock, map[])
  }

  /**
   What may happen next, when no call carries a reading more than `lag` behind the latest one
   processed, nor one more than `grace` behind a cleanup that overtook the call.
   */
  ghost predicate Enabled(s: State, e: Event, lag: int, grace: int) {
    match e
    case Tick(to) => s.clock <= to
    case Read(pid, _, _) => pid !in s.pending
    case Enter(pid) =>
      pid in s.pending && (0 < s.pending[pid].rpm ==>
                             s.latest - lag <= s.pending[pid].now && s.cleaned - grace <= s.pending[pid].now)
    case Clean => true
  }

  function Apply(s: State, e: Event): State {
    match e
    case Tick(to) => s.(clock := to)
    case Read(pid, key, rpm) => s.(pending := s.pending[pid := Pending(key, rpm, s.clock)])
    case Enter(pid) =>
      if pid !in s.pending then s else
        var c := s.pending[pid];
        var rest := s.(pending := s.pending - {pid});
        if c.rpm <= 0 then rest else
          rest.(table := Called(s.table, c.key, c.rpm, c.now),
                log := Logged(s.table, s.log, c.key, c.rpm, c.now),
                latest := Max(s.latest, c.now))
    case Clean => s.(table := Cleaned(s.table, s.clock), cleaned := s.clock)
  }

  function Exec(clock: int, run: seq<Event>): State {
    if run == [] then Init(clock) else Apply(Exec(clock, run[..|run| - 1]), run[|run| - 1])
  }

  ghost predicate Legal(clock: int, run: seq<Event>, lag: int, grace: int) {
    run == [] ||
    (Legal(clock, run[..|run| - 1], lag, grace) && Enabled(Exec(clock, run[..|run| - 1]), run[|run| - 1], lag, grace))
  }

  /** Every call on `key` in the run asks for at most `limit`. */
  ghost predicate Limited(run: seq<Event>, key: string, limit: int) {
    forall i :: 0 <= i < |run| && run[i].Read? && run[i].key == key ==> run[i].rpm <= limit
  }

  /** From this instant on, a call sees the same stamps in the table as in the log. */
  function Horizon(s: State, lag: int): int {
    Max(s.latest, s.cleaned - GRACE + lag)
  }

  ghost predicate Inv(s: State, lag: int) {
    s.cleaned <= s.clock && Tracks(s.table, s.log, Horizon(s, lag), lag)
  }

  lemma ApplyKeepsInv(s: State, e: Event, lag: int)
    requires Inv(s, lag) && Enabled(s, e, lag, GRACE) && 0 <= lag
    ensures Inv(Apply(s, e), lag)
  {
    match e
    case Tick(_) =>
    case Read(_, _, _) =>
    case Enter(pid) =>
      var c := s.pending[pid];
      if 0 < c.rpm { CallTracks(s.table, s.log, Horizon(s, lag), lag, c.key, c.rpm, c.now); }
    case Clean =>
      CleanTracks(s.table, s.log, Horizon(s, lag), lag, s.clock);
  }

  ghost predicate PendingLimited(s: State, key: string, limit: int) {
    forall p :: p in s.pending && s.pending[p].key == key ==> s.pending[p].rpm <= limit
  }

  lemma {:induction false} ReachableInv(clock: int, run: seq<Event>, lag: int)
    requires Legal(clock, run, lag, GRACE) && 0 <= lag
    ensures Inv(Exec(clock, run), lag)
  {
    if run == [] {
      assert Tracks(map[], map[], Horizon(Init(clock), lag), lag);
    } else {
      var n := |run| - 1;
      ReachableInv(clock, run[..n], lag);
      ApplyKeepsInv(Exec(clock, run[..n]), run[n], lag);
    }
  }

  lemma {:induction false} PendingKeepsLimit(clock: int, run: seq<Event>, key: string, limit: int)
    requires Limited(run, key, limit)
    ensures PendingLimited(Exec(clock, run), key, limit)
  {
    if run != [] {
      var n := |run| - 1;
      assert Limited(run[..n], key, limit);
      PendingKeepsLimit(clock, run[..n], key, limit);
      assert run[n].Read? && run[n].key == key ==> run[n].rpm <= limit;
    }
  }

  /**
   The window bounds the rate over every run: however readings, critical sections and cleanups
   interleave, any half-open interval of `WINDOW - lag` holds at most `limit` admitted stamps of
   a key whose calls ask for at most `limit`, as long as no call is processed with a reading more
   than `lag` behind the latest one processed. Cleanups do not matter, unless one overtakes a call
   that has been waiting for the lock for more than nine minutes.
   */
  lemma {:induction false} ConcurrentWindowBound(clock: int, run: seq<Event>, lag: int, key: string, limit: nat)
    requires Legal(clock, run, lag, GRACE) && 0 <= lag
    requires Limited(run, key, limit)
    ensures Bounded(LogOf(Exec(clock, run).log, key), limit, 60_000_000_000 - lag)
  {
    if run != [] {
      var n := |run| - 1;
      var s, e := Exec(clock, run[..n]), run[n];
      assert Limited(run[..n], key, limit);
      ConcurrentWindowBound(clock, run[..n], lag, key, limit);
      ReachableInv(clock, run[..n], lag);
      PendingKeepsLimit(clock, run[..n], key, limit);
      if e.Enter? && s.pending[e.pid].key == key && 0 < s.pending[e.pid].rpm {
        var c := s.pending[e.pid];
        assert TracksKey(s.table, s.log, Horizon(s, lag), lag, key);
        CallBounded(s.table, s.log, Horizon(s, lag), lag, key, c.rpm, c.now, limit);
      }
    }
  }

  lemma Extend(clock: int, run: seq<Event>, e: Event, lag: int, grace: int)
    requires Legal(clock, run, lag, grace) && Enabled(Exec(clock, run), e, lag, grace)
    ensures Legal(clock, run + [e], lag, grace) && Exec(clock, run + [e]) == Apply(Exec(clock, run), e)
  {
    assert (run + [e])[..|run|] == run;
  }

  /** One call alone in its turn: it reads the clock and takes the lock at once. */
  function Turn(pid: nat, key: string): seq<Event> { [Read(pid, key, 2), Enter(pid)] }

  /** The run that shows the bound is tight: a late critical section after an early eviction. */
  function TightRun(key: string, lag: int): seq<Event> {
    Turn(0, key) + Turn(1, key) +
    [Tick(WINDOW - lag)] + [Read(2, key, 2)] + [Tick(WINDOW)] + [Read(3, key, 2)] + [Enter(3)] + [Enter(2)]
  }

  /**
   The interval in ConcurrentWindowBound cannot be one nanosecond longer: for every lag there
   is a legal run with limit 2 in which an interval of `WINDOW - lag + 1` holds three stamps.
   */
  lemma WindowBoundIsTight(key: string, lag: int)
    requires 0 <= lag <= WINDOW
    ensures Legal(0, TightRun(key, lag), lag, GRACE) && Limited(TightRun(key, lag), key, 2)
    ensures !Bounded(LogOf(Exec(0, TightRun(key, lag)).log, key), 2, WINDOW - lag + 1)
  {
    TightMiddle(key, lag);
    var r := Turn(0, key) + Turn(1, key) +
             [Tick(WINDOW - lag)] + [Read(2, key, 2)] + [Tick(WINDOW)] + [Read(3, key, 2)];
    TightEnd(key, lag, Exec(0, r));
    Extend(0, r, Enter(3), lag, GRACE);
    Extend(0, r + [Enter(3)], Enter(2), lag, GRACE);
    assert r + [Enter(3)] + [Enter(2)] == TightRun(key, lag);
    TightCount(LogOf(Exec(0, TightRun(key, lag)).log, key), lag);
    TightLimited(key, lag);
  }

  lemma TightLimited(key: string, lag: int)
    ensures Limited(TightRun(key, lag), key, 2)
  {
  }

  lemma TightMiddle(key: string, lag: int)
    requires 0 <= lag <= WINDOW
    ensures var r := Turn(0, key) + Turn(1, key) +
                     [Tick(WINDOW - lag)] + [Read(2, key, 2)] + [Tick(WINDOW)] + [Read(3, key, 2)];
            && Legal(0, r, lag, GRACE)
            && Exec(0, r) == State(WINDOW, map[2 := Pending(key, 2, WINDOW - lag), 3 := Pending(key, 2, WINDOW)],
                                   map[key := Entry([0, 0], 0)], 0, 0, map[key := [0, 0]])
  {
    TightPrefix(key, lag);
    var r := Turn(0, key) + Turn(1, key);
    var s := AtZero(key, [0, 0]);
    Extend(0, r, Tick(WINDOW - lag), lag, GRACE);
    r := r + [Tick(WINDOW - lag)];
    Extend(0, r, Read(2, key, 2), lag, GRACE);
    r := r + [Read(2, key, 2)];
    assert Exec(0, r) == s.(clock := WINDOW - lag, pending := map[2 := Pending(key, 2, WINDOW - lag)]);
    Extend(0, r, Tick(WINDOW), lag, GRACE);
    r := r + [Tick(WINDOW)];
    Extend(0, r, Read(3, key, 2), lag, GRACE);
  }

  lemma TightCount(log: seq<int>, lag: int)
    requires log == [0, 0] + [WINDOW] + [WINDOW - lag] && 0 <= lag <= WINDOW
    ensures !Bounded(log, 2, WINDOW - lag + 1)
  {
    var width := WINDOW - lag + 1;
    CountAppend([0, 0] + [WINDOW], WINDOW - lag, 0, width);
    CountAppend([0, 0], WINDOW, 0, width);
    CountAppend([0], 0, 0, width);
    assert [0] + [0] == [0, 0] && [] + [0] == [0];
    CountAppend([], 0, 0, width);
    assert CountFrom(log, 0, width) > 2;
  }

  /** The state in which only `key` has been used, and only at instant 0. */
  function AtZero(key: string, held: seq<int>): State {
    if held == [] then Init(0) else State(0, map[], map[key := Entry(held, 0)], 0, 0, map[key := held])
  }

  lemma TightPrefix(key: string, lag: int)
    requires 0 <= lag <= WINDOW
    ensures Legal(0, Turn(0, key) + Turn(1, key), lag, GRACE)
    ensures Exec(0, Turn(0, key) + Turn(1, key)) == AtZero(key, [0, 0])
  {
    ExtendTurn([], 0, key, [], lag);
    assert [] + [0] == [0] && [0] + [0] == [0, 0] && [] + Turn(0, key) == Turn(0, key);
    ExtendTurn(Turn(0, key), 1, key, [0], lag);
  }

  lemma ExtendTurn(run: seq<Event>, pid: nat, key: string, held: seq<int>, lag: int)
    requires 0 <= lag && Legal(0, run, lag, GRACE)
    requires Exec(0, run) == AtZero(key, held) && (held == [] || held == [0])
    ensures Legal(0, run + Turn(pid, key), lag, GRACE)
    ensures Exec(0, run + Turn(pid, key)) == AtZero(key, held + [0])
  {
    var s := AtZero(key, held);
    Extend(0, run, Read(pid, key, 2), lag, GRACE);
    Extend(0, run + [Read(pid, key, 2)], Enter(pid), lag, GRACE);
    assert run + [Read(pid, key, 2)] + [Enter(pid)] == run + Turn(pid, key);
    TurnAdmits(pid, key, held);
  }

  lemma TurnAdmits(pid: nat, key: string, held: seq<int>)
    requires held == [] || held == [0]
    ensures Apply(Apply(AtZero(key, held), Read(pid, key, 2)), Enter(pid)) == AtZero(key, held + [0])
  {
    var s := AtZero(key, held);
    AfterAll(held, -WINDOW);
    var r := Apply(s, Read(pid, key, 2));
    assert r.pending - {pid} == map[];
    assert Stamps(s.table, key) == held == LogOf(s.log, key);
    assert Called(s.table, key, 2, 0) == map[key := Entry(held + [0], 0)];
    assert Logged(s.table, s.log, key, 2, 0) == map[key := held + [0]];
  }

  /** Call 3 evicts both stamps of instant 0 and is admitted; call 2 is still under way. */
  function AfterThree(key: string, lag: int): State {
    State(WINDOW, map[2 := Pending(key, 2, WINDOW - lag)], map[key := Entry([WINDOW], WINDOW)], WINDOW, 0,
          map[key := [0, 0] + [WINDOW]])
  }

  lemma EnterThree(key: string, lag: int, s: State)
    requires 0 <= lag <= WINDOW
    requires s == State(WINDOW, map[2 := Pending(key, 2, WINDOW - lag), 3 := Pending(key, 2, WINDOW)],
                        map[key := Entry([0, 0], 0)], 0, 0, map[key := [0, 0]])
    ensures Enabled(s, Enter(3), lag, GRACE) && Apply(s, Enter(3)) == AfterThree(key, lag)
  {
    AfterNone([0, 0], 0);
    assert s.pending - {3} == map[2 := Pending(key, 2, WINDOW - lag)];
    assert [] + [WINDOW] == [WINDOW];
    assert Called(s.table, key, 2, WINDOW) == map[key := Entry([WINDOW], WINDOW)];
    assert Logged(s.table, s.log, key, 2, WINDOW) == map[key := [0, 0] + [WINDOW]];
  }

  lemma EnterTwo(key: string, lag: int)
    requires 0 <= lag <= WINDOW
    ensures Enabled(AfterThree(key, lag), Enter(2), lag, GRACE)
    ensures LogOf(Apply(AfterThree(key, lag), Enter(2)).log, key) == [0, 0] + [WINDOW] + [WINDOW - lag]
  {
    AfterAll([WINDOW], -lag);
    assert Stamps(AfterThree(key, lag).table, key) == [WINDOW];
  }

  lemma TightEnd(key: string, lag: int, s: State)
    requires 0 <= lag <= WINDOW
    requires s == State(WINDOW, map[2 := Pending(key, 2, WINDOW - lag), 3 := Pending(key, 2, WINDOW)],
                        map[key := Entry([0, 0], 0)], 0, 0, map[key := [0, 0]])
    ensures Enabled(s, Enter(3), lag, GRACE) && Enabled(Apply(s, Enter(3)), Enter(2), lag, GRACE)
    ensures LogOf(Apply(Apply(s, Enter(3)), Enter(2)).log, key) == [0, 0] + [WINDOW] + [WINDOW - lag]
  {
    EnterThree(key, lag, s);
    EnterTwo(key, lag);
  }

  // ---- the grace is exact

  /**
   A call is admitted at instant `lag`, a late one of instant 0 is denied and leaves that as the
   time the entry was last seen; then a call waits for the lock while a cleanup deletes the entry.
   */
  function WaitingRun(key: string, lag: int): seq<Event> {
    [] + [Read(2, key, 1)] + [Tick(lag)] + [Read(0, key, 1)] + [Enter(0)] + [Enter(2)]
    + [Tick(WINDOW - 1)] + [Read(3, key, 1)] + [Tick(ENTRY_TTL + 1)] + [Clean] + [Enter(3)]
  }

  /** The key was used at instant `lag` and last seen at 0. */
  function UsedOnce(key: string, lag: int, clock: int, pending: map<nat, Pending>): State {
    State(clock, pending, map[key := Entry([lag], 0)], lag, 0, map[key := [lag]])
  }

  lemma UseOnce(key: string, lag: int)
    requires 0 <= lag < WINDOW
    ensures var r := [] + [Read(2, key, 1)] + [Tick(lag)] + [Read(0, key, 1)] + [Enter(0)];
            && Legal(0, r, lag, GRACE + 1)
            && Exec(0, r) == UsedOnce(key, lag, lag, map[2 := Pending(key, 1, 0)]).(table := map[key := Entry([lag], lag)])
  {
    var r, late := [], map[2 := Pending(key, 1, 0)];
    Extend(0, r, Read(2, key, 1), lag, GRACE + 1);
    r := r + [Read(2, key, 1)];
    Extend(0, r, Tick(lag), lag, GRACE + 1);
    r := r + [Tick(lag)];
    Extend(0, r, Read(0, key, 1), lag, GRACE + 1);
    r := r + [Read(0, key, 1)];
    var s := Exec(0, r);
    assert s.pending == map[2 := Pending(key, 1, 0), 0 := Pending(key, 1, lag)] && s.pending - {0} == late;
    Extend(0, r, Enter(0), lag, GRACE + 1);
    assert [] + [lag] == [lag];
    assert Called(map[], key, 1, lag) == map[key := Entry([lag], lag)];
    assert Logged(map[], map[], key, 1, lag) == map[key := [lag]];
  }

  lemma DenyLate(key: string, lag: int)
    requires 0 <= lag < WINDOW
    ensures var s := UsedOnce(key, lag, lag, map[2 := Pending(key, 1, 0)]).(table := map[key := Entry([lag], lag)]);
            Enabled(s, Enter(2), lag, GRACE + 1) && Apply(s, Enter(2)) == UsedOnce(key, lag, lag, map[])
  {
    var s := UsedOnce(key, lag, lag, map[2 := Pending(key, 1, 0)]).(table := map[key := Entry([lag], lag)]);
    AfterAll([lag], -WINDOW);
    assert s.pending - {2} == map[];
    assert Stamps(s.table, key) == [lag];
    assert Called(s.table, key, 1, 0) == map[key := Entry([lag], 0)];
  }

  lemma WaitTillCleaned(key: string, lag: int, r: seq<Event>)
    requires 0 <= lag < WINDOW && Legal(0, r, lag, GRACE + 1) && Exec(0, r) == UsedOnce(key, lag, lag, map[])
    ensures var r' := r + [Tick(WINDOW - 1)] + [Read(3, key, 1)] + [Tick(ENTRY_TTL + 1)] + [Clean];
            && Legal(0, r', lag, GRACE + 1)
            && Exec(0, r') == State(ENTRY_TTL + 1, map[3 := Pending(key, 1, WINDOW - 1)], map[], lag, ENTRY_TTL + 1,
                                    map[key := [lag]])
  {
    var r1 := r + [Tick(WINDOW - 1)];
    Extend(0, r, Tick(WINDOW - 1), lag, GRACE + 1);
    var r2 := r1 + [Read(3, key, 1)];
    Extend(0, r1, Read(3, key, 1), lag, GRACE + 1);
    var waiting := map[3 := Pending(key, 1, WINDOW - 1)];
    assert Exec(0, r2) == UsedOnce(key, lag, WINDOW - 1, waiting);
    Extend(0, r2, Tick(ENTRY_TTL + 1), lag, GRACE + 1);
    Extend(0, r2 + [Tick(ENTRY_TTL + 1)], Clean, lag, GRACE + 1);
    assert Cleaned(map[key := Entry([lag], 0)], ENTRY_TTL + 1) == map[];
  }

  lemma AdmitAgain(key: string, lag: int, s: State)
    requires 0 <= lag < WINDOW
    requires s == State(ENTRY_TTL + 1, map[3 := Pending(key, 1, WINDOW - 1)], map[], lag, ENTRY_TTL + 1, map[key := [lag]])
    ensures Enabled(s, Enter(3), lag, GRACE + 1) && !Enabled(s, Enter(3), lag, GRACE)
    ensures LogOf(Apply(s, Enter(3)).log, key) == [lag] + [WINDOW - 1]
  {
    assert Stamps(s.table, key) == [];
  }

  lemma TwoInWindow(log: seq<int>, lag: int)
    requires log == [lag] + [WINDOW - 1] && 0 <= lag < WINDOW
    ensures !Bounded(log, 1, WINDOW - lag)
  {
    CountAppend([lag], WINDOW - 1, lag, WINDOW);
    CountAppend([], lag, lag, WINDOW);
    assert [] + [lag] == [lag];
    assert CountFrom(log, lag, WINDOW - lag) > 1;
  }

  /**
   One nanosecond more of grace is too much: for every lag there is a run with limit 1, legal but
   for a cleanup that overtakes one call GRACE + 1 after its reading, that breaks the bound.
   */
  lemma GraceIsExact(key: string, lag: int)
    requires 0 <= lag < WINDOW
    ensures Legal(0, WaitingRun(key, lag), lag, GRACE + 1) && Limited(WaitingRun(key, lag), key, 1)
    ensures !Bounded(LogOf(Exec(0, WaitingRun(key, lag)).log, key), 1, WINDOW - lag)
  {
    var r := [] + [Read(2, key, 1)] + [Tick(lag)] + [Read(0, key, 1)] + [Enter(0)];
    UseOnce(key, lag);
    DenyLate(key, lag);
    Extend(0, r, Enter(2), lag, GRACE + 1);
    r := r + [Enter(2)];
    WaitTillCleaned(key, lag, r);
    r := r + [Tick(WINDOW - 1)] + [Read(3, key, 1)] + [Tick(ENTRY_TTL + 1)] + [Clean];
    AdmitAgain(key, lag, Exec(0, r));
    Extend(0, r, Enter(3), lag, GRACE + 1);
    TwoInWindow(LogOf(Exec(0, r + [Enter(3)]).log, key), lag);
    WaitingLimited(key, lag);
    assert r + [Enter(3)] == WaitingRun(key, lag);
  }

  lemma WaitingLimited(key: string, lag: int)
    ensures Limited(WaitingRun(key, lag), key, 1)
  {
  }
}
