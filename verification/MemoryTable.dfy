/**
 The in-process limiter's state as a value, and what its two critical sections do to it:
 `Called` is the locked part of AllowN, `Cleaned` is one pass of the background cleanup.
 Instants are integers in nanoseconds.
 */
module MemoryTable {
  import opened SlidingWindow

  const WINDOW: int := 60_000_000_000
  const ENTRY_TTL: int := 600_000_000_000

  /** How old a reading may be when a cleanup overtakes its call, without the cleanup being noticed. */
  const GRACE: int := ENTRY_TTL - WINDOW + 1

  datatype Entry = Entry(stamps: seq<int>, lastSeen: int)

  type Table = map<string, Entry>

  function Stamps(t: Table, key: string): seq<int> {
    if key in t then t[key].stamps else []
  }

  function Called(t: Table, key: string, rpm: int, now: int): Table {
    if rpm <= 0 then t
    else t[key := Entry(Admit(After(Stamps(t, key), now - WINDOW), rpm, now), now)]
  }

  function Answered(t: Table, key: string, rpm: int, now: int): Answer {
    if rpm <= 0 then Answer(false, 0, now + WINDOW)
    else Decide(After(Stamps(t, key), now - WINDOW), rpm, now, WINDOW)
  }

  /** Creating an empty entry first changes nothing about a call. */
  lemma CalledOnCreated(t: Table, key: string, lastSeen: int, rpm: int, now: int)
    requires 0 < rpm
    ensures var created := t[key := Entry(Stamps(t, key), lastSeen)];
            && Called(created, key, rpm, now) == Called(t, key, rpm, now)
            && Answered(created, key, rpm, now) == Answered(t, key, rpm, now)
  {
  }

  lemma OneEntryChanged(before: Table, after: Table, key: string, e: Entry)
    requires after.Keys == before.Keys + {key} && after[key] == e
    requires forall k :: k in after && k != key ==> after[k] == before[k]
    ensures after == before[key := e]
  {
  }

  function Cleaned(t: Table, now: int): Table {
    map k | k in t && !(t[k].lastSeen < now - ENTRY_TTL) :: t[k]
  }

  lemma OnlyIdleDeleted(before: Table, after: Table, now: int)
    requires after.Keys <= before.Keys
    requires forall k :: k in before ==> (k in after <==> !(before[k].lastSeen < now - ENTRY_TTL))
    requires forall k :: k in after ==> after[k] == before[k]
    ensures after == Cleaned(before, now)
  {
  }

  // ---- history: every stamp ever admitted, per key and in the order of admission

  type Log = map<string, seq<int>>

  function LogOf(log: Log, key: string): seq<int> {
    if key in log then log[key] else []
  }

  function Logged(t: Table, log: Log, key: string, rpm: int, now: int): Log {
    if Answered(t, key, rpm, now).allowed then log[key := LogOf(log, key) + [now]] else log
  }

  function Max(a: int, b: int): int { if a < b then b else a }

  /** Log and held stamps agree later than `latest - WINDOW`, and neither goes past `latest`. */
  ghost predicate Agree(logged: seq<int>, held: seq<int>, latest: int) {
    && UpTo(logged, latest)
    && UpTo(held, latest)
    && After(logged, latest - WINDOW) == After(held, latest - WINDOW)
  }

  /**
   Table and full log agree on `key`. Here `latest` is the latest clock reading that any
   critical section has processed, and an entry holds no stamp more than `lag` later than
   its lastSeen.
   */
  ghost predicate TracksKey(t: Table, log: Log, latest: int, lag: int, key: string) {
    && Agree(LogOf(log, key), Stamps(t, key), latest)
    && (key in t ==> t[key].lastSeen <= latest && UpTo(t[key].stamps, t[key].lastSeen + lag))
  }

  ghost predicate Tracks(t: Table, log: Log, latest: int, lag: int) {
    forall key :: TracksKey(t, log, latest, lag, key)
  }

  /** A call whose reading is at most `lag` behind the latest one keeps table and log in step. */
  lemma CallTracks(t: Table, log: Log, latest: int, lag: int, key: string, rpm: int, now: int)
    requires Tracks(t, log, latest, lag)
    requires 0 <= lag && latest - lag <= now && 0 < rpm
    ensures Tracks(Called(t, key, rpm, now), Logged(t, log, key, rpm, now), Max(latest, now), lag)
  {
    var t', log', top := Called(t, key, rpm, now), Logged(t, log, key, rpm, now), Max(latest, now);
    forall k ensures TracksKey(t', log', top, lag, k) {
      assert TracksKey(t, log, latest, lag, k);
      AfterTwice(LogOf(log, k), latest - WINDOW, top - WINDOW);
      AfterTwice(Stamps(t, k), latest - WINDOW, top - WINDOW);
      if k == key { CalledKeyTracks(t, log, latest, lag, key, rpm, now); }
    }
  }

  lemma CalledKeyTracks(t: Table, log: Log, latest: int, lag: int, key: string, rpm: int, now: int)
    requires TracksKey(t, log, latest, lag, key)
    requires 0 <= lag && latest - lag <= now && 0 < rpm
    ensures TracksKey(Called(t, key, rpm, now), Logged(t, log, key, rpm, now), Max(latest, now), lag, key)
  {
    var held, logged := Stamps(t, key), LogOf(log, key);
    var kept := After(held, now - WINDOW);
    AfterUpTo(held, now - WINDOW, latest);
    AdmitUpTo(kept, rpm, latest, now, now + lag);
    AdmitUpTo(kept, rpm, latest, now, Max(latest, now));
    AdmitUpTo(logged, if |kept| < rpm then |logged| + 1 else 0, latest, now, Max(latest, now));
    AdmissionAgrees(logged, held, latest, now);
  }

  lemma AdmitUpTo(kept: seq<int>, rpm: int, latest: int, now: int, bound: int)
    requires UpTo(kept, latest) && latest <= bound && now <= bound
    ensures UpTo(Admit(kept, rpm, now), bound)
  {
  }

  /** Logging and admitting the same stamp leaves log and entry in agreement. */
  lemma AdmissionAgrees(logged: seq<int>, held: seq<int>, latest: int, now: int)
    requires After(logged, latest - WINDOW) == After(held, latest - WINDOW)
    ensures var h, kept := Max(latest, now) - WINDOW, After(held, now - WINDOW);
            After(logged, h) == After(kept, h) && After(logged + [now], h) == After(kept + [now], h)
  {
    var h := Max(latest, now) - WINDOW;
    AfterTwice(logged, latest - WINDOW, h);
    AfterTwice(held, latest - WINDOW, h);
    AfterTwice(held, now - WINDOW, h);
    AfterAppend(logged, now, h);
    AfterAppend(After(held, now - WINDOW), now, h);
  }

  /** Later instants see less of the window, so agreement carries over to them. */
  lemma TracksLater(t: Table, log: Log, latest: int, later: int, lag: int)
    requires Tracks(t, log, latest, lag) && latest <= later
    ensures Tracks(t, log, later, lag)
  {
    forall k ensures TracksKey(t, log, later, lag, k) {
      assert TracksKey(t, log, latest, lag, k);
      AfterTwice(LogOf(log, k), latest - WINDOW, later - WINDOW);
      AfterTwice(Stamps(t, k), latest - WINDOW, later - WINDOW);
    }
  }

  /**
   Deleting idle entries loses no stamp that a call can look at whose reading is at most GRACE
   older than the cleanup's.
   */
  lemma CleanTracks(t: Table, log: Log, latest: int, lag: int, now: int)
    requires Tracks(t, log, latest, lag)
    ensures Tracks(Cleaned(t, now), log, Max(latest, now - GRACE + lag), lag)
  {
    var t', later := Cleaned(t, now), Max(latest, now - GRACE + lag);
    TracksLater(t, log, latest, later, lag);
    forall k ensures TracksKey(t', log, later, lag, k) {
      assert TracksKey(t, log, later, lag, k);
      if k in t && k !in t' { AfterNone(t[k].stamps, later - WINDOW); }
    }
  }

  /** Admission respects the limit over every interval shortened by the lag. */
  lemma CallBounded(t: Table, log: Log, latest: int, lag: int, key: string, rpm: int, now: int, limit: int)
    requires TracksKey(t, log, latest, lag, key)
    requires 0 <= lag && latest - lag <= now && rpm <= limit
    requires Bounded(LogOf(log, key), limit, WINDOW - lag)
    ensures Bounded(LogOf(Logged(t, log, key, rpm, now), key), limit, WINDOW - lag)
  {
    var logged, held, width := LogOf(log, key), Stamps(t, key), WINDOW - lag;
    if Answered(t, key, rpm, now).allowed {
      forall lo | lo <= now < lo + width ensures CountFrom(logged, lo, width) < limit {
        CountedWhenHeld(logged, held, latest, now, lo, lo + width);
      }
      AppendBounded(logged, now, limit, width);
    }
  }

  /** What the log counts from `lo` on, eviction at `now` has kept. */
  lemma CountedWhenHeld(logged: seq<int>, held: seq<int>, latest: int, now: int, lo: int, hi: int)
    requires Agree(logged, held, latest) && latest - WINDOW < lo && now - WINDOW < lo
    ensures CountIn(logged, lo, hi) <= |After(held, now - WINDOW)|
  {
    CountAfter(logged, latest - WINDOW, lo, hi);
    CountAfter(held, latest - WINDOW, lo, hi);
    CountAfter(held, now - WINDOW, lo, hi);
    CountAtMostLength(After(held, now - WINDOW), lo, hi);
  }
}
