/**
 The guarantees of the backup scripts over every sequence of runs: crash safety, deletion
 safety, the service that was stopped, and the number of archives each tier retains.
 */
module BackupGuarantees {
  import opened Collections
  import opened Calendar
  import opened BackupJob
  import opened BackupRetention

  /** Whatever failed or died, every finished daily archive is a complete dump that gzip accepts. */
  lemma FinishedArchivesAreWhole(job: Job, run: seq<Event>, k: Key)
    requires Legal(job, run) && k in Exec(job, run).disk.daily
    ensures Exec(job, run).disk.daily[k].whole && Exec(job, run).disk.daily[k].valid
  {
    ReachableInv(job, run);
  }

  // ---- promoted copies: cp writes in place

  ghost predicate Good(f: File) {
    f.whole && f.valid
  }

  /** This event interrupts a cp and leaves something else than a good archive. */
  ghost predicate Torn(s: State, e: Event) {
    && (s.phase.ToWeekly? || s.phase.ToMonthly?)
    && ((e.Die? && e.left.Some? && !Good(e.left.value)) || (e.Run? && !e.ok && e.left.Some? && !Good(e.left.value)))
  }

  ghost predicate CopiesWhole(d: Disk) {
    && (forall k :: k in d.weekly ==> Good(d.weekly[k]))
    && (forall k :: k in d.monthly ==> Good(d.monthly[k]))
  }

  lemma StepKeepsCopies(job: Job, s: State, e: Event)
    requires DailyWhole(s.disk) && CopiesWhole(s.disk) && PhaseOk(job, s) && !Torn(s, e)
    ensures CopiesWhole(Apply(job, s, e).disk)
  {
    match e
    case Run(ok, left, gone) =>
      if ok { SucceedKeepsCopies(job, s, left, gone); }
      else if s.phase.StartService? || s.phase == TrapStart { SucceedKeepsCopies(job, s, left, gone); }
      else { PartialKeepsCopies(job, s, left, gone); }
    case Die(left, gone) => PartialKeepsCopies(job, s, left, gone);
    case _ =>
  }

  lemma PartialKeepsCopies(job: Job, s: State, left: Option<File>, gone: set<Key>)
    requires CopiesWhole(s.disk) && ((s.phase.ToWeekly? || s.phase.ToMonthly?) && left.Some? ==> Good(left.value))
    ensures CopiesWhole(Partial(job, s, left, gone))
  {
  }

  lemma SucceedKeepsCopies(job: Job, s: State, left: Option<File>, gone: set<Key>)
    requires DailyWhole(s.disk) && CopiesWhole(s.disk)
    ensures CopiesWhole(Succeed(job, s, left, gone).disk)
  {
    if s.phase.ToWeekly? || s.phase.ToMonthly? { CopyKeepsCopies(job, s, left, gone); }
    else { PartialKeepsCopies(job, s, None, gone); }
  }

  lemma CopyKeepsCopies(job: Job, s: State, left: Option<File>, gone: set<Key>)
    requires DailyWhole(s.disk) && CopiesWhole(s.disk) && (s.phase.ToWeekly? || s.phase.ToMonthly?)
    ensures CopiesWhole(Succeed(job, s, left, gone).disk)
  {
  }

  lemma TornIsSeen(job: Job, s: State, e: Event)
    requires PhaseOk(job, s) && Torn(s, e)
    ensures !CopiesWhole(Apply(job, s, e).disk)
  {
    var k, f := KeyAt(job, s, s.phase.i), Stamped(e.left.value, s.clock);
    assert !Good(f);
    var d := Partial(job, s, e.left, e.gone);
    assert Apply(job, s, e).disk == d;
    if s.phase.ToWeekly? { assert d.weekly[k] == f; } else { assert d.monthly[k] == f; }
  }

  lemma {:induction false} WholeUnlessTorn(job: Job, run: seq<Event>)
    requires Legal(job, run)
    requires forall i :: 0 <= i < |run| ==> !Torn(Exec(job, run[..i]), run[i])
    ensures CopiesWhole(Exec(job, run).disk)
  {
    if run != [] {
      var n := |run| - 1;
      forall i | 0 <= i < n ensures !Torn(Exec(job, run[..n][..i]), run[..n][i]) {
        assert run[..n][..i] == run[..i];
        assert !Torn(Exec(job, run[..i]), run[i]);
      }
      WholeUnlessTorn(job, run[..n]);
      ReachableInv(job, run[..n]);
      StepKeepsCopies(job, Exec(job, run[..n]), run[n]);
    }
  }

  lemma {:induction false} LegalPrefix(job: Job, run: seq<Event>, i: nat)
    requires Legal(job, run) && i <= |run|
    ensures Legal(job, run[..i])
  {
    if i == |run| {
      assert run[..i] == run;
    } else {
      LegalPrefix(job, run[..|run| - 1], i);
      assert run[..|run| - 1][..i] == run[..i];
    }
  }

  ghost predicate AlwaysWhole(job: Job, run: seq<Event>) {
    forall n :: 0 <= n <= |run| ==> CopiesWhole(Exec(job, run[..n]).disk)
  }

  ghost predicate NeverTorn(job: Job, run: seq<Event>) {
    forall i :: 0 <= i < |run| ==> !Torn(Exec(job, run[..i]), run[i])
  }

  /**
   The weekly and monthly archives are complete and accepted by gzip at every moment of a run
   exactly when no interrupted cp left a bad file.
   */
  lemma PromotedArchivesAreWholeIff(job: Job, run: seq<Event>)
    requires Legal(job, run)
    ensures AlwaysWhole(job, run) <==> NeverTorn(job, run)
  {
    if NeverTorn(job, run) {
      forall n | 0 <= n <= |run| ensures CopiesWhole(Exec(job, run[..n]).disk) {
        LegalPrefix(job, run, n);
        forall i | 0 <= i < n ensures !Torn(Exec(job, run[..n][..i]), run[..n][i]) {
          assert run[..n][..i] == run[..i];
        }
        WholeUnlessTorn(job, run[..n]);
      }
    }
    if AlwaysWhole(job, run) {
      forall i | 0 <= i < |run| ensures !Torn(Exec(job, run[..i]), run[i]) {
        LegalPrefix(job, run, i);
        ReachableInv(job, run[..i]);
        assert run[..i + 1][..i] == run[..i];
        if Torn(Exec(job, run[..i]), run[i]) { TornIsSeen(job, Exec(job, run[..i]), run[i]); }
      }
    }
  }

  /** Any run that gets to a copy, weekly or monthly, can die inside it and leave a truncated archive. */
  lemma CopyCanBeTorn(job: Job, run: seq<Event>) returns (e: Event)
    requires Legal(job, run) && (Exec(job, run).phase.ToWeekly? || Exec(job, run).phase.ToMonthly?)
    requires Exec(job, run).phase.i < |job.names|
    ensures Legal(job, run + [e])
    ensures var s, s' := Exec(job, run), Exec(job, run + [e]);
            var t := if s.phase.ToWeekly? then Weekly else Monthly;
            KeyAt(job, s, s.phase.i) in In(s'.disk, t) && !Good(In(s'.disk, t)[KeyAt(job, s, s.phase.i)])
  {
    e := Die(Some(File(false, false, 0)), {});
    Extend(job, run, e);
  }

  /**
   An archive is deleted only by a rotation, only when more than Keep whole days old, and only
   after every archive of the run has been put in place in every tier that calls for one. The
   second half of Kept matters to a run that lasts longer than a tier keeps anything.
   */
  lemma DeletesOnlyAfterAllArePlaced(job: Job, run: seq<Event>, e: Event, t: Tier, k: Key, i: nat)
    requires Legal(job, run) && Enabled(job, Exec(job, run), e)
    requires var s := Exec(job, run); k in In(s.disk, t) && k !in In(Apply(job, s, e).disk, t)
    ensures var s := Exec(job, run);
            && s.phase == Rotate(t)
            && (k.date + Keep(t) + 1) * DAY <= s.clock
            && Kept(job, s, i, s.date)
  {
    var s := Exec(job, run);
    ReachableInv(job, run);
    OnlyRotationDeletes(job, s, e, t, k);
    ExpiredIsOld(s, t, k);
  }

  /**
   However a run leaves its exit trap, every service it recorded as stopped has had a start
   attempt, in the same order, exactly unless the trap's rm failed while one was still recorded.
   */
  lemma StoppedServicesAreStarted(job: Job, run: seq<Event>, e: Event)
    requires Legal(job, run) && Enabled(job, Exec(job, run), e)
    requires e.Run? && Apply(job, Exec(job, run), e).phase == Idle
    ensures var s, s' := Exec(job, run), Apply(job, Exec(job, run), e);
            s'.starts == s'.stops <==> !(s.phase == TrapRemove && s.stopped.Some?)
  {
    var s := Exec(job, run);
    ReachableInv(job, run);
    ApplyKeepsMatched(job, s, e);
    IdleOnlyFromTrap(job, s, e);
  }

  lemma IdleOnlyFromTrap(job: Job, s: State, e: Event)
    requires e.Run? && s.phase != Idle && Apply(job, s, e).phase == Idle
    ensures (s.phase == TrapRemove && !e.ok) || s.phase == TrapStart
  {
  }

  /** What a copy puts in place: today's daily archive, dated now, with everything else as it was. */
  lemma CopyIsOfToday(job: Job, s: State, left: Option<File>, gone: set<Key>)
    requires PhaseOk(job, s) && (s.phase.ToWeekly? || s.phase.ToMonthly?)
    ensures var t, k, s' := if s.phase.ToWeekly? then Weekly else Monthly, KeyAt(job, s, s.phase.i),
                            Apply(job, s, Run(true, left, gone));
            && In(s'.disk, t) == In(s.disk, t)[k := File(s.disk.daily[k].whole, s.disk.daily[k].valid, s.clock)]
            && forall u :: u != t ==> In(s'.disk, u) == In(s.disk, u)
  {
  }

  /** What a move puts in place: the temporary file itself, dated as it was when it was written. */
  lemma MoveIsOfTemp(job: Job, s: State, left: Option<File>, gone: set<Key>)
    requires PhaseOk(job, s) && s.phase.Move?
    ensures var k, s' := KeyAt(job, s, s.phase.i), Apply(job, s, Run(true, left, gone));
            && s'.disk == s.disk.(daily := s.disk.daily[k := s.disk.temp[k]], temp := s.disk.temp - {k})
            && s'.current == (if InTheMaking(s'.phase) then Some(KeyAt(job, s, s.phase.i + 1)) else None)
  {
  }

  // ---- temporary files

  /** The command is about an archive that is still in the making. */
  predicate InTheMaking(p: Phase) {
    p.StopService? || p.Write? || p.StartService? || p.Test? || p.Move?
  }

  /** Of the temporary files of this run only the current one is left, and after the trap's rm none. */
  ghost predicate OwnTemp(job: Job, s: State) {
    && (InTheMaking(s.phase) && Index(s.phase).value < |job.names| ==> s.current == Some(KeyAt(job, s, Index(s.phase).value)))
    && (s.phase != Idle ==>
          forall k :: k in s.written && k in s.disk.temp ==> s.phase != TrapStart && s.current == Some(k))
  }

  lemma EnterOwnTemp(job: Job, s: State, i: nat)
    requires forall k :: k in s.written ==> k !in s.disk.temp
    ensures OwnTemp(job, Enter(job, s, i))
  {
  }

  lemma MoveOwnTemp(job: Job, s: State, left: Option<File>, gone: set<Key>)
    requires OwnTemp(job, s) && PhaseOk(job, s) && s.phase.Move?
    ensures OwnTemp(job, Succeed(job, s, left, gone))
  {
    var i, k := s.phase.i, KeyAt(job, s, s.phase.i);
    var d := s.disk.(daily := s.disk.daily[k := s.disk.temp[k]], temp := s.disk.temp - {k});
    var moved := s.(disk := d, current := None);
    assert forall x :: x in s.written ==> x !in moved.disk.temp;
    if !IsSunday(s.date) { EnterOwnTemp(job, moved, i + 1); }
  }

  lemma CopyOwnTemp(job: Job, s: State, left: Option<File>, gone: set<Key>)
    requires OwnTemp(job, s) && PhaseOk(job, s) && (s.phase.ToWeekly? || s.phase.ToMonthly?) && s.current == None
    ensures OwnTemp(job, Succeed(job, s, left, gone))
  {
    var i, k := s.phase.i, KeyAt(job, s, s.phase.i);
    var f := Stamped(s.disk.daily[k], s.clock);
    if s.phase.ToWeekly? { EnterOwnTemp(job, s.(disk := s.disk.(weekly := s.disk.weekly[k := f])), i + 1); }
    else { EnterOwnTemp(job, s.(disk := s.disk.(monthly := s.disk.monthly[k := f])), i + 1); }
  }

  /** While a copy is made, the temporary file is gone and forgotten. */
  ghost predicate NoneCurrent(s: State) {
    s.phase.ToWeekly? || s.phase.ToMonthly? ==> s.current == None
  }

  lemma SucceedOwnTemp(job: Job, s: State, left: Option<File>, gone: set<Key>)
    requires OwnTemp(job, s) && NoneCurrent(s) && PhaseOk(job, s) && s.phase != Idle
    ensures OwnTemp(job, Succeed(job, s, left, gone)) && NoneCurrent(Succeed(job, s, left, gone))
  {
    if s.phase.Move? { MoveOwnTemp(job, s, left, gone); }
    else if s.phase.ToWeekly? || s.phase.ToMonthly? { CopyOwnTemp(job, s, left, gone); }
  }

  lemma FailOwnTemp(job: Job, s: State, left: Option<File>, gone: set<Key>)
    requires OwnTemp(job, s) && NoneCurrent(s) && PhaseOk(job, s) && s.phase != Idle
    ensures OwnTemp(job, Fail(job, s, left, gone)) && NoneCurrent(Fail(job, s, left, gone))
  {
    if s.phase.StartService? || s.phase == TrapStart { SucceedOwnTemp(job, s, left, gone); }
  }

  lemma ApplyOwnTemp(job: Job, s: State, e: Event)
    requires OwnTemp(job, s) && NoneCurrent(s) && PhaseOk(job, s) && Enabled(job, s, e)
    ensures OwnTemp(job, Apply(job, s, e)) && NoneCurrent(Apply(job, s, e))
  {
    match e
    case Run(ok, left, gone) =>
      if ok { SucceedOwnTemp(job, s, left, gone); } else { FailOwnTemp(job, s, left, gone); }
    case Begin =>
    case _ =>
  }

  lemma {:induction false} ReachableOwnTemp(job: Job, run: seq<Event>)
    requires Legal(job, run)
    ensures OwnTemp(job, Exec(job, run)) && NoneCurrent(Exec(job, run))
  {
    if run != [] {
      var n := |run| - 1;
      ReachableOwnTemp(job, run[..n]);
      ReachableInv(job, run[..n]);
      ApplyOwnTemp(job, Exec(job, run[..n]), run[n]);
    }
  }

  /** A run that ends by itself, past the trap's rm, leaves none of the temporary files it has written. */
  lemma NoTempLeft(job: Job, run: seq<Event>, e: Event, k: Key)
    requires Legal(job, run) && Enabled(job, Exec(job, run), e) && e.Run?
    requires Apply(job, Exec(job, run), e).phase == Idle && !Apply(job, Exec(job, run), e).trapBroken
    requires k in Apply(job, Exec(job, run), e).written
    ensures k !in Apply(job, Exec(job, run), e).disk.temp
  {
    ReachableOwnTemp(job, run);
    IdleOnlyFromTrap(job, Exec(job, run), e);
  }

  /** The sweep of a completed run leaves no temporary file two days old, whoever wrote it. */
  lemma SweptTemps(job: Job, s: State, left: Option<File>, gone: set<Key>, k: Key)
    requires s.phase == Sweep && Enabled(job, s, Run(true, left, gone))
    ensures var s' := Apply(job, s, Run(true, left, gone));
            k in s'.disk.temp <==> k in s.disk.temp && s.clock - s.disk.temp[k].mtime < 2 * 86_400
  {
  }

  // ---- retention

  /** A rotation that succeeds leaves exactly the archives of at most 7, 28 or 180 whole days. */
  lemma RotationInDays(job: Job, s: State, left: Option<File>, gone: set<Key>, k: Key)
    requires s.phase.Rotate? && Enabled(job, s, Run(true, left, gone))
    ensures var t, s' := s.phase.tier, Apply(job, s, Run(true, left, gone));
            var days := match t case Daily => 7 case Weekly => 28 case Monthly => 180;
            k in In(s'.disk, t) <==> k in In(s.disk, t) && s.clock - In(s.disk, t)[k].mtime < (days + 1) * 86_400
  {
  }

  /** The dates of one archive name in one directory. */
  function Dates(dir: Dir, name: string): set<nat> {
    set k | k in dir && k.name == name :: k.date
  }

  /** The days from `lo` to `hi` that a tier keeps. */
  function PromotedDays(t: Tier, lo: nat, hi: nat): set<nat> {
    set x: nat | lo <= x <= hi && Promoted(t, x)
  }

  /**
   The run in state `s` is at its last command, every day of the tier's span had a completed run,
   and no run of that span, this one included, has gone past midnight.
   */
  ghost predicate AtEndOfCoveredRun(job: Job, s: State, t: Tier) {
    && s.phase == Sweep
    && s.late + (Keep(t) + 1) * DAY <= s.date * DAY
    && forall x: nat :: s.date - Keep(t) <= x < s.date ==> x in s.completed
  }

  /**
   What a completed run leaves in a tier: every promoted day from Keep days ago until today,
   and besides those at most the one day before, which `-mtime +Keep` may not count as expired.
   */
  lemma TierAfterRun(job: Job, run: seq<Event>, s: State, t: Tier, i: nat)
    requires Legal(job, run) && s == Exec(job, run) && i < |job.names| && AtEndOfCoveredRun(job, s, t)
    ensures PromotedDays(t, s.date - Keep(t), s.date) <= Dates(In(s.disk, t), job.names[i])
              <= PromotedDays(t, s.date - Keep(t) - 1, s.date)
  {
    ReachableInv(job, run);
    TierIs(job, s, t, i);
  }

  /**
   In days: after a completed run the daily directory holds the last 7 days, the weekly one the
   Sundays of the last 28, the monthly one the first Sundays of the last 180, and nothing that is
   more than one day older.
   */
  lemma RetentionInDays(job: Job, run: seq<Event>, s: State, t: Tier, i: nat, x: nat)
    requires Legal(job, run) && s == Exec(job, run) && i < |job.names| && AtEndOfCoveredRun(job, s, t)
    ensures var days := match t case Daily => 7 case Weekly => 28 case Monthly => 180;
            var wanted := match t case Daily => true case Weekly => IsSunday(x) case Monthly => IsFirstSunday(x);
            && (wanted && s.date - days <= x <= s.date ==> Key(job.names[i], x) in In(s.disk, t))
            && (Key(job.names[i], x) in In(s.disk, t) ==> wanted && s.date - days - 1 <= x <= s.date)
  {
    TierAfterRun(job, run, s, t, i);
    DateOf(In(s.disk, t), job.names[i], x);
    assert x in PromotedDays(t, s.date - Keep(t), s.date) <==> Promoted(t, x) && s.date - Keep(t) <= x <= s.date;
  }

  lemma DateOf(dir: Dir, name: string, x: nat)
    ensures x in Dates(dir, name) <==> Key(name, x) in dir
  {
    if Key(name, x) in dir { assert Key(name, x).date == x; }
  }

  lemma TierIs(job: Job, s: State, t: Tier, i: nat)
    requires Inv(job, s) && i < |job.names| && AtEndOfCoveredRun(job, s, t)
    ensures PromotedDays(t, s.date - Keep(t), s.date) <= Dates(In(s.disk, t), job.names[i])
              <= PromotedDays(t, s.date - Keep(t) - 1, s.date)
  {
    TierHolds(job, s, t, i);
    TierHoldsOnly(job, s, t, job.names[i]);
  }

  lemma TierHolds(job: Job, s: State, t: Tier, i: nat)
    requires Inv(job, s) && i < |job.names| && AtEndOfCoveredRun(job, s, t)
    ensures PromotedDays(t, s.date - Keep(t), s.date) <= Dates(In(s.disk, t), job.names[i])
  {
    forall x | x in PromotedDays(t, s.date - Keep(t), s.date) ensures x in Dates(In(s.disk, t), job.names[i]) {
      StillThere(job, s, t, x, i);
      assert Key(job.names[i], x).date == x;
    }
  }

  lemma TierHoldsOnly(job: Job, s: State, t: Tier, name: string)
    requires Inv(job, s) && AtEndOfCoveredRun(job, s, t)
    ensures Dates(In(s.disk, t), name) <= PromotedDays(t, s.date - Keep(t) - 1, s.date)
  {
    forall x | x in Dates(In(s.disk, t), name) ensures x in PromotedDays(t, s.date - Keep(t) - 1, s.date) {
      var k :| k in In(s.disk, t) && k.name == name && k.date == x;
      NotOlder(s, t, k);
    }
  }

  lemma StillThere(job: Job, s: State, t: Tier, x: nat, i: nat)
    requires Inv(job, s) && AtEndOfCoveredRun(job, s, t)
    requires i < |job.names| && Promoted(t, x) && s.date - Keep(t) <= x <= s.date
    ensures Key(job.names[i], x) in In(s.disk, t)
  {
    DayBounds(s.clock);
    if x == s.date {
      assert Kept(job, s, i, s.date);
    } else {
      assert x in s.completed && Kept(job, s, i, x);
      assert s.clock < (x + Keep(t) + 1) * DAY;
    }
  }

  lemma NotOlder(s: State, t: Tier, k: Key)
    requires Dated(s) && RotatedSoFar(s) && InDay(s) && s.phase == Sweep && k in In(s.disk, t)
    requires s.late + (Keep(t) + 1) * DAY <= s.date * DAY
    ensures Promoted(t, k.date) && s.date - Keep(t) - 1 <= k.date <= s.date
  {
    DayBounds(s.clock);
    assert Promoted(t, k.date) && StampedSince(In(s.disk, t)[k], k.date, s.clock);
    assert Recent(s, t);
    assert k.date * DAY < (s.date + 1) * DAY;
  }

  // ---- counting days

  /** Days at least `gap` apart: at most one for every `gap` days. */
  lemma {:induction false} SpacedAtMost(s: set<nat>, lo: nat, hi: int, gap: nat)
    requires 0 < gap && (forall x :: x in s ==> lo <= x <= hi)
    requires forall x, y :: x in s && y in s && x < y ==> x + gap <= y
    ensures |s| * gap <= if lo <= hi then hi - lo + gap else 0
    decreases hi
  {
    if hi < lo {
      assert s == {};
    } else if hi in s {
      SpacedAtMost(s - {hi}, lo, hi - gap, gap);
      assert |s - {hi}| == |s| - 1;
    } else {
      SpacedAtMost(s, lo, hi - 1, gap);
    }
  }

  ghost predicate HasDay(s: set<nat>, lo: nat, gap: nat) {
    exists x :: x in s && lo <= x < lo + gap
  }

  /** Days of which every stretch of `gap` has one: at least one for every full stretch. */
  lemma {:induction false} DenseAtLeast(s: set<nat>, lo: nat, hi: nat, gap: nat)
    requires 0 < gap && forall a: nat :: lo <= a && a + gap <= hi + 1 ==> HasDay(s, a, gap)
    ensures hi + 1 - lo < (|s| + 1) * gap
    decreases hi + 1 - lo
  {
    if lo + gap <= hi + 1 {
      assert HasDay(s, lo, gap);
      var x :| x in s && lo <= x < lo + gap;
      var later := set y | y in s && lo + gap <= y;
      forall a: nat | lo + gap <= a && a + gap <= hi + 1 ensures HasDay(later, a, gap) {
        assert HasDay(s, a, gap);
        var y :| y in s && a <= y < a + gap;
        assert y in later;
      }
      DenseAtLeast(later, lo + gap, hi, gap);
      SubsetSize(later, s - {x});
      assert |s - {x}| == |s| - 1;
      assert (|later| + 1) * gap + gap <= (|s| + 1) * gap by { MulMonotone(|later| + 2, |s| + 1, gap); }
    } else {
      MulMonotone(1, |s| + 1, gap);
    }
  }

  lemma MulMonotone(a: nat, b: nat, k: nat)
    requires a <= b
    ensures a * k <= b * k
  {
  }

  lemma SundayEveryWeek(a: nat)
    ensures IsSunday(a + 6 - (a + 3) % 7) && a <= a + 6 - (a + 3) % 7 < a + 7
  {
  }

  lemma FirstSundayEveryFiveWeeks(a: nat) returns (x: nat)
    ensures IsFirstSunday(x) && a <= x < a + 35
  {
    var m := MonthOf(a);
    x := FirstSundayOf(m);
    OneFirstSundayPerMonth(m, x);
    if x < a {
      x := FirstSundayOf(m + 1);
      OneFirstSundayPerMonth(m + 1, x);
      FirstSundaySpacing(m);
    }
  }

  lemma FirstSundaysApart(x: nat, y: nat)
    requires IsFirstSunday(x) && IsFirstSunday(y) && x < y
    ensures x + 28 <= y
  {
    var i, j := MonthOf(x), MonthOf(y);
    OneFirstSundayPerMonth(i, x);
    OneFirstSundayPerMonth(j, y);
    if i < j { FirstSundaysIncrease(i, j); }
    if j < i { FirstSundaysIncrease(j, i); }
  }

  lemma DailyCounts(today: nat)
    requires 8 <= today
    ensures 8 <= |PromotedDays(Daily, today - 7, today)| && |PromotedDays(Daily, today - 8, today)| <= 9
  {
    var inner, outer := PromotedDays(Daily, today - 7, today), PromotedDays(Daily, today - 8, today);
    SpacedAtMost(outer, today - 8, today, 1);
    forall a: nat | today - 7 <= a && a + 1 <= today + 1 ensures HasDay(inner, a, 1) { assert a in inner; }
    DenseAtLeast(inner, today - 7, today, 1);
  }

  lemma WeeklyCounts(today: nat)
    requires 29 <= today
    ensures 4 <= |PromotedDays(Weekly, today - 28, today)| && |PromotedDays(Weekly, today - 29, today)| <= 5
  {
    var inner, outer := PromotedDays(Weekly, today - 28, today), PromotedDays(Weekly, today - 29, today);
    SpacedAtMost(outer, today - 29, today, 7);
    forall a: nat | today - 28 <= a && a + 7 <= today + 1 ensures HasDay(inner, a, 7) {
      SundayEveryWeek(a);
      assert a + 6 - (a + 3) % 7 in inner;
    }
    DenseAtLeast(inner, today - 28, today, 7);
  }

  lemma MonthlyCounts(today: nat)
    requires 181 <= today
    ensures 5 <= |PromotedDays(Monthly, today - 180, today)| && |PromotedDays(Monthly, today - 181, today)| <= 7
  {
    var inner, outer := PromotedDays(Monthly, today - 180, today), PromotedDays(Monthly, today - 181, today);
    forall x, y | x in outer && y in outer && x < y ensures x + 28 <= y { FirstSundaysApart(x, y); }
    SpacedAtMost(outer, today - 181, today, 28);
    forall a: nat | today - 180 <= a && a + 35 <= today + 1 ensures HasDay(inner, a, 35) {
      var x := FirstSundayEveryFiveWeeks(a);
      assert x in inner;
    }
    DenseAtLeast(inner, today - 180, today, 35);
  }

  /** The fewest and the most archives of one name that a tier holds after a run. */
  function Fewest(t: Tier): nat {
    match t case Daily => 8 case Weekly => 4 case Monthly => 5
  }

  function Most(t: Tier): nat {
    match t case Daily => 9 case Weekly => 5 case Monthly => 7
  }

  /**
   Retention: with a completed run on every day of a tier's span, each completed run ends with
   8 or 9 daily, 4 or 5 weekly and 5 to 7 monthly archives of every name.
   */
  lemma RetentionBounds(job: Job, run: seq<Event>, s: State, t: Tier, i: nat)
    requires Legal(job, run) && s == Exec(job, run) && i < |job.names| && AtEndOfCoveredRun(job, s, t)
    ensures Fewest(t) <= |Dates(In(s.disk, t), job.names[i])| <= Most(t)
  {
    TierAfterRun(job, run, s, t, i);
    CountBetween(t, s.date, Dates(In(s.disk, t), job.names[i]));
  }

  lemma CountBetween(t: Tier, today: nat, dates: set<nat>)
    requires Keep(t) + 1 <= today
    requires PromotedDays(t, today - Keep(t), today) <= dates <= PromotedDays(t, today - Keep(t) - 1, today)
    ensures Fewest(t) <= |dates| <= Most(t)
  {
    SubsetSize(PromotedDays(t, today - Keep(t), today), dates);
    SubsetSize(dates, PromotedDays(t, today - Keep(t) - 1, today));
    match t
    case Daily => DailyCounts(today);
    case Weekly => WeeklyCounts(today);
    case Monthly => MonthlyCounts(today);
  }

  /**
   Exactly one monthly archive per calendar month: once the first Sunday's run has completed, and
   until that archive expires, it is the only one of the month, whatever runs failed or died.
   */
  lemma OneMonthlyPerMonth(job: Job, run: seq<Event>, m: nat, i: nat, x: nat)
    requires Legal(job, run) && i < |job.names|
    requires FirstSundayOf(m) in Exec(job, run).completed
    requires Exec(job, run).clock < (FirstSundayOf(m) + Keep(Monthly) + 1) * DAY
    ensures Key(job.names[i], x) in Exec(job, run).disk.monthly && MonthOf(x) == m <==> x == FirstSundayOf(m)
  {
    var s := Exec(job, run);
    ReachableInv(job, run);
    var k := Key(job.names[i], x);
    OneFirstSundayPerMonth(m, x);
    assert k in In(s.disk, Monthly) <==> k in s.disk.monthly;
    if k in s.disk.monthly { assert Promoted(Monthly, k.date); }
    if x == FirstSundayOf(m) { assert x in s.completed && Kept(job, s, i, x) && Promoted(Monthly, x); }
  }
}
