/**
 What is on disk after any sequence of backup runs, including runs that fail or die halfway:
 completeness of the daily archives, what may be deleted and when, and how many archives of
 each tier are left after a completed run.
 */
module BackupRetention {
  import opened Collections
  import opened Calendar
  import opened BackupJob

  /** Only promoted days are kept, and a file is stamped no earlier than the day it is named after. */
  ghost predicate DatedDir(dir: Dir, t: Tier, clock: nat) {
    forall k :: k in dir ==> Promoted(t, k.date) && StampedSince(dir[k], k.date, clock)
  }

  ghost predicate StampedSince(f: File, date: nat, clock: nat) {
    date * DAY <= f.mtime <= clock
  }

  ghost predicate DatedOn(d: Disk, clock: nat) {
    DatedDir(d.daily, Daily, clock) && DatedDir(d.weekly, Weekly, clock) && DatedDir(d.monthly, Monthly, clock)
    && DatedDir(d.temp, Daily, clock)
  }

  ghost predicate Dated(s: State) {
    DatedOn(s.disk, s.clock) && (s.phase != Idle ==> s.date * DAY <= s.clock)
  }

  /** The copies that a day calls for are there until they are Keep + 1 days old. */
  ghost predicate Kept(job: Job, s: State, i: nat, x: nat) {
    i < |job.names| ==>
      forall t :: Promoted(t, x) ==> Key(job.names[i], x) in In(s.disk, t) || (x + Keep(t) + 1) * DAY <= s.clock
  }

  /** How many archives the run has finished; all of them once the rotation has started. */
  function Finished(job: Job, p: Phase): nat {
    if Index(p).Some? then Index(p).value else if p.Rotate? || p == Sweep then |job.names| else 0
  }

  ghost predicate PlacedSoFar(job: Job, s: State) {
    forall j: nat :: j < Finished(job, s.phase) ==> Kept(job, s, j, s.date)
  }

  ghost predicate KeptLongEnough(job: Job, s: State) {
    forall x, i :: x in s.completed && 0 <= i < |job.names| ==> Kept(job, s, i, x)
  }

  // ---- up to the latest instant at which a run had outlasted its day

  ghost predicate SameDayDir(dir: Dir, late: nat) {
    forall k :: k in dir ==> StampedInDay(dir[k], k.date, late)
  }

  /** Stamped on the day it is named after, unless by a run that went past midnight. */
  ghost predicate StampedInDay(f: File, date: nat, late: nat) {
    f.mtime < (date + 1) * DAY || f.mtime <= late
  }

  ghost predicate SameDay(d: Disk, late: nat) {
    SameDayDir(d.daily, late) && SameDayDir(d.weekly, late) && SameDayDir(d.monthly, late) && SameDayDir(d.temp, late)
  }

  ghost predicate InDay(s: State) {
    s.phase != Idle ==> DayOf(s.clock) == s.date || s.clock <= s.late
  }

  /** Nothing named after a day more than Keep + 1 days before the run's is left, unless from before `late`. */
  ghost predicate Recent(s: State, t: Tier) {
    forall k :: k in In(s.disk, t) ==> NotTooOld(s.date, s.late, k.date, Keep(t))
  }

  predicate NotTooOld(today: nat, late: nat, date: nat, keep: nat) {
    today <= date + keep + 1 || today * DAY < late + (keep + 1) * DAY
  }

  ghost predicate RotatedSoFar(s: State) {
    && (s.phase == Rotate(Weekly) || s.phase == Rotate(Monthly) || s.phase == Sweep ==> Recent(s, Daily))
    && (s.phase == Rotate(Monthly) || s.phase == Sweep ==> Recent(s, Weekly))
    && (s.phase == Sweep ==> Recent(s, Monthly))
  }

  ghost predicate Timely(s: State) {
    SameDay(s.disk, s.late) && InDay(s) && RotatedSoFar(s) && s.late <= s.clock
  }

  ghost predicate Inv(job: Job, s: State) {
    && DailyWhole(s.disk) && PhaseOk(job, s) && Matched(s)
    && Dated(s) && PlacedSoFar(job, s) && KeptLongEnough(job, s)
    && Timely(s)
  }

  // ---- Dated

  lemma DayBounds(t: nat)
    ensures DayOf(t) * DAY <= t < (DayOf(t) + 1) * DAY
  {
  }

  lemma WithoutDated(dir: Dir, t: Tier, clock: nat, gone: set<Key>)
    requires DatedDir(dir, t, clock)
    ensures DatedDir(Without(dir, gone), t, clock)
  {
  }

  lemma StampedDated(dir: Dir, t: Tier, clock: nat, k: Key, f: File)
    requires DatedDir(dir, t, clock) && Promoted(t, k.date) && k.date * DAY <= clock
    ensures DatedDir(dir[k := Stamped(f, clock)], t, clock)
  {
  }

  lemma PartialDated(job: Job, s: State, left: Option<File>, gone: set<Key>)
    requires Dated(s) && PhaseOk(job, s)
    ensures DatedOn(Partial(job, s, left, gone), s.clock)
  {
    match s.phase
    case Rotate(tier) => WithoutDated(In(s.disk, tier), tier, s.clock, gone);
    case Sweep => WithoutDated(s.disk.temp, Daily, s.clock, gone);
    case Write(i) =>
      if left.Some? { StampedDated(s.disk.temp, Daily, s.clock, KeyAt(job, s, i), left.value); }
    case ToWeekly(i) =>
      if left.Some? { StampedDated(s.disk.weekly, Weekly, s.clock, KeyAt(job, s, i), left.value); }
    case ToMonthly(i) =>
      if left.Some? { StampedDated(s.disk.monthly, Monthly, s.clock, KeyAt(job, s, i), left.value); }
    case _ =>
  }

  lemma SucceedDated(job: Job, s: State, left: Option<File>, gone: set<Key>)
    requires Dated(s) && PhaseOk(job, s)
    ensures DatedOn(Succeed(job, s, left, gone).disk, s.clock)
  {
    if s.phase.ToWeekly? || s.phase.ToMonthly? { CopyDated(job, s, left, gone); }
    else if s.phase.Move? { MoveDated(job, s, left, gone); }
    else { PartialDated(job, s, left, gone); }
  }

  lemma CopyDated(job: Job, s: State, left: Option<File>, gone: set<Key>)
    requires Dated(s) && PhaseOk(job, s) && (s.phase.ToWeekly? || s.phase.ToMonthly?)
    ensures DatedOn(Succeed(job, s, left, gone).disk, s.clock)
  {
    var k := KeyAt(job, s, s.phase.i);
    if s.phase.ToWeekly? { StampedDated(s.disk.weekly, Weekly, s.clock, k, s.disk.daily[k]); }
    else { StampedDated(s.disk.monthly, Monthly, s.clock, k, s.disk.daily[k]); }
  }

  lemma MoveDated(job: Job, s: State, left: Option<File>, gone: set<Key>)
    requires Dated(s) && PhaseOk(job, s) && s.phase.Move?
    ensures DatedOn(Succeed(job, s, left, gone).disk, s.clock)
  {
  }

  lemma DatedLater(dir: Dir, t: Tier, clock: nat, later: nat)
    requires DatedDir(dir, t, clock) && clock <= later
    ensures DatedDir(dir, t, later)
  {
  }

  lemma DatedOnLater(d: Disk, clock: nat, later: nat)
    requires DatedOn(d, clock) && clock <= later
    ensures DatedOn(d, later)
  {
    DatedLater(d.daily, Daily, clock, later);
    DatedLater(d.weekly, Weekly, clock, later);
    DatedLater(d.monthly, Monthly, clock, later);
    DatedLater(d.temp, Daily, clock, later);
  }

  lemma ApplyDated(job: Job, s: State, e: Event)
    requires Dated(s) && PhaseOk(job, s) && Enabled(job, s, e)
    ensures Dated(Apply(job, s, e))
  {
    match e
    case Run(ok, left, gone) =>
      PartialDated(job, s, left, gone);
      SucceedDated(job, s, left, gone);
    case Die(left, gone) => PartialDated(job, s, left, gone);
    case Tick(to) => DatedOnLater(s.disk, s.clock, to);
    case Begin => DayBounds(s.clock);
  }

  lemma StampedSameDay(dir: Dir, late: nat, clock: nat, k: Key, f: File)
    requires SameDayDir(dir, late) && (DayOf(clock) == k.date || clock <= late)
    ensures SameDayDir(dir[k := Stamped(f, clock)], late)
  {
    DayBounds(clock);
  }

  lemma WithoutSameDay(dir: Dir, late: nat, gone: set<Key>)
    requires SameDayDir(dir, late)
    ensures SameDayDir(Without(dir, gone), late)
  {
  }

  lemma PartialSameDay(job: Job, s: State, left: Option<File>, gone: set<Key>)
    requires SameDay(s.disk, s.late) && InDay(s)
    ensures SameDay(Partial(job, s, left, gone), s.late)
  {
    match s.phase
    case Rotate(tier) => WithoutSameDay(In(s.disk, tier), s.late, gone);
    case Sweep => WithoutSameDay(s.disk.temp, s.late, gone);
    case Write(i) =>
      if i < |job.names| && left.Some? { StampedSameDay(s.disk.temp, s.late, s.clock, KeyAt(job, s, i), left.value); }
    case ToWeekly(i) =>
      if i < |job.names| && left.Some? { StampedSameDay(s.disk.weekly, s.late, s.clock, KeyAt(job, s, i), left.value); }
    case ToMonthly(i) =>
      if i < |job.names| && left.Some? { StampedSameDay(s.disk.monthly, s.late, s.clock, KeyAt(job, s, i), left.value); }
    case _ =>
  }

  lemma CopySameDay(job: Job, s: State, left: Option<File>, gone: set<Key>)
    requires SameDay(s.disk, s.late) && InDay(s) && PhaseOk(job, s) && (s.phase.ToWeekly? || s.phase.ToMonthly?)
    ensures SameDay(Succeed(job, s, left, gone).disk, s.late)
  {
    var k := KeyAt(job, s, s.phase.i);
    if s.phase.ToWeekly? { StampedSameDay(s.disk.weekly, s.late, s.clock, k, s.disk.daily[k]); }
    else { StampedSameDay(s.disk.monthly, s.late, s.clock, k, s.disk.daily[k]); }
  }

  lemma MoveSameDay(job: Job, s: State, left: Option<File>, gone: set<Key>)
    requires SameDay(s.disk, s.late) && PhaseOk(job, s) && s.phase.Move?
    ensures SameDay(Succeed(job, s, left, gone).disk, s.late)
  {
  }

  lemma SucceedSameDay(job: Job, s: State, left: Option<File>, gone: set<Key>)
    requires SameDay(s.disk, s.late) && InDay(s) && PhaseOk(job, s)
    ensures SameDay(Succeed(job, s, left, gone).disk, s.late)
  {
    if s.phase.ToWeekly? || s.phase.ToMonthly? { CopySameDay(job, s, left, gone); }
    else if s.phase.Move? { MoveSameDay(job, s, left, gone); }
    else { PartialSameDay(job, s, left, gone); }
  }

  lemma SameDayLater(dir: Dir, late: nat, later: nat)
    requires SameDayDir(dir, late) && late <= later
    ensures SameDayDir(dir, later)
  {
  }

  lemma TickSameDay(job: Job, s: State, to: nat)
    requires SameDay(s.disk, s.late) && InDay(s) && s.late <= s.clock <= to
    ensures var s' := Apply(job, s, Tick(to)); SameDay(s'.disk, s'.late) && InDay(s') && s.late <= s'.late <= s'.clock
  {
    var late := Apply(job, s, Tick(to)).late;
    SameDayLater(s.disk.daily, s.late, late);
    SameDayLater(s.disk.weekly, s.late, late);
    SameDayLater(s.disk.monthly, s.late, late);
    SameDayLater(s.disk.temp, s.late, late);
  }

  lemma ApplySameDay(job: Job, s: State, e: Event)
    requires SameDay(s.disk, s.late) && InDay(s) && s.late <= s.clock && PhaseOk(job, s) && Enabled(job, s, e)
    ensures var s' := Apply(job, s, e); SameDay(s'.disk, s'.late) && InDay(s') && s.late <= s'.late <= s'.clock
  {
    match e
    case Run(ok, left, gone) =>
      PartialSameDay(job, s, left, gone);
      SucceedSameDay(job, s, left, gone);
    case Die(left, gone) => PartialSameDay(job, s, left, gone);
    case Tick(to) => TickSameDay(job, s, to);
    case Begin =>
  }

  // ---- what a step can take away

  lemma PartialDeletes(job: Job, s: State, left: Option<File>, gone: set<Key>, t: Tier, k: Key)
    requires k in In(s.disk, t) && k !in In(Partial(job, s, left, gone), t)
    ensures s.phase == Rotate(t) && k in gone
  {
  }

  lemma SucceedDeletes(job: Job, s: State, left: Option<File>, gone: set<Key>, t: Tier, k: Key)
    requires k in In(s.disk, t) && k !in In(Succeed(job, s, left, gone).disk, t)
    ensures s.phase == Rotate(t) && k in gone
  {
    match s.phase
    case Rotate(_) => PartialDeletes(job, s, left, gone, t, k);
    case Write(_) => PartialDeletes(job, s, left, gone, t, k);
    case Sweep => PartialDeletes(job, s, left, gone, t, k);
    case _ =>
  }

  /** Only a rotation deletes from a tier, and only what is more than Keep whole days old. */
  lemma OnlyRotationDeletes(job: Job, s: State, e: Event, t: Tier, k: Key)
    requires Enabled(job, s, e) && k in In(s.disk, t) && k !in In(Apply(job, s, e).disk, t)
    ensures s.phase == Rotate(t) && (s.clock - In(s.disk, t)[k].mtime) / DAY > Keep(t)
  {
    match e
    case Run(ok, left, gone) =>
      if ok { SucceedDeletes(job, s, left, gone, t, k); } else { FailDeletes(job, s, left, gone, t, k); }
    case Die(left, gone) => PartialDeletes(job, s, left, gone, t, k);
    case _ =>
  }

  lemma FailDeletes(job: Job, s: State, left: Option<File>, gone: set<Key>, t: Tier, k: Key)
    requires k in In(s.disk, t) && k !in In(Fail(job, s, left, gone).disk, t)
    ensures s.phase == Rotate(t) && k in gone
  {
    if s.phase.StartService? || s.phase == TrapStart { SucceedDeletes(job, s, left, gone, t, k); }
    else if s.phase != TrapRemove { PartialDeletes(job, s, left, gone, t, k); }
  }

  lemma ExpiredIsOld(s: State, t: Tier, k: Key)
    requires Dated(s) && k in In(s.disk, t) && (s.clock - In(s.disk, t)[k].mtime) / DAY > Keep(t)
    ensures (k.date + Keep(t) + 1) * DAY <= s.clock
  {
    assert StampedSince(In(s.disk, t)[k], k.date, s.clock);
  }

  lemma KeptStays(job: Job, s: State, e: Event, i: nat, x: nat)
    requires Dated(s) && Enabled(job, s, e) && Kept(job, s, i, x)
    ensures Kept(job, Apply(job, s, e), i, x)
  {
    var s' := Apply(job, s, e);
    ClockGrows(job, s, e);
    if i < |job.names| {
      forall t | Promoted(t, x)
        ensures Key(job.names[i], x) in In(s'.disk, t) || (x + Keep(t) + 1) * DAY <= s'.clock
      {
        var k := Key(job.names[i], x);
        if k in In(s.disk, t) && k !in In(s'.disk, t) {
          OnlyRotationDeletes(job, s, e, t, k);
          ExpiredIsOld(s, t, k);
        }
      }
    }
  }

  lemma ClockGrows(job: Job, s: State, e: Event)
    requires Enabled(job, s, e)
    ensures s.clock <= Apply(job, s, e).clock
  {
  }

  // ---- what the run has put in place

  lemma JustPlaced(job: Job, s: State, left: Option<File>, gone: set<Key>, i: nat)
    requires PhaseOk(job, s) && (s.phase == Move(i) || s.phase == ToWeekly(i) || s.phase == ToMonthly(i))
    requires var p := Succeed(job, s, left, gone).phase; p != ToWeekly(i) && p != ToMonthly(i)
    ensures Kept(job, Succeed(job, s, left, gone), i, s.date)
  {
  }

  lemma ApplyPlaced(job: Job, s: State, e: Event)
    requires Dated(s) && PhaseOk(job, s) && PlacedSoFar(job, s) && Enabled(job, s, e)
    ensures PlacedSoFar(job, Apply(job, s, e))
  {
    var s' := Apply(job, s, e);
    FinishedGrows(job, s, e);
    forall j: nat | j < Finished(job, s'.phase) ensures Kept(job, s', j, s'.date) {
      if j < Finished(job, s.phase) { KeptStays(job, s, e, j, s.date); } else { LastPlaced(job, s, e); }
    }
  }

  /** An event finishes at most the archive it was working on, and that one is in its place. */
  lemma FinishedGrows(job: Job, s: State, e: Event)
    requires PhaseOk(job, s) && Enabled(job, s, e)
    ensures var n, n' := Finished(job, s.phase), Finished(job, Apply(job, s, e).phase);
            && n' <= n + 1
            && (0 < n' ==> Apply(job, s, e).date == s.date)
            && (n < n' ==> e.Run? && e.ok && (s.phase == Move(n) || s.phase == ToWeekly(n) || s.phase == ToMonthly(n)))
  {
    if e.Begin? { assert First(job, 0) == Rotate(Daily) ==> |job.names| == 0; }
  }

  lemma LastPlaced(job: Job, s: State, e: Event)
    requires PhaseOk(job, s) && Enabled(job, s, e)
    requires Finished(job, s.phase) < Finished(job, Apply(job, s, e).phase)
    ensures Kept(job, Apply(job, s, e), Finished(job, s.phase), s.date)
  {
    FinishedGrows(job, s, e);
    JustPlaced(job, s, e.left, e.gone, Finished(job, s.phase));
  }

  // ---- what stays and what goes

  lemma ApplyKept(job: Job, s: State, e: Event)
    requires Dated(s) && PhaseOk(job, s) && PlacedSoFar(job, s) && KeptLongEnough(job, s) && Enabled(job, s, e)
    ensures KeptLongEnough(job, Apply(job, s, e))
  {
    forall x, i | x in Apply(job, s, e).completed && 0 <= i < |job.names| ensures Kept(job, Apply(job, s, e), i, x) {
      assert x !in s.completed ==> s.phase == Sweep && x == s.date;
      KeptStays(job, s, e, i, x);
    }
  }

  lemma RotationLeavesRecent(job: Job, s: State, left: Option<File>, gone: set<Key>)
    requires SameDay(s.disk, s.late) && Dated(s) && s.phase.Rotate? && Enabled(job, s, Run(true, left, gone))
    ensures Recent(Succeed(job, s, left, gone), s.phase.tier)
  {
    var t := s.phase.tier;
    var dir := In(s.disk, t);
    forall k | k in dir && k !in gone ensures NotTooOld(s.date, s.late, k.date, Keep(t)) {
      assert StampedInDay(dir[k], k.date, s.late);
      NotExpired(s.clock, dir[k].mtime, s.date, s.late, k.date, Keep(t));
    }
  }

  lemma NotExpired(clock: int, mtime: int, today: nat, late: nat, date: nat, keep: nat)
    requires today * DAY <= clock && (mtime < (date + 1) * DAY || mtime <= late) && (clock - mtime) / DAY <= keep
    ensures NotTooOld(today, late, date, keep)
  {
    assert clock - mtime < (keep + 1) * DAY;
  }

  lemma RecentStays(job: Job, s: State, left: Option<File>, gone: set<Key>, t: Tier)
    requires Recent(s, t) && (s.phase.Rotate? || s.phase == Sweep)
    ensures Recent(Succeed(job, s, left, gone), t)
  {
  }

  lemma RecentLater(job: Job, s: State, to: nat, t: Tier)
    requires Recent(s, t) && s.late <= s.clock <= to
    ensures Recent(Apply(job, s, Tick(to)), t)
  {
  }

  lemma TickRotated(job: Job, s: State, to: nat)
    requires RotatedSoFar(s) && s.late <= s.clock <= to
    ensures RotatedSoFar(Apply(job, s, Tick(to)))
  {
    forall t | Recent(s, t) ensures Recent(Apply(job, s, Tick(to)), t) { RecentLater(job, s, to, t); }
  }

  lemma ApplyRotated(job: Job, s: State, e: Event)
    requires SameDay(s.disk, s.late) && Dated(s) && s.late <= s.clock && PhaseOk(job, s) && RotatedSoFar(s)
    requires Enabled(job, s, e)
    ensures RotatedSoFar(Apply(job, s, e))
  {
    if e.Run? && e.ok && s.phase.Rotate? {
      RotationLeavesRecent(job, s, e.left, e.gone);
      if s.phase.tier != Daily { RecentStays(job, s, e.left, e.gone, Daily); }
      if s.phase.tier == Monthly { RecentStays(job, s, e.left, e.gone, Weekly); }
    } else if e.Tick? {
      TickRotated(job, s, e.to);
    } else if s.phase != Idle {
      NotYetRotating(job, s, e);
    }
  }

  /** Only a successful rotation leads to the next one or to the sweep. */
  lemma NotYetRotating(job: Job, s: State, e: Event)
    requires s.phase != Idle && !e.Tick? && !e.Begin? && !(e.Run? && e.ok && s.phase.Rotate?)
    ensures var p := Apply(job, s, e).phase; p != Rotate(Weekly) && p != Rotate(Monthly) && p != Sweep
  {
  }

  lemma ApplyKeepsInv(job: Job, s: State, e: Event)
    requires Inv(job, s) && Enabled(job, s, e)
    ensures Inv(job, Apply(job, s, e))
  {
    ApplyKeepsDaily(job, s, e);
    ApplyKeepsPhase(job, s, e);
    ApplyKeepsMatched(job, s, e);
    ApplyDated(job, s, e);
    ApplyPlaced(job, s, e);
    ApplyKept(job, s, e);
    ApplySameDay(job, s, e);
    ApplyRotated(job, s, e);
  }

  lemma {:induction false} ReachableInv(job: Job, run: seq<Event>)
    requires Legal(job, run)
    ensures Inv(job, Exec(job, run))
  {
    if run != [] {
      var n := |run| - 1;
      ReachableInv(job, run[..n]);
      ApplyKeepsInv(job, Exec(job, run[..n]), run[n]);
    }
  }
}
