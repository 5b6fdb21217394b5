/**
 Runs of the two scripts, command by command: when nothing fails a run completes, and the failing
 sides of the conditions in BackupGuarantees are reached by the jobs as they are.
 */
module BackupWitnesses {
  import opened Collections
  import opened Calendar
  import opened BackupJob
  import opened BackupGuarantees

  const GOOD := File(true, true, 0)

  /** The command succeeds. */
  function Ok(left: Option<File>): Event {
    Run(true, left, {})
  }

  /** The command fails and leaves nothing. */
  const FAILS := Run(false, None, {})

  /** From a Write without a service to the finished daily archive. */
  function MakeArchive(run: seq<Event>): seq<Event> {
    run + [Ok(Some(GOOD))] + [Ok(None)] + [Ok(None)] + [Ok(None)]
  }

  /** The first archive of a job that stops no service for it, with nothing on disk before. */
  function AtFirst(job: Job, p: Phase, clock: nat): State
    requires |job.names| > 0
  {
    State(clock, Disk(map[], map[], map[], map[]), p, DayOf(clock), None, Some(Key(job.names[0], DayOf(clock))), {},
          [], [], false, {}, 0)
  }

  lemma MadeArchive(job: Job, run: seq<Event>, clock: nat)
    requires |job.names| > 0 && Legal(job, run) && Exec(job, run) == AtFirst(job, Write(0), clock)
    ensures Legal(job, MakeArchive(run))
    ensures var k, s := Key(job.names[0], DayOf(clock)), AtFirst(job, Write(0), clock);
            var done := s.(disk := s.disk.(daily := map[k := GOOD.(mtime := clock)]), current := None, written := {k});
            Exec(job, MakeArchive(run)) == if IsSunday(DayOf(clock)) then done.(phase := ToWeekly(0)) else Enter(job, done, 1)
  {
    var k, f := Key(job.names[0], DayOf(clock)), GOOD.(mtime := clock);
    var s := AtFirst(job, Write(0), clock);
    Extend(job, run, Ok(Some(GOOD)));
    var r := run + [Ok(Some(GOOD))];
    var s1 := s.(disk := s.disk.(temp := map[k := f]), written := {k}, phase := StartService(0));
    assert Exec(job, r) == s1;
    Extend(job, r, Ok(None));
    r := r + [Ok(None)];
    assert Exec(job, r) == s1.(phase := Test(0));
    Extend(job, r, Ok(None));
    r := r + [Ok(None)];
    assert Exec(job, r) == s1.(phase := Move(0));
    Extend(job, r, Ok(None));
    assert s1.disk.temp - {k} == map[];
  }

  lemma MadeOnSunday(job: Job, run: seq<Event>, clock: nat)
    requires |job.names| > 0 && Legal(job, run) && Exec(job, run) == AtFirst(job, Write(0), clock)
    requires IsSunday(DayOf(clock))
    ensures var s := Exec(job, MakeArchive(run));
            && Legal(job, MakeArchive(run)) && s.phase == ToWeekly(0) && s.date == DayOf(clock)
            && KeyAt(job, s, 0) in s.disk.daily
  {
    MadeArchive(job, run, clock);
  }

  // ---- a torn monthly copy

  /** The dump of the first Sunday of 1970, up to the monthly copy, in which the machine dies. */
  function TornRun(): seq<Event> {
    MakeArchive([] + [Tick(3 * DAY)] + [Begin]) + [Ok(None)] + [Die(Some(File(false, false, 0)), {})]
  }

  lemma FourthOfJanuary()
    ensures IsSunday(3) && DayOfMonth(3) == 4
  {
    assert MonthStart(1) == MonthStart(0) + MonthLength(0);
    MonthOfIs(3, 0);
  }

  lemma SundayBegins()
    ensures var r := [] + [Tick(3 * DAY)] + [Begin];
            Legal(POSTGRES, r) && Exec(POSTGRES, r) == AtFirst(POSTGRES, Write(0), 3 * DAY)
  {
    Extend(POSTGRES, [], Tick(3 * DAY));
    Extend(POSTGRES, [] + [Tick(3 * DAY)], Begin);
  }

  /** The weekly copy of the first Sunday is done, the monthly one comes next. */
  lemma WeeklyCopied(run: seq<Event>)
    requires Legal(POSTGRES, run)
    requires Exec(POSTGRES, run).phase == ToWeekly(0) && Exec(POSTGRES, run).date == 3
    requires KeyAt(POSTGRES, Exec(POSTGRES, run), 0) in Exec(POSTGRES, run).disk.daily
    ensures Legal(POSTGRES, run + [Ok(None)])
    ensures Exec(POSTGRES, run + [Ok(None)]).phase == ToMonthly(0) && Exec(POSTGRES, run + [Ok(None)]).date == 3
  {
    FourthOfJanuary();
    Extend(POSTGRES, run, Ok(None));
  }

  lemma MonthlyTears(run: seq<Event>)
    requires Legal(POSTGRES, run)
    requires Exec(POSTGRES, run).phase == ToMonthly(0) && Exec(POSTGRES, run).date == 3
    ensures var r := run + [Die(Some(File(false, false, 0)), {})];
            var monthly := Exec(POSTGRES, r).disk.monthly;
            Legal(POSTGRES, r) && Key("zaas", 3) in monthly && !Good(monthly[Key("zaas", 3)])
  {
    Extend(POSTGRES, run, Die(Some(File(false, false, 0)), {}));
  }

  /** The PostgreSQL script can leave a truncated monthly archive. */
  lemma MonthlyCopyTorn()
    ensures Legal(POSTGRES, TornRun())
    ensures var monthly := Exec(POSTGRES, TornRun()).disk.monthly;
            Key("zaas", 3) in monthly && !Good(monthly[Key("zaas", 3)])
  {
    var r := [] + [Tick(3 * DAY)] + [Begin];
    SundayBegins();
    FourthOfJanuary();
    MadeOnSunday(POSTGRES, r, 3 * DAY);
    WeeklyCopied(MakeArchive(r));
    MonthlyTears(MakeArchive(r) + [Ok(None)]);
  }

  // ---- a service left stopped

  /** The first archive needs no service; while the second one's is stopped, tar and then rm fail. */
  function BrokenTrapRun(): seq<Event> {
    MakeArchive([] + [Begin]) + [Ok(None)] + [FAILS] + [FAILS]
  }

  lemma FirstVolume()
    ensures VOLUMES.names[0] !in VOLUMES.service && VOLUMES.names[1] in VOLUMES.service
    ensures VOLUMES.service[VOLUMES.names[1]] == "grafana"
  {
    assert VOLUMES.names[0][7] == 'c' && VOLUMES.names[1][7] == 'g';
  }

  /** The commands after the first archive, each on its own. */
  lemma StopStep(job: Job, s: State)
    requires s.phase == StopService(1) && |job.names| > 1 && job.names[1] in job.service
    ensures Enabled(job, s, Ok(None))
    ensures var v, s' := job.service[job.names[1]], Apply(job, s, Ok(None));
            s'.phase == Write(1) && s'.stopped == Some(v) && s'.stops == s.stops + [v] && s'.starts == s.starts
  {
  }

  lemma TarFails(job: Job, s: State)
    requires s.phase == Write(1)
    ensures Enabled(job, s, FAILS)
    ensures var s' := Apply(job, s, FAILS);
            s'.phase == TrapRemove && s'.stopped == s.stopped && s'.stops == s.stops && s'.starts == s.starts
  {
  }

  lemma TrapFails(job: Job, s: State)
    requires s.phase == TrapRemove
    ensures Enabled(job, s, FAILS)
    ensures var s' := Apply(job, s, FAILS); s'.phase == Idle && s'.trapBroken && s'.stops == s.stops && s'.starts == s.starts
  {
  }

  lemma BreaksAfter(job: Job, run: seq<Event>, s: State)
    requires Reaches(job, run, s) && s.phase == StopService(1) && |job.names| > 1 && job.names[1] in job.service
    ensures var r, s' := run + [Ok(None)] + [FAILS] + [FAILS], Exec(job, run + [Ok(None)] + [FAILS] + [FAILS]);
            && Legal(job, r) && s'.phase == Idle && s'.trapBroken
            && s'.stops == s.stops + [job.service[job.names[1]]] && s'.starts == s.starts
  {
    StopStep(job, s);
    ReachesNext(job, run, s, Ok(None));
    var s1 := Apply(job, s, Ok(None));
    TarFails(job, s1);
    ReachesNext(job, run + [Ok(None)], s1, FAILS);
    var s2 := Apply(job, s1, FAILS);
    TrapFails(job, s2);
    ReachesNext(job, run + [Ok(None)] + [FAILS], s2, FAILS);
  }

  lemma FirstMade(job: Job)
    requires |job.names| > 1 && job.names[0] !in job.service && job.names[1] in job.service
    ensures var r := MakeArchive([] + [Begin]);
            Legal(job, r) && Exec(job, r).phase == StopService(1) && Exec(job, r).stops == Exec(job, r).starts == []
  {
    Extend(job, [], Begin);
    assert Exec(job, [] + [Begin]) == AtFirst(job, Write(0), 0);
    MadeArchive(job, [] + [Begin], 0);
  }

  /** For any job of that shape, and so for the volume script, the service ends without a start attempt. */
  lemma ServiceLeftStopped(job: Job)
    requires |job.names| > 1 && job.names[0] !in job.service && job.names[1] in job.service
    ensures Legal(job, BrokenTrapRun())
    ensures var s := Exec(job, BrokenTrapRun());
            s.phase == Idle && s.trapBroken && s.stops == [job.service[job.names[1]]] && s.starts == []
  {
    var r := MakeArchive([] + [Begin]);
    FirstMade(job);
    BreaksAfter(job, r, Exec(job, r));
  }

  lemma GrafanaLeftStopped()
    ensures Legal(VOLUMES, BrokenTrapRun())
    ensures Exec(VOLUMES, BrokenTrapRun()).stops == ["grafana"] && Exec(VOLUMES, BrokenTrapRun()).starts == []
  {
    FirstVolume();
    ServiceLeftStopped(VOLUMES);
  }

  // ---- when nothing fails

  /** A command that takes no time changes neither the day nor what has been completed. */
  predicate SameDay(s: State, s': State) {
    s'.date == s.date && s'.clock == s.clock && s'.completed == s.completed
  }

  lemma OkStop(job: Job, s: State, i: nat)
    requires s.phase == StopService(i) && i < |job.names| && job.names[i] in job.service
    ensures var s' := Apply(job, s, Ok(None)); Enabled(job, s, Ok(None)) && s'.phase == Write(i) && SameDay(s, s')
  {
  }

  /** The temporary file of archive i is there, and good. */
  predicate HasTemp(job: Job, s: State, i: nat) {
    i < |job.names| && KeyAt(job, s, i) in s.disk.temp && s.disk.temp[KeyAt(job, s, i)].valid
  }

  lemma OkWrite(job: Job, s: State, i: nat)
    requires s.phase == Write(i) && i < |job.names|
    ensures var s' := Apply(job, s, Ok(Some(GOOD)));
            Enabled(job, s, Ok(Some(GOOD))) && s'.phase == StartService(i) && SameDay(s, s') && HasTemp(job, s', i)
  {
  }

  lemma OkStart(job: Job, s: State, i: nat)
    requires s.phase == StartService(i) && HasTemp(job, s, i)
    ensures var s' := Apply(job, s, Ok(None));
            Enabled(job, s, Ok(None)) && s'.phase == Test(i) && SameDay(s, s') && HasTemp(job, s', i)
  {
  }

  lemma OkTest(job: Job, s: State, i: nat)
    requires s.phase == Test(i) && HasTemp(job, s, i)
    ensures var s' := Apply(job, s, Ok(None));
            Enabled(job, s, Ok(None)) && s'.phase == Move(i) && SameDay(s, s') && HasTemp(job, s', i)
  {
  }

  predicate HasDaily(job: Job, s: State, i: nat) {
    i < |job.names| && KeyAt(job, s, i) in s.disk.daily
  }

  lemma OkMove(job: Job, s: State, i: nat)
    requires s.phase == Move(i) && HasTemp(job, s, i)
    ensures var s' := Apply(job, s, Ok(None));
            Enabled(job, s, Ok(None)) && s'.phase in {ToWeekly(i), First(job, i + 1)} && SameDay(s, s') && HasDaily(job, s', i)
  {
  }

  lemma OkWeekly(job: Job, s: State, i: nat)
    requires s.phase == ToWeekly(i) && HasDaily(job, s, i)
    ensures var s' := Apply(job, s, Ok(None));
            Enabled(job, s, Ok(None)) && s'.phase in {ToMonthly(i), First(job, i + 1)} && SameDay(s, s') && HasDaily(job, s', i)
  {
  }

  lemma OkMonthly(job: Job, s: State, i: nat)
    requires s.phase == ToMonthly(i) && HasDaily(job, s, i)
    ensures var s' := Apply(job, s, Ok(None));
            Enabled(job, s, Ok(None)) && s'.phase == First(job, i + 1) && SameDay(s, s')
  {
  }

  /** From `run` on every command succeeds. */
  ghost predicate AllOk(run: seq<Event>, more: seq<Event>) {
    run <= more && forall j :: |run| <= j < |more| ==> more[j].Run? && more[j].ok
  }

  /** The run goes on to this state by commands that succeed. */
  ghost predicate GoesOn(job: Job, run: seq<Event>, more: seq<Event>, s: State, s': State) {
    AllOk(run, more) && Reaches(job, more, s') && SameDay(s, s')
  }

  lemma GoOn(job: Job, run: seq<Event>, more: seq<Event>, s: State, s': State, e: Event) returns (next: seq<Event>)
    requires GoesOn(job, run, more, s, s') && Enabled(job, s', e) && e.Run? && e.ok && SameDay(s', Apply(job, s', e))
    ensures GoesOn(job, run, next, s, Apply(job, s', e))
  {
    ReachesNext(job, more, s', e);
    next := more + [e];
  }

  lemma WriteOn(job: Job, run: seq<Event>, more: seq<Event>, s: State, s': State, i: nat) returns (next: seq<Event>, n: State)
    requires GoesOn(job, run, more, s, s') && s'.phase == Write(i) && i < |job.names|
    ensures GoesOn(job, run, next, s, n) && n.phase == Move(i) && HasTemp(job, n, i)
  {
    next, n := more, s';
    OkWrite(job, n, i);
    next := GoOn(job, run, next, s, n, Ok(Some(GOOD)));
    n := Apply(job, n, Ok(Some(GOOD)));
    OkStart(job, n, i);
    next := GoOn(job, run, next, s, n, Ok(None));
    n := Apply(job, n, Ok(None));
    OkTest(job, n, i);
    next := GoOn(job, run, next, s, n, Ok(None));
    n := Apply(job, n, Ok(None));
  }

  lemma MoveOn(job: Job, run: seq<Event>, more: seq<Event>, s: State, s': State, i: nat) returns (next: seq<Event>, n: State)
    requires GoesOn(job, run, more, s, s') && s'.phase == Move(i) && HasTemp(job, s', i)
    ensures GoesOn(job, run, next, s, n) && n.phase == First(job, i + 1)
  {
    OkMove(job, s', i);
    next := GoOn(job, run, more, s, s', Ok(None));
    n := Apply(job, s', Ok(None));
    if n.phase == ToWeekly(i) {
      OkWeekly(job, n, i);
      next := GoOn(job, run, next, s, n, Ok(None));
      n := Apply(job, n, Ok(None));
      if n.phase == ToMonthly(i) {
        OkMonthly(job, n, i);
        next := GoOn(job, run, next, s, n, Ok(None));
        n := Apply(job, n, Ok(None));
      }
    }
  }

  /** The loop over the archives from i on. */
  lemma {:induction false} ArchivesOn(job: Job, run: seq<Event>, more: seq<Event>, s: State, s': State, i: nat)
    returns (next: seq<Event>, n: State)
    requires GoesOn(job, run, more, s, s') && i <= |job.names| && s'.phase == First(job, i)
    ensures GoesOn(job, run, next, s, n) && n.phase == Rotate(Daily)
    decreases |job.names| - i
  {
    next, n := more, s';
    if i < |job.names| {
      if job.names[i] in job.service {
        OkStop(job, n, i);
        next := GoOn(job, run, next, s, n, Ok(None));
        n := Apply(job, n, Ok(None));
      }
      next, n := WriteOn(job, run, next, s, n, i);
      next, n := MoveOn(job, run, next, s, n, i);
      next, n := ArchivesOn(job, run, next, s, n, i + 1);
    }
  }

  /** A find that gets through. */
  function Find(s: State): Event {
    Run(true, None, if s.phase.Rotate? then Expired(In(s.disk, s.phase.tier), Keep(s.phase.tier), s.clock)
                    else Expired(s.disk.temp, 1, s.clock))
  }

  lemma OkRotate(job: Job, s: State)
    requires s.phase.Rotate?
    ensures var s' := Apply(job, s, Find(s));
            && Enabled(job, s, Find(s)) && SameDay(s, s')
            && s'.phase == match s.phase.tier case Daily => Rotate(Weekly) case Weekly => Rotate(Monthly) case Monthly => Sweep
  {
  }

  lemma RotateOn(job: Job, run: seq<Event>, more: seq<Event>, s: State, s': State) returns (next: seq<Event>, n: State)
    requires GoesOn(job, run, more, s, s') && s'.phase == Rotate(Daily)
    ensures GoesOn(job, run, next, s, n) && n.phase == Sweep
  {
    next, n := more, s';
    OkRotate(job, n);
    next := GoOn(job, run, next, s, n, Find(n));
    n := Apply(job, n, Find(n));
    OkRotate(job, n);
    next := GoOn(job, run, next, s, n, Find(n));
    n := Apply(job, n, Find(n));
    OkRotate(job, n);
    next := GoOn(job, run, next, s, n, Find(n));
    n := Apply(job, n, Find(n));
  }

  lemma OkSweep(job: Job, s: State)
    requires s.phase == Sweep
    ensures var s' := Apply(job, s, Find(s));
            Enabled(job, s, Find(s)) && s'.phase == TrapRemove && s'.date in s'.completed && s'.date == s.date
  {
  }

  lemma OkTrap(job: Job, s: State)
    requires s.phase == TrapRemove
    ensures var s', s'' := Apply(job, s, Ok(None)), Apply(job, Apply(job, s, Ok(None)), Ok(None));
            Enabled(job, s, Ok(None)) && Enabled(job, s', Ok(None)) && s''.phase == Idle
            && s''.completed == s.completed && s''.trapBroken == s.trapBroken
  {
  }

  /**
   Whatever happened before, a run started now completes if nothing fails: it gets to the sweep, and
   ends with today among the completed days.
   */
  lemma UndisturbedRunCompletes(job: Job, run: seq<Event>) returns (swept: seq<Event>, ended: seq<Event>)
    requires Legal(job, run) && Exec(job, run).phase == Idle
    ensures AllOk(run + [Begin], swept) && Legal(job, swept) && Exec(job, swept).phase == Sweep
    ensures AllOk(swept, ended) && Legal(job, ended) && Exec(job, ended).phase == Idle
    ensures DayOf(Exec(job, run).clock) in Exec(job, ended).completed
  {
    var s := Apply(job, Exec(job, run), Begin);
    ReachesNext(job, run, Exec(job, run), Begin);
    var more, n := ArchivesOn(job, run + [Begin], run + [Begin], s, s, 0);
    swept, n := RotateOn(job, run + [Begin], more, s, n);
    OkSweep(job, n);
    ended := EndOn(job, swept, n);
  }

  lemma EndOn(job: Job, run: seq<Event>, s: State) returns (ended: seq<Event>)
    requires Reaches(job, run, s) && s.phase == Sweep
    ensures AllOk(run, ended) && Legal(job, ended) && Exec(job, ended).phase == Idle && s.date in Exec(job, ended).completed
  {
    OkSweep(job, s);
    ReachesNext(job, run, s, Find(s));
    var s1 := Apply(job, s, Find(s));
    OkTrap(job, s1);
    ReachesNext(job, run + [Find(s)], s1, Ok(None));
    ReachesNext(job, run + [Find(s)] + [Ok(None)], Apply(job, s1, Ok(None)), Ok(None));
    ended := run + [Find(s)] + [Ok(None)] + [Ok(None)];
  }
}
