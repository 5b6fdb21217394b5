/**
 The two backup scripts as one machine, command by command. A job has one archive name per
 dump or volume, and may have to stop a service while an archive is written: the PostgreSQL
 script is the job with one name and no service, the volume script the job with three names
 and one service. Any command may fail, and the machine may die during or after any command.
 Instants are in seconds.
 */
module BackupJob {
  import opened Collections
  import opened Calendar

  datatype Job = Job(names: seq<string>, service: map<string, string>)

  const POSTGRES := Job(["zaas"], map[])

  const VOLUMES := Job(["deploy_caddy_data", "deploy_grafana_data", "deploy_alertmanager_data"],
                       map["deploy_grafana_data" := "grafana"])

  datatype Tier = Daily | Weekly | Monthly

  datatype Key = Key(name: string, date: nat)

  /** `whole`: the dump stream was complete. `valid`: gzip -t accepts the file. */
  datatype File = File(whole: bool, valid: bool, mtime: int)

  type Dir = map<Key, File>

  /** The three directories, and the temporary files in the daily one. */
  datatype Disk = Disk(daily: Dir, weekly: Dir, monthly: Dir, temp: Dir)

  function In(d: Disk, t: Tier): Dir {
    match t
    case Daily => d.daily
    case Weekly => d.weekly
    case Monthly => d.monthly
  }

  function Put(d: Disk, t: Tier, dir: Dir): Disk {
    match t
    case Daily => d.(daily := dir)
    case Weekly => d.(weekly := dir)
    case Monthly => d.(monthly := dir)
  }

  /** Which days a tier keeps a copy of. */
  predicate Promoted(t: Tier, date: nat) {
    match t
    case Daily => true
    case Weekly => IsSunday(date)
    case Monthly => IsFirstSunday(date)
  }

  /** The argument of `-mtime +N` for each tier. */
  function Keep(t: Tier): nat {
    match t
    case Daily => 7
    case Weekly => 28
    case Monthly => 180
  }

  /** The files that `find -mtime +keep` selects: more than `keep` whole days old. */
  function Expired(dir: Dir, keep: nat, now: int): set<Key> {
    set k | k in dir && (now - dir[k].mtime) / DAY > keep
  }

  // ---- the script

  /** The command about to run; loop commands carry the index of the archive. */
  datatype Phase =
    | Idle
    | StopService(i: nat)
    | Write(i: nat)
    | StartService(i: nat)
    | Test(i: nat)
    | Move(i: nat)
    | ToWeekly(i: nat)
    | ToMonthly(i: nat)
    | Rotate(tier: Tier)
    | Sweep
    | TrapRemove
    | TrapStart

  /**
   `stopped` and `current` are the script's STOPPED_SERVICE and CURRENT_TMP. `written` holds the
   temporary files that the latest run has written. `stops` and
   `starts` log the services recorded as stopped and the start attempts of the latest run,
   `trapBroken` says that its exit trap did not get past `rm`. `completed` holds the dates on
   which some run got to its end, and `late` is the latest instant at which a run had outlasted its own day.
   */
  datatype State = State(
    clock: nat, disk: Disk, phase: Phase, date: nat,
    stopped: Option<string>, current: Option<Key>, written: set<Key>,
    stops: seq<string>, starts: seq<string>, trapBroken: bool,
    completed: set<nat>, late: nat)

  /**
   One command: its exit status, what it leaves in the file it writes, and, for an
   interrupted find, which of the selected files are already gone.
   */
  datatype Event =
    | Tick(to: nat)
    | Begin
    | Run(ok: bool, left: Option<File>, gone: set<Key>)
    | Die(left: Option<File>, gone: set<Key>)

  function DayOf(t: nat): nat { t / DAY }

  const INIT: State :=
    State(0, Disk(map[], map[], map[], map[]), Idle, 0, None, None, {}, [], [], false, {}, 0)

  function KeyAt(job: Job, s: State, i: nat): Key
    requires i < |job.names|
  {
    Key(job.names[i], s.date)
  }

  function First(job: Job, i: nat): Phase {
    if i < |job.names| then (if job.names[i] in job.service then StopService(i) else Write(i))
    else Rotate(Daily)
  }

  /** Entering the loop body for archive `i` sets CURRENT_TMP. */
  function Enter(job: Job, s: State, i: nat): State {
    s.(phase := First(job, i), current := if i < |job.names| then Some(KeyAt(job, s, i)) else None)
  }

  function Index(p: Phase): Option<nat> {
    match p
    case StopService(i) => Some(i)
    case Write(i) => Some(i)
    case StartService(i) => Some(i)
    case Test(i) => Some(i)
    case Move(i) => Some(i)
    case ToWeekly(i) => Some(i)
    case ToMonthly(i) => Some(i)
    case _ => None
  }

  ghost predicate Enabled(job: Job, s: State, e: Event) {
    match e
    case Tick(to) => s.clock <= to
    case Begin => s.phase == Idle
    case Die(_, gone) => s.phase != Idle && Selected(s, gone)
    case Run(ok, left, gone) =>
      && s.phase != Idle && Selected(s, gone)
      && (s.phase.Write? && ok ==> left.Some? && left.value.whole)
      && (s.phase.Test? && ok && s.phase.i < |job.names| ==>
            KeyAt(job, s, s.phase.i) in s.disk.temp && s.disk.temp[KeyAt(job, s, s.phase.i)].valid)
      && (s.phase.Rotate? && ok ==> gone == Expired(In(s.disk, s.phase.tier), Keep(s.phase.tier), s.clock))
      && (s.phase == Sweep && ok ==> gone == Expired(s.disk.temp, 1, s.clock))
  }

  /** A find deletes nothing but what it selects. */
  ghost predicate Selected(s: State, gone: set<Key>) {
    match s.phase
    case Rotate(tier) => gone <= Expired(In(s.disk, tier), Keep(tier), s.clock)
    case Sweep => gone <= Expired(s.disk.temp, 1, s.clock)
    case _ => gone == {}
  }

  function Without(dir: Dir, gone: set<Key>): Dir {
    map k | k in dir && k !in gone :: dir[k]
  }

  function Stamped(f: File, now: int): File { f.(mtime := now) }

  /** What an unfinished or failed command may leave behind on disk. */
  function Partial(job: Job, s: State, left: Option<File>, gone: set<Key>): Disk {
    match s.phase
    case Write(i) =>
      if i < |job.names| && left.Some?
      then s.disk.(temp := s.disk.temp[KeyAt(job, s, i) := Stamped(left.value, s.clock)]) else s.disk
    case ToWeekly(i) =>
      if i < |job.names| && left.Some?
      then s.disk.(weekly := s.disk.weekly[KeyAt(job, s, i) := Stamped(left.value, s.clock)]) else s.disk
    case ToMonthly(i) =>
      if i < |job.names| && left.Some?
      then s.disk.(monthly := s.disk.monthly[KeyAt(job, s, i) := Stamped(left.value, s.clock)]) else s.disk
    case Rotate(tier) => Put(s.disk, tier, Without(In(s.disk, tier), gone))
    case Sweep => s.disk.(temp := Without(s.disk.temp, gone))
    case _ => s.disk
  }

  function Wrote(job: Job, s: State, left: Option<File>): set<Key> {
    if s.phase.Write? && s.phase.i < |job.names| && left.Some? then s.written + {KeyAt(job, s, s.phase.i)} else s.written
  }

  /** A command that succeeds, and the command after it. */
  function Succeed(job: Job, s: State, left: Option<File>, gone: set<Key>): State {
    match s.phase
    case StopService(i) =>
      if i < |job.names| && job.names[i] in job.service then
        var v := job.service[job.names[i]];
        s.(phase := Write(i), stopped := Some(v), stops := s.stops + [v])
      else s
    case Write(i) => s.(disk := Partial(job, s, left, gone), written := Wrote(job, s, left), phase := StartService(i))
    case StartService(i) => StartStopped(s).(phase := Test(i))
    case Test(i) => s.(phase := Move(i))
    case Move(i) =>
      if i < |job.names| && KeyAt(job, s, i) in s.disk.temp then
        var k := KeyAt(job, s, i);
        var d := s.disk.(daily := s.disk.daily[k := s.disk.temp[k]], temp := s.disk.temp - {k});
        var s' := s.(disk := d, current := None);
        if IsSunday(s.date) then s'.(phase := ToWeekly(i)) else Enter(job, s', i + 1)
      else s.(phase := TrapRemove)
    case ToWeekly(i) =>
      if i < |job.names| && KeyAt(job, s, i) in s.disk.daily then
        var k := KeyAt(job, s, i);
        var s' := s.(disk := s.disk.(weekly := s.disk.weekly[k := Stamped(s.disk.daily[k], s.clock)]));
        if DayOfMonth(s.date) <= 7 then s'.(phase := ToMonthly(i)) else Enter(job, s', i + 1)
      else s.(phase := TrapRemove)
    case ToMonthly(i) =>
      if i < |job.names| && KeyAt(job, s, i) in s.disk.daily then
        var k := KeyAt(job, s, i);
        Enter(job, s.(disk := s.disk.(monthly := s.disk.monthly[k := Stamped(s.disk.daily[k], s.clock)])), i + 1)
      else s.(phase := TrapRemove)
    case Rotate(tier) =>
      s.(disk := Partial(job, s, left, gone),
         phase := match tier case Daily => Rotate(Weekly) case Weekly => Rotate(Monthly) case Monthly => Sweep)
    case Sweep => s.(disk := Partial(job, s, left, gone), phase := TrapRemove, completed := s.completed + {s.date})
    case TrapRemove =>
      s.(disk := s.disk.(temp := if s.current.Some? then s.disk.temp - {s.current.value} else s.disk.temp), phase := TrapStart)
    case TrapStart => StartStopped(s).(phase := Idle)
    case Idle => s
  }

  /** start_stopped_service: one start attempt, whatever its result, if a service is recorded. */
  function StartStopped(s: State): State {
    if s.stopped.Some? then s.(starts := s.starts + [s.stopped.value], stopped := None) else s
  }

  /** Under `set -e` a failing command ends the script; in the exit trap it ends the trap. */
  function Fail(job: Job, s: State, left: Option<File>, gone: set<Key>): State {
    match s.phase
    case StartService(_) => Succeed(job, s, left, gone)
    case TrapRemove => s.(phase := Idle, trapBroken := true)
    case TrapStart => Succeed(job, s, left, gone)
    case _ => s.(disk := Partial(job, s, left, gone), written := Wrote(job, s, left), phase := TrapRemove)
  }

  function Apply(job: Job, s: State, e: Event): State {
    match e
    case Tick(to) =>
      s.(clock := to, late := if s.phase != Idle && DayOf(to) != s.date then to else s.late)
    case Begin =>
      Enter(job, s.(date := DayOf(s.clock), stopped := None, written := {}, stops := [], starts := [], trapBroken := false), 0)
    case Run(ok, left, gone) => if ok then Succeed(job, s, left, gone) else Fail(job, s, left, gone)
    case Die(left, gone) => s.(disk := Partial(job, s, left, gone), written := Wrote(job, s, left), phase := Idle)
  }

  function Exec(job: Job, run: seq<Event>): State {
    if run == [] then INIT else Apply(job, Exec(job, run[..|run| - 1]), run[|run| - 1])
  }

  ghost predicate Legal(job: Job, run: seq<Event>) {
    run == [] ||
    (Legal(job, run[..|run| - 1]) && Enabled(job, Exec(job, run[..|run| - 1]), run[|run| - 1]))
  }

  lemma Extend(job: Job, run: seq<Event>, e: Event)
    requires Legal(job, run) && Enabled(job, Exec(job, run), e)
    ensures Legal(job, run + [e]) && Exec(job, run + [e]) == Apply(job, Exec(job, run), e)
  {
    assert (run + [e])[..|run|] == run;
  }

  ghost predicate Reaches(job: Job, run: seq<Event>, s: State) {
    Legal(job, run) && Exec(job, run) == s
  }

  lemma ReachesNext(job: Job, run: seq<Event>, s: State, e: Event)
    requires Reaches(job, run, s) && Enabled(job, s, e)
    ensures Reaches(job, run + [e], Apply(job, s, e))
  {
    Extend(job, run, e);
  }

  // ---- safety: what is on disk after any prefix of any run

  /** The temporary file of the archive being made, and how far it has been checked. */
  ghost predicate TempOk(job: Job, s: State, i: nat, tested: bool) {
    i < |job.names| && KeyAt(job, s, i) in s.disk.temp
    && s.disk.temp[KeyAt(job, s, i)].whole && (tested ==> s.disk.temp[KeyAt(job, s, i)].valid)
  }

  ghost predicate PhaseOk(job: Job, s: State) {
    match s.phase
    case StopService(i) => i < |job.names| && job.names[i] in job.service && s.stopped == None
    case Write(i) => i < |job.names|
    case StartService(i) => TempOk(job, s, i, false)
    case Test(i) => TempOk(job, s, i, false) && s.stopped == None
    case Move(i) => TempOk(job, s, i, true) && s.stopped == None
    case ToWeekly(i) => i < |job.names| && KeyAt(job, s, i) in s.disk.daily && IsSunday(s.date) && s.stopped == None
    case ToMonthly(i) =>
      i < |job.names| && KeyAt(job, s, i) in s.disk.daily && KeyAt(job, s, i) in s.disk.weekly
      && IsFirstSunday(s.date) && s.stopped == None
    case Rotate(_) => s.stopped == None
    case Sweep => s.stopped == None
    case _ => true
  }

  /** Every finished daily archive is a complete dump that gzip accepts. */
  ghost predicate DailyWhole(d: Disk) {
    forall k :: k in d.daily ==> d.daily[k].whole && d.daily[k].valid
  }

  ghost predicate Matched(s: State) {
    s.stops == s.starts + if s.stopped.Some? then [s.stopped.value] else []
  }

  lemma PartialKeepsDaily(job: Job, s: State, left: Option<File>, gone: set<Key>)
    requires DailyWhole(s.disk)
    ensures DailyWhole(Partial(job, s, left, gone))
  {
  }

  lemma SucceedKeepsDaily(job: Job, s: State, left: Option<File>, gone: set<Key>)
    requires DailyWhole(s.disk) && PhaseOk(job, s)
    ensures DailyWhole(Succeed(job, s, left, gone).disk)
  {
    PartialKeepsDaily(job, s, left, gone);
  }

  lemma ApplyKeepsDaily(job: Job, s: State, e: Event)
    requires DailyWhole(s.disk) && PhaseOk(job, s)
    ensures DailyWhole(Apply(job, s, e).disk)
  {
    match e
    case Run(ok, left, gone) =>
      PartialKeepsDaily(job, s, left, gone);
      SucceedKeepsDaily(job, s, left, gone);
    case Die(left, gone) => PartialKeepsDaily(job, s, left, gone);
    case _ =>
  }

  lemma EnterOk(job: Job, s: State, i: nat)
    requires s.stopped == None
    ensures PhaseOk(job, Enter(job, s, i))
  {
  }

  lemma CopyKeepsPhase(job: Job, s: State, left: Option<File>, gone: set<Key>)
    requires PhaseOk(job, s) && (s.phase.ToWeekly? || s.phase.ToMonthly?)
    ensures PhaseOk(job, Succeed(job, s, left, gone))
  {
    var i, k := s.phase.i, KeyAt(job, s, s.phase.i);
    var copied := Stamped(s.disk.daily[k], s.clock);
    if s.phase.ToWeekly? {
      EnterOk(job, s.(disk := s.disk.(weekly := s.disk.weekly[k := copied])), i + 1);
    } else {
      EnterOk(job, s.(disk := s.disk.(monthly := s.disk.monthly[k := copied])), i + 1);
    }
  }

  lemma MoveKeepsPhase(job: Job, s: State, left: Option<File>, gone: set<Key>)
    requires PhaseOk(job, s) && s.phase.Move?
    ensures PhaseOk(job, Succeed(job, s, left, gone))
  {
    var k := KeyAt(job, s, s.phase.i);
    var d := s.disk.(daily := s.disk.daily[k := s.disk.temp[k]], temp := s.disk.temp - {k});
    EnterOk(job, s.(disk := d, current := None), s.phase.i + 1);
  }

  lemma SucceedKeepsPhase(job: Job, s: State, left: Option<File>, gone: set<Key>)
    requires PhaseOk(job, s) && Enabled(job, s, Run(true, left, gone))
    ensures PhaseOk(job, Succeed(job, s, left, gone))
  {
    match s.phase
    case Move(_) => MoveKeepsPhase(job, s, left, gone);
    case ToWeekly(_) => CopyKeepsPhase(job, s, left, gone);
    case ToMonthly(_) => CopyKeepsPhase(job, s, left, gone);
    case _ =>
  }

  lemma FailKeepsPhase(job: Job, s: State, left: Option<File>, gone: set<Key>)
    requires PhaseOk(job, s)
    ensures PhaseOk(job, Fail(job, s, left, gone))
  {
  }

  lemma ApplyKeepsPhase(job: Job, s: State, e: Event)
    requires PhaseOk(job, s) && Enabled(job, s, e)
    ensures PhaseOk(job, Apply(job, s, e))
  {
    match e
    case Tick(_) =>
    case Begin => EnterOk(job, s.(date := DayOf(s.clock), stopped := None, written := {}, stops := [], starts := [], trapBroken := false), 0);
    case Run(ok, left, gone) =>
      if ok { SucceedKeepsPhase(job, s, left, gone); } else { FailKeepsPhase(job, s, left, gone); }
    case Die(_, _) =>
  }

  lemma ApplyKeepsMatched(job: Job, s: State, e: Event)
    requires Matched(s) && PhaseOk(job, s)
    ensures Matched(Apply(job, s, e))
  {
  }
}
