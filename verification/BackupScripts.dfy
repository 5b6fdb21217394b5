/**
 The backup scripts as the programs they are: variables, three directories of files, a loop over
 the archives and an exit trap. Every command is a method that is proved to do one step of the
 machine in BackupJob, and the whole script is proved to be a run of that machine. `Cmd` says how
 the system answers one command: how long it takes, whether the machine dies during it, whether
 it succeeds, and what it leaves. A script whose answers run out is still running at that point.
 */
module BackupScripts {
  import opened Collections
  import opened Calendar
  import opened BackupJob

  datatype Cmd = Cmd(wait: nat, dies: bool, ok: bool, left: Option<File>, gone: set<Key>)

  /** The event that is the command's end. */
  function EventOf(c: Cmd): Event {
    if c.dies then Die(c.left, c.gone) else Run(c.ok, c.left, c.gone)
  }

  /** One command: the clock moves on, then the command ends or the machine dies. */
  function Step(job: Job, s: State, c: Cmd): State {
    Apply(job, Apply(job, s, Tick(s.clock + c.wait)), EventOf(c))
  }

  /** The machine, driven by these answers until the script is over. */
  function Play(job: Job, s: State, plan: seq<Cmd>): State
    decreases |plan|
  {
    if s.phase == Idle || plan == [] then s else Play(job, Step(job, s, plan[0]), plan[1..])
  }

  lemma PlayStep(job: Job, s: State, plan: seq<Cmd>)
    requires s.phase != Idle && plan != []
    ensures Play(job, s, plan) == Play(job, Step(job, s, plan[0]), plan[1..])
  {
  }

  lemma PlayOver(job: Job, s: State, plan: seq<Cmd>)
    requires s.phase == Idle
    ensures Play(job, s, plan) == s
  {
  }

  class Host {
    const job: Job
    var clock: nat
    var date: nat
    var daily: Dir
    var weekly: Dir
    var monthly: Dir
    var temp: Dir
    var stopped: Option<string>
    var current: Option<Key>
    ghost var written: set<Key>
    var stops: seq<string>
    var starts: seq<string>
    var trapBroken: bool
    var completed: set<nat>
    var late: nat

    constructor (job: Job)
      ensures this.job == job && View(Idle) == INIT
    {
      this.job := job;
      clock, date := 0, 0;
      daily, weekly, monthly, temp := map[], map[], map[], map[];
      stopped, current, written, stops, starts := None, None, {}, [], [];
      trapBroken, completed, late := false, {}, 0;
    }

    /** The machine's state, with this command to come next. */
    ghost function View(next: Phase): State
      reads this
    {
      State(clock, Disk(daily, weekly, monthly, temp), next, date, stopped, current, written, stops, starts,
            trapBroken, completed, late)
    }

    /** The state with this command to come next, or with the body of the loop finished for archive i. */
    ghost function Reached(next: Option<Phase>, i: nat): State
      reads this
    {
      if next.Some? then View(next.value) else Enter(job, View(Idle), i + 1)
    }

    // ---- the commands

    /** Time passes while a command runs. */
    method Wait(ghost p: Phase, c: Cmd)
      requires p != Idle
      modifies this`clock, this`late
      ensures View(p) == Apply(job, old(View(p)), Tick(old(clock) + c.wait))
    {
      clock := clock + c.wait;
      if clock / DAY != date { late := clock; }
    }

    method StopService(i: nat, c: Cmd) returns (next: Phase)
      requires i < |job.names| && job.names[i] in job.service
      modifies this`clock, this`late, this`stopped, this`stops
      ensures View(next) == Step(job, old(View(Phase.StopService(i))), c)
      ensures next == if c.dies then Idle else if c.ok then Phase.Write(i) else Phase.TrapRemove
    {
      Wait(Phase.StopService(i), c);
      if c.dies { return Idle; }
      if !c.ok { return Phase.TrapRemove; }
      stopped := Some(job.service[job.names[i]]);
      stops := stops + [job.service[job.names[i]]];
      next := Phase.Write(i);
    }

    method Write(i: nat, c: Cmd) returns (next: Phase)
      requires i < |job.names|
      modifies this`clock, this`late, this`temp, this`written
      ensures View(next) == Step(job, old(View(Phase.Write(i))), c)
      ensures next == if c.dies then Idle else if c.ok then Phase.StartService(i) else Phase.TrapRemove
    {
      Wait(Phase.Write(i), c);
      if c.left.Some? {
        temp := temp[Key(job.names[i], date) := Stamped(c.left.value, clock)];
        written := written + {Key(job.names[i], date)};
      }
      next := if c.dies then Idle else if c.ok then Phase.StartService(i) else Phase.TrapRemove;
    }

    /** The start attempt counts whether or not it succeeds. */
    method StartStopped()
      modifies this`stopped, this`starts
      ensures forall p :: View(p) == BackupJob.StartStopped(old(View(p)))
    {
      if stopped.Some? {
        starts := starts + [stopped.value];
        stopped := None;
      }
    }

    method StartService(i: nat, c: Cmd) returns (next: Phase)
      modifies this`clock, this`late, this`stopped, this`starts
      ensures View(next) == Step(job, old(View(Phase.StartService(i))), c)
      ensures next == if c.dies then Idle else Phase.Test(i)
    {
      Wait(Phase.StartService(i), c);
      if c.dies { return Idle; }
      StartStopped();
      next := Phase.Test(i);
    }

    method Test(i: nat, c: Cmd) returns (next: Phase)
      modifies this`clock, this`late
      ensures View(next) == Step(job, old(View(Phase.Test(i))), c)
      ensures next == if c.dies then Idle else if c.ok then Phase.Move(i) else Phase.TrapRemove
    {
      Wait(Phase.Test(i), c);
      next := if c.dies then Idle else if c.ok then Phase.Move(i) else Phase.TrapRemove;
    }

    /** mv, within the daily directory. */
    method Rename(k: Key)
      requires k in temp
      modifies this`daily, this`temp
      ensures daily == old(daily)[k := old(temp)[k]] && temp == old(temp) - {k}
    {
      daily := daily[k := temp[k]];
      temp := temp - {k};
    }

    method Move(i: nat, c: Cmd) returns (next: Option<Phase>)
      requires i < |job.names|
      modifies this`clock, this`late, this`daily, this`temp, this`current
      ensures Reached(next, i) == Step(job, old(View(Phase.Move(i))), c)
      ensures next in {None, Some(Phase.TrapRemove), Some(Idle), Some(Phase.ToWeekly(i))}
    {
      Wait(Phase.Move(i), c);
      var k := Key(job.names[i], date);
      if c.dies { return Some(Idle); }
      if !c.ok || k !in temp { return Some(Phase.TrapRemove); }
      Rename(k);
      current := None;
      next := if IsSunday(date) then Some(Phase.ToWeekly(i)) else None;
    }

    method ToWeekly(i: nat, c: Cmd) returns (next: Option<Phase>)
      requires i < |job.names|
      modifies this`clock, this`late, this`weekly
      ensures Reached(next, i) == Step(job, old(View(Phase.ToWeekly(i))), c)
      ensures next in {None, Some(Phase.TrapRemove), Some(Idle), Some(Phase.ToMonthly(i))}
    {
      Wait(Phase.ToWeekly(i), c);
      var k := Key(job.names[i], date);
      if c.ok && !c.dies {
        if k !in daily { return Some(Phase.TrapRemove); }
        weekly := weekly[k := Stamped(daily[k], clock)];
        return if DayOfMonth(date) <= 7 then Some(Phase.ToMonthly(i)) else None;
      }
      if c.left.Some? { weekly := weekly[k := Stamped(c.left.value, clock)]; }
      next := Some(if c.dies then Idle else Phase.TrapRemove);
    }

    method ToMonthly(i: nat, c: Cmd) returns (next: Option<Phase>)
      requires i < |job.names|
      modifies this`clock, this`late, this`monthly
      ensures Reached(next, i) == Step(job, old(View(Phase.ToMonthly(i))), c)
      ensures next in {None, Some(Phase.TrapRemove), Some(Idle)}
    {
      Wait(Phase.ToMonthly(i), c);
      var k := Key(job.names[i], date);
      if c.ok && !c.dies {
        if k !in daily { return Some(Phase.TrapRemove); }
        monthly := monthly[k := Stamped(daily[k], clock)];
        return None;
      }
      if c.left.Some? { monthly := monthly[k := Stamped(c.left.value, clock)]; }
      next := Some(if c.dies then Idle else Phase.TrapRemove);
    }

    method Delete(tier: Tier, gone: set<Key>)
      modifies this`daily, this`weekly, this`monthly
      ensures forall p :: View(p) == old(View(p)).(disk := Put(old(View(p)).disk, tier, Without(In(old(View(p)).disk, tier), gone)))
    {
      match tier {
        case Daily => daily := Without(daily, gone);
        case Weekly => weekly := Without(weekly, gone);
        case Monthly => monthly := Without(monthly, gone);
      }
    }

    /** The three finds: each deletes what it got round to, and a failing one ends the script. */
    method Rotate(tier: Tier, c: Cmd) returns (next: Phase)
      modifies this`clock, this`late, this`daily, this`weekly, this`monthly
      ensures View(next) == Step(job, old(View(Phase.Rotate(tier))), c)
      ensures next.Rotate? || next in {Phase.Sweep, Phase.TrapRemove, Idle}
    {
      Wait(Phase.Rotate(tier), c);
      Delete(tier, c.gone);
      if c.dies { return Idle; }
      next := if !c.ok then Phase.TrapRemove else match tier
              case Daily => Phase.Rotate(Weekly) case Weekly => Phase.Rotate(Monthly) case Monthly => Phase.Sweep;
    }

    method Sweep(c: Cmd) returns (next: Phase)
      modifies this`clock, this`late, this`temp, this`completed
      ensures View(next) == Step(job, old(View(Phase.Sweep)), c)
      ensures next == if c.dies then Idle else Phase.TrapRemove
    {
      Wait(Phase.Sweep, c);
      temp := Without(temp, c.gone);
      if c.dies { return Idle; }
      if c.ok { completed := completed + {date}; }
      next := Phase.TrapRemove;
    }

    method TrapRemove(c: Cmd) returns (next: Phase)
      modifies this`clock, this`late, this`temp, this`trapBroken
      ensures View(next) == Step(job, old(View(Phase.TrapRemove)), c)
      ensures next == if c.ok && !c.dies then Phase.TrapStart else Idle
    {
      Wait(Phase.TrapRemove, c);
      if c.dies { return Idle; }
      if !c.ok {
        trapBroken := true;
        return Idle;
      }
      if current.Some? { temp := temp - {current.value}; }
      next := Phase.TrapStart;
    }

    method TrapStart(c: Cmd)
      modifies this`clock, this`late, this`stopped, this`starts
      ensures View(Idle) == Step(job, old(View(Phase.TrapStart)), c)
    {
      Wait(Phase.TrapStart, c);
      if c.dies { return; }
      StartStopped();
    }

    // ---- the script

    /** The loop body for one archive, up to the archive's place in the daily directory. */
    method Archive(i: nat, plan: seq<Cmd>) returns (next: Option<Phase>, rest: seq<Cmd>)
      requires i < |job.names|
      modifies this
      ensures Play(job, old(View(First(job, i))), plan) == Play(job, Reached(next, i), rest)
      ensures next in {None, Some(Phase.TrapRemove), Some(Idle), Some(Phase.ToWeekly(i))} || (next.Some? && rest == [])
      ensures date == old(date)
    {
      rest := plan;
      var at := First(job, i);
      if job.names[i] in job.service {
        if rest == [] { return Some(at), rest; }
        PlayStep(job, View(at), rest);
        at := StopService(i, rest[0]);
        rest := rest[1..];
        if at in {Phase.TrapRemove, Idle} { return Some(at), rest; }
      }
      next, rest := Produce(i, rest);
    }

    method Produce(i: nat, plan: seq<Cmd>) returns (next: Option<Phase>, rest: seq<Cmd>)
      requires i < |job.names|
      modifies this
      ensures Play(job, old(View(Phase.Write(i))), plan) == Play(job, Reached(next, i), rest)
      ensures next in {None, Some(Phase.TrapRemove), Some(Idle), Some(Phase.ToWeekly(i))} || (next.Some? && rest == [])
      ensures date == old(date)
    {
      rest := plan;
      if rest == [] { return Some(Phase.Write(i)), rest; }
      PlayStep(job, View(Phase.Write(i)), rest);
      var at := Write(i, rest[0]);
      rest := rest[1..];
      if at in {Phase.TrapRemove, Idle} || rest == [] { return Some(at), rest; }
      PlayStep(job, View(at), rest);
      at := StartService(i, rest[0]);
      rest := rest[1..];
      if at == Idle || rest == [] { return Some(at), rest; }
      next, rest := Publish(i, rest);
    }

    method Publish(i: nat, plan: seq<Cmd>) returns (next: Option<Phase>, rest: seq<Cmd>)
      requires i < |job.names| && plan != []
      modifies this
      ensures Play(job, old(View(Phase.Test(i))), plan) == Play(job, Reached(next, i), rest)
      ensures next in {None, Some(Phase.TrapRemove), Some(Idle), Some(Phase.ToWeekly(i))} || (next.Some? && rest == [])
      ensures date == old(date)
    {
      PlayStep(job, View(Phase.Test(i)), plan);
      var at := Test(i, plan[0]);
      rest := plan[1..];
      if at in {Phase.TrapRemove, Idle} || rest == [] { return Some(at), rest; }
      PlayStep(job, View(at), rest);
      next := Move(i, rest[0]);
      rest := rest[1..];
    }

    /** The promotion of one archive, on the days that call for it. */
    method Promote(i: nat, plan: seq<Cmd>) returns (next: Option<Phase>, rest: seq<Cmd>)
      requires i < |job.names|
      modifies this
      ensures Play(job, old(View(Phase.ToWeekly(i))), plan) == Play(job, Reached(next, i), rest)
      ensures next in {None, Some(Phase.TrapRemove), Some(Idle)} || (next.Some? && rest == [])
      ensures date == old(date)
    {
      rest := plan;
      if rest == [] { return Some(Phase.ToWeekly(i)), rest; }
      PlayStep(job, View(Phase.ToWeekly(i)), rest);
      next := ToWeekly(i, rest[0]);
      rest := rest[1..];
      if next == Some(Phase.ToMonthly(i)) && rest != [] {
        PlayStep(job, View(Phase.ToMonthly(i)), rest);
        next := ToMonthly(i, rest[0]);
        rest := rest[1..];
      }
    }

    /** The loop over the archives. It ends early, with the trap or without, or else at the rotation. */
    method ArchiveAll(plan: seq<Cmd>) returns (next: Phase, rest: seq<Cmd>)
      modifies this
      ensures Play(job, Enter(job, old(View(Idle)), 0), plan) == Play(job, View(next), rest)
      ensures next in {Phase.Rotate(Daily), Phase.TrapRemove, Idle} || rest == []
    {
      rest := plan;
      var i := 0;
      while i < |job.names|
        invariant 0 <= i <= |job.names|
        invariant Play(job, Enter(job, old(View(Idle)), 0), plan) == Play(job, Enter(job, View(Idle), i), rest)
      {
        current := Some(Key(job.names[i], date));
        var at;
        at, rest := Archive(i, rest);
        if at == Some(Phase.ToWeekly(i)) {
          at, rest := Promote(i, rest);
        }
        if at.Some? { return at.value, rest; }
        i := i + 1;
      }
      current := None;
      next := Phase.Rotate(Daily);
    }

    method RotateAll(plan: seq<Cmd>) returns (next: Phase, rest: seq<Cmd>)
      modifies this
      ensures Play(job, old(View(Phase.Rotate(Daily))), plan) == Play(job, View(next), rest)
      ensures next in {Phase.TrapRemove, Idle} || rest == []
    {
      next, rest := Phase.Rotate(Daily), plan;
      while next.Rotate? && rest != []
        invariant next.Rotate? || next in {Phase.Sweep, Phase.TrapRemove, Idle}
        invariant Play(job, old(View(Phase.Rotate(Daily))), plan) == Play(job, View(next), rest)
        decreases |rest|
      {
        PlayStep(job, View(next), rest);
        next := Rotate(next.tier, rest[0]);
        rest := rest[1..];
      }
      if next == Phase.Sweep && rest != [] {
        PlayStep(job, View(next), rest);
        next := Sweep(rest[0]);
        rest := rest[1..];
      }
    }

    /** The exit trap; under `set -e` a failing rm keeps it from starting the service. */
    method Trap(plan: seq<Cmd>) returns (next: Phase)
      modifies this
      ensures View(next) == Play(job, old(View(Phase.TrapRemove)), plan)
    {
      if plan == [] { return Phase.TrapRemove; }
      PlayStep(job, View(Phase.TrapRemove), plan);
      next := TrapRemove(plan[0]);
      var rest := plan[1..];
      if next == Idle || rest == [] { return; }
      PlayStep(job, View(Phase.TrapStart), rest);
      TrapStart(rest[0]);
      next := Idle;
    }

    method Begin()
      modifies this`date, this`stopped, this`written, this`stops, this`starts, this`trapBroken
      ensures Enter(job, View(Idle), 0) == Apply(job, old(View(Idle)), Event.Begin)
    {
      date := clock / DAY;
      stopped, written, stops, starts, trapBroken := None, {}, [], [], false;
    }

    /** What follows the loop: the rotation, unless the loop ended early, and the exit trap. */
    method Finish(at: Phase, plan: seq<Cmd>) returns (next: Phase)
      requires at in {Phase.Rotate(Daily), Phase.TrapRemove, Idle} || plan == []
      modifies this
      ensures View(next) == Play(job, old(View(at)), plan)
    {
      var rest := plan;
      next := at;
      if next == Phase.Rotate(Daily) {
        next, rest := RotateAll(rest);
      }
      if next == Idle {
        PlayOver(job, View(Idle), rest);
        return;
      }
      if next == Phase.TrapRemove {
        next := Trap(rest);
      }
    }

    /** One invocation of the script: a run of the machine from `Begin`, command for command. */
    method Backup(plan: seq<Cmd>) returns (next: Phase)
      modifies this
      ensures View(next) == Play(job, Apply(job, old(View(Idle)), Event.Begin), plan)
    {
      Begin();
      var rest;
      next, rest := ArchiveAll(plan);
      next := Finish(next, rest);
    }
  }

  // ---- what is proved of the machine holds of the scripts

  /** Every answer is one the system can give at that point. */
  ghost predicate Answers(job: Job, s: State, plan: seq<Cmd>)
    decreases |plan|
  {
    s.phase == Idle || plan == [] ||
    (Enabled(job, Apply(job, s, Tick(s.clock + plan[0].wait)), EventOf(plan[0]))
     && Answers(job, Step(job, s, plan[0]), plan[1..]))
  }

  lemma StepIsTwoEvents(job: Job, run: seq<Event>, s: State, ticked: State, c: Cmd) returns (more: seq<Event>)
    requires Reaches(job, run, s) && ticked == Apply(job, s, Tick(s.clock + c.wait))
    requires Enabled(job, ticked, EventOf(c))
    ensures run <= more && Reaches(job, more, Apply(job, ticked, EventOf(c)))
  {
    var tick := Tick(s.clock + c.wait);
    assert Enabled(job, s, tick);
    ReachesNext(job, run, s, tick);
    ReachesNext(job, run + [tick], ticked, EventOf(c));
    more := run + [tick] + [EventOf(c)];
  }

  lemma AnswersStep(job: Job, s: State, plan: seq<Cmd>)
    requires Answers(job, s, plan) && s.phase != Idle && plan != []
    ensures Enabled(job, Apply(job, s, Tick(s.clock + plan[0].wait)), EventOf(plan[0]))
    ensures Answers(job, Step(job, s, plan[0]), plan[1..])
  {
  }

  lemma OneCommand(job: Job, run: seq<Event>, s: State, plan: seq<Cmd>) returns (more: seq<Event>, next: State)
    requires Reaches(job, run, s) && Answers(job, s, plan) && s.phase != Idle && plan != []
    ensures run <= more && Reaches(job, more, next)
    ensures Play(job, s, plan) == Play(job, next, plan[1..]) && Answers(job, next, plan[1..])
  {
    AnswersStep(job, s, plan);
    PlayStep(job, s, plan);
    more := StepIsTwoEvents(job, run, s, Apply(job, s, Tick(s.clock + plan[0].wait)), plan[0]);
    next := Step(job, s, plan[0]);
  }

  /** A played script is a legal run, so every guarantee about runs is one about the script. */
  lemma {:induction false} PlayIsARun(job: Job, run: seq<Event>, s: State, plan: seq<Cmd>) returns (all: seq<Event>)
    requires Reaches(job, run, s) && Answers(job, s, plan)
    ensures run <= all && Reaches(job, all, Play(job, s, plan))
    decreases |plan|
  {
    if s.phase == Idle || plan == [] {
      all := run;
    } else {
      var more, next := OneCommand(job, run, s, plan);
      all := PlayIsARun(job, more, next, plan[1..]);
    }
  }
}
