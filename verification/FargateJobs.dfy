/** Cloud scrapes (`pipelines/cloud_scrape_trigger.py`, `pipelines/inflight_fargate_jobs.py`): a job is
    launched, recorded, waited for, loaded and cleared, and a process that dies in between leaves the
    record for the next one to resume. */
module FargateJobs {
  import opened Wrappers

  type RunId = nat
  type WatcherId = nat

  /** A stored record: usable, parsed but incomplete, or not even parsed. */
  datatype Payload = Usable | Incomplete | Unparseable

  /** Where a call of `run_cloud_scrape` (fresh) or `resume_inflight_fargate_job` is with its job. */
  datatype Pc = Recording | Waiting | Loading | Reporting | Clearing | Unwinding | LateReporting

  datatype Watcher = Watcher(job: RunId, launched: bool, payload: Payload, pc: Pc)

  /** `records` is the durable hash; `loaded` and `alerted` are the jobs with a successful load and with
      an alert. `known`, `recorded` and `exitedZero` are the jobs ever launched, ever recorded, and seen
      to stop with exit code 0. */
  datatype State = State(
    records: map<RunId, Payload>, loaded: set<RunId>, alerted: set<RunId>,
    known: set<RunId>, recorded: set<RunId>, exitedZero: set<RunId>, watchers: map<WatcherId, Watcher>)

  datatype Step =
    | Launch(w: WatcherId, job: RunId)
    | Refuse(job: RunId)
    | Record(w: WatcherId, ok: bool)
    | Resume(w: WatcherId, job: RunId)
    | Stop(w: WatcherId, exitCode: Option<int>)
    | Load(w: WatcherId, ok: bool)
    | Raise(w: WatcherId)
    | Report(w: WatcherId)
    | Clear(w: WatcherId, ok: bool)
    | ReportLate(w: WatcherId)
    | Crash

  // ---------------------------------------------------------------------------------------------
  // The steps; one that is not enabled changes nothing
  // ---------------------------------------------------------------------------------------------

  predicate At(s: State, w: WatcherId, pc: Pc) {
    w in s.watchers && s.watchers[w].pc == pc
  }

  function Move(s: State, w: WatcherId, pc: Pc): State
    requires w in s.watchers
  {
    s.(watchers := s.watchers[w := s.watchers[w].(pc := pc)])
  }

  function Leave(s: State, w: WatcherId): State {
    s.(watchers := s.watchers - {w})
  }

  function Do(s: State, step: Step): State {
    match step
    case Launch(w, job) =>
      if w in s.watchers || job in s.known then s
      else s.(known := s.known + {job}, watchers := s.watchers[w := Watcher(job, true, Usable, Recording)])
    case Refuse(job) =>  // the launch failed: there is no task to watch, and an alert at once
      if job in s.known then s else s.(known := s.known + {job}, alerted := s.alerted + {job})
    case Record(w, ok) =>
      if !At(s, w, Recording) then s
      else
        var job := s.watchers[w].job;
        var waiting := Move(s, w, Waiting);
        if ok then waiting.(records := s.records[job := Usable], recorded := s.recorded + {job}) else waiting
    case Resume(w, job) =>
      if w in s.watchers || job !in s.records || s.records[job] == Unparseable then s
      else s.(watchers := s.watchers[w := Watcher(job, false, s.records[job], Waiting)])
    case Stop(w, exitCode) =>
      if !At(s, w, Waiting) || s.watchers[w].payload != Usable then s
      else if exitCode != Some(0) then Move(s, w, Reporting)
      else Move(s, w, Loading).(exitedZero := s.exitedZero + {s.watchers[w].job})
    case Load(w, ok) =>
      if !At(s, w, Loading) then s
      else if ok then Move(s, w, Clearing).(loaded := s.loaded + {s.watchers[w].job})
      else Move(s, w, Reporting)
    case Raise(w) =>  // a fresh run clears in its inner `finally` before its outer handler alerts
      if !At(s, w, Waiting) && !At(s, w, Loading) then s
      else Move(s, w, if s.watchers[w].launched then Unwinding else Reporting)
    case Report(w) =>
      if At(s, w, Reporting) then Move(s, w, Clearing).(alerted := s.alerted + {s.watchers[w].job}) else s
    case Clear(w, ok) =>
      if !At(s, w, Clearing) && !At(s, w, Unwinding) then s
      else
        var cleared := if ok then s.(records := s.records - {s.watchers[w].job}) else s;
        if At(s, w, Clearing) then Leave(cleared, w) else Move(cleared, w, LateReporting)
    case ReportLate(w) =>
      if At(s, w, LateReporting) then Leave(s, w).(alerted := s.alerted + {s.watchers[w].job}) else s
    case Crash => s.(watchers := map[])
  }

  function Run(s: State, steps: seq<Step>): State
    decreases |steps|
  {
    if steps == [] then s else Run(Do(s, steps[0]), steps[1..])
  }

  // ---------------------------------------------------------------------------------------------
  // What is never lost
  // ---------------------------------------------------------------------------------------------

  predicate Settled(s: State, job: RunId) {
    job in s.loaded || job in s.alerted
  }

  predicate HasLateReport(s: State, job: RunId) {
    exists w <- s.watchers :: s.watchers[w].job == job && s.watchers[w].pc == LateReporting
  }

  /** Once recorded, a job is still recorded, was loaded, was alerted, or is about to be alerted. */
  predicate Kept(s: State, job: RunId) {
    job in s.records || Settled(s, job) || HasLateReport(s, job)
  }

  predicate Inv(s: State) {
    && s.records.Keys <= s.recorded <= s.known
    && s.loaded <= s.exitedZero
    && (forall w <- s.watchers :: s.watchers[w].job in s.known)
    && (forall w <- s.watchers :: s.watchers[w].pc == Clearing ==> Settled(s, s.watchers[w].job))
    && (forall w <- s.watchers :: s.watchers[w].pc == Loading ==> s.watchers[w].job in s.exitedZero)
  }

  predicate AllKept(s: State) {
    forall job <- s.recorded :: Kept(s, job)
  }

  lemma StepKeepsInv(s: State, step: Step)
    requires Inv(s)
    ensures Inv(Do(s, step))
  {
  }

  /** No step but a crash loses a job. */
  lemma StepKeepsJobs(s: State, step: Step)
    requires Inv(s) && AllKept(s) && step != Crash
    ensures AllKept(Do(s, step))
  {
    var s' := Do(s, step);
    forall job <- s'.recorded
      ensures Kept(s', job)
    {
      if job in s.recorded && !Settled(s, job) && HasLateReport(s, job) {
        var late :| late in s.watchers && s.watchers[late].job == job && s.watchers[late].pc == LateReporting;
        if step != ReportLate(late) {
          assert late in s'.watchers && s'.watchers[late] == s.watchers[late];
        }
      } else if step.Clear? && At(s, step.w, Unwinding) && s.watchers[step.w].job == job {
        assert s'.watchers[step.w].job == job && s'.watchers[step.w].pc == LateReporting;
      }
    }
  }

  /** A recorded job that only a late report still keeps: a fresh run raised, its `finally` has cleared
      the record, and its outer handler has not alerted yet. */
  predicate OnlyReportLeft(s: State, job: RunId) {
    job in s.recorded && job !in s.records && !Settled(s, job) && HasLateReport(s, job)
  }

  predicate InWindow(s: State) {
    exists job <- s.recorded :: OnlyReportLeft(s, job)
  }

  predicate CrashesInWindow(s: State, steps: seq<Step>)
    decreases |steps|
  {
    steps != [] && ((steps[0] == Crash && InWindow(s)) || CrashesInWindow(Do(s, steps[0]), steps[1..]))
  }

  /** Nothing watches or records the job any more, and nobody was told. */
  predicate Gone(s: State, job: RunId) {
    && job in s.recorded && job !in s.records && !Settled(s, job)
    && forall w <- s.watchers :: s.watchers[w].job != job
  }

  lemma GoneStays(s: State, step: Step, job: RunId)
    requires Inv(s) && Gone(s, job)
    ensures Gone(Do(s, step), job)
  {
  }

  lemma {:induction false} GoneForGood(s: State, steps: seq<Step>, job: RunId)
    requires Inv(s) && Gone(s, job)
    ensures Gone(Run(s, steps), job) && !Kept(Run(s, steps), job)
    decreases |steps|
  {
    if steps != [] {
      StepKeepsInv(s, steps[0]);
      GoneStays(s, steps[0], job);
      GoneForGood(Do(s, steps[0]), steps[1..], job);
    }
  }

  /** Over every run of any number of fresh and resumed watchers, with calls to Redis failing and
      processes dying anywhere: no recorded job is lost if and only if no crash hits a fresh run
      between clearing its record and alerting. */
  lemma {:induction false} JobsAreLostExactlyInTheWindow(s: State, steps: seq<Step>)
    requires Inv(s) && AllKept(s)
    ensures Inv(Run(s, steps))
    ensures AllKept(Run(s, steps)) <==> !CrashesInWindow(s, steps)
    decreases |steps|
  {
    if steps != [] {
      var next := Do(s, steps[0]);
      StepKeepsInv(s, steps[0]);
      if steps[0] != Crash {
        StepKeepsJobs(s, steps[0]);
        JobsAreLostExactlyInTheWindow(next, steps[1..]);
      } else if InWindow(s) {
        var job :| job in s.recorded && OnlyReportLeft(s, job);
        RunKeepsInv(next, steps[1..]);
        GoneForGood(next, steps[1..], job);
        RecordedStays(next, steps[1..], job);
      } else {
        forall job <- next.recorded
          ensures Kept(next, job)
        {
          assert Kept(s, job) && !OnlyReportLeft(s, job);
        }
        JobsAreLostExactlyInTheWindow(next, steps[1..]);
      }
    }
  }

  lemma {:induction false} RunKeepsInv(s: State, steps: seq<Step>)
    requires Inv(s)
    ensures Inv(Run(s, steps))
    decreases |steps|
  {
    if steps != [] {
      StepKeepsInv(s, steps[0]);
      RunKeepsInv(Do(s, steps[0]), steps[1..]);
    }
  }

  lemma {:induction false} RecordedStays(s: State, steps: seq<Step>, job: RunId)
    requires job in s.recorded
    ensures job in Run(s, steps).recorded
    decreases |steps|
  {
    if steps != [] {
      RecordedStays(Do(s, steps[0]), steps[1..], job);
    }
  }

  /** In every reachable state, a job was loaded only after its task was seen to stop with exit code 0. */
  lemma LoadsOnlyAfterExitZero(s: State, steps: seq<Step>)
    requires Inv(s)
    ensures Run(s, steps).loaded <= Run(s, steps).exitedZero
  {
    RunKeepsInv(s, steps);
  }

  const IDLE := State(map[], {}, {}, {}, {}, {}, map[])

  /** A job that a fresh run launched and recorded, and is waiting for. */
  function WaitingFor(job: RunId): State {
    State(map[job := Usable], {}, {}, {job}, {job}, {}, map[0 := Watcher(job, true, Usable, Waiting)])
  }

  /** The window is real: an exception while waiting, then a crash. */
  lemma OneJobCanBeLost(job: RunId)
    ensures Do(Do(IDLE, Launch(0, job)), Record(0, true)) == WaitingFor(job)
    ensures !Kept(Run(WaitingFor(job), [Raise(0), Clear(0, true), Crash]), job)
  {
    var s1 := Do(WaitingFor(job), Raise(0));
    var s2 := Do(s1, Clear(0, true));
    assert Run(s2, [Crash]) == Run(Do(s2, Crash), []);
    assert [Clear(0, true), Crash][1..] == [Crash];
    assert [Raise(0), Clear(0, true), Crash][1..] == [Clear(0, true), Crash];
  }

  // ---------------------------------------------------------------------------------------------
  // The code that takes the steps
  // ---------------------------------------------------------------------------------------------

  datatype Outcome = Success | Failure

  /** What one poll of a task sees: an exception, a task not stopped yet, or how it stopped. */
  datatype Seen = Raised | Running | Stopped(exitCode: Option<int>)

  /** What the polls of one wait see, and the clock at each. One at least falls past the deadline. */
  datatype Polls = Polls(seen: seq<Seen>, clock: seq<int>, maxWait: nat) {
    predicate PastDeadline() {
      |seen| == |clock| > 0 && clock[|clock| - 1] >= clock[0] + maxWait
    }

    /** The wait ends at poll `last`: no earlier poll gave it a reason to, and this one does. */
    predicate EndAt(last: nat)
      requires PastDeadline()
    {
      && last < |seen|
      && (forall j :: 0 <= j < last ==> seen[j] == Running && clock[j] < clock[0] + maxWait)
      && (seen[last] == Running ==> clock[last] >= clock[0] + maxWait)
    }
  }

  /** How a load ends. */
  datatype LoadEnd = Loads | LoadFails | LoadRaises

  class CloudScraper {
    /** No call to Redis fails. */
    const redisAnswers: bool
    /** Redis, RDS and Slack. */
    var records: map<RunId, Payload>
    var loaded: set<RunId>
    var alerted: set<RunId>
    ghost var known: set<RunId>
    ghost var recorded: set<RunId>
    ghost var exitedZero: set<RunId>
    /** Every call's place in its protocol. */
    ghost var watchers: map<WatcherId, Watcher>

    constructor (redisAnswers: bool)
      ensures this.redisAnswers == redisAnswers && Contents() == IDLE
    {
      this.redisAnswers := redisAnswers;
      records, loaded, alerted, known, recorded, exitedZero, watchers := map[], {}, {}, {}, {}, {}, map[];
    }

    ghost function Contents(): State
      reads this
    {
      State(records, loaded, alerted, known, recorded, exitedZero, watchers)
    }

    /** The ghost part of a step. */
    ghost method Sync(s: State)
      requires s.records == records && s.loaded == loaded && s.alerted == alerted
      modifies this`known, this`recorded, this`exitedZero, this`watchers
      ensures Contents() == s
    {
      known, recorded, exitedZero, watchers := s.known, s.recorded, s.exitedZero, s.watchers;
    }

    ghost predicate Watches(w: WatcherId, job: RunId, pc: Pc)
      reads this
    {
      At(Contents(), w, pc) && watchers[w].job == job
    }

    /** `record_started`: best effort. */
    method RecordStarted(job: RunId, ghost w: WatcherId) returns (ghost ok: bool)
      requires Watches(w, job, Recording)
      modifies this
      ensures Contents() == Do(old(Contents()), Record(w, ok))
      ensures redisAnswers ==> ok
    {
      var failed: bool := *;
      ok := !failed || redisAnswers;
      ghost var s := Do(Contents(), Record(w, ok));
      if !failed || redisAnswers {
        records := records[job := Usable];
      }
      Sync(s);
    }

    /** `clear`: best effort. */
    method ClearRecord(job: RunId, ghost w: WatcherId) returns (ghost ok: bool)
      requires Watches(w, job, Clearing) || Watches(w, job, Unwinding)
      modifies this
      ensures Contents() == Do(old(Contents()), Clear(w, ok))
      ensures redisAnswers ==> ok
    {
      var failed: bool := *;
      ok := !failed || redisAnswers;
      ghost var s := Do(Contents(), Clear(w, ok));
      if !failed || redisAnswers {
        records := records - {job};
      }
      Sync(s);
    }

    /** `_alert_scrape_failure`, from inside the run or, `late`, from its outer handler. */
    method AlertFailure(job: RunId, ghost w: WatcherId, ghost late: bool)
      requires Watches(w, job, if late then LateReporting else Reporting)
      modifies this
      ensures Contents() == Do(old(Contents()), if late then ReportLate(w) else Report(w))
      ensures alerted == old(alerted) + {job}
    {
      ghost var s := Do(Contents(), if late then ReportLate(w) else Report(w));
      alerted := alerted + {job};
      Sync(s);
    }

    /** `_run_load` that returns. */
    method RunLoad(job: RunId, ok: bool, ghost w: WatcherId)
      requires Watches(w, job, Loading)
      modifies this
      ensures Contents() == Do(old(Contents()), Load(w, ok))
      ensures loaded == if ok then old(loaded) + {job} else old(loaded)
    {
      ghost var s := Do(Contents(), Load(w, ok));
      if ok {
        loaded := loaded + {job};
      }
      Sync(s);
    }

    /** `_wait_for_task_stop`: polls until the task has stopped, or gives up at the first poll past the
        deadline, which counts as a stop without an exit code. */
    static method WaitForTaskStop(p: Polls) returns (ending: Seen, last: nat)
      requires p.PastDeadline()
      ensures p.EndAt(last)
      ensures forall j :: 0 <= j < last ==> p.seen[j] == Running && p.clock[j] < p.clock[0] + p.maxWait
      ensures p.seen[last] != Running ==> ending == p.seen[last]
      ensures p.seen[last] == Running ==> ending == Stopped(None) && p.clock[last] >= p.clock[0] + p.maxWait
    {
      var deadline := p.clock[0] + p.maxWait;
      last := 0;
      while true
        invariant last < |p.seen|
        invariant forall j :: 0 <= j < last ==> p.seen[j] == Running && p.clock[j] < deadline
        decreases |p.seen| - last
      {
        if p.seen[last] != Running {
          return p.seen[last], last;
        }
        if p.clock[last] >= deadline {
          return Stopped(None), last;
        }
        last := last + 1;
      }
    }

    /** `_finish_after_launch`: wait, load, alert. `result` is None when it raised. */
    method FinishAfterLaunch(job: RunId, payload: Payload, polls: Polls, load: LoadEnd, ghost w: WatcherId)
      returns (result: Option<bool>, last: nat, ghost steps: seq<Step>)
      requires Watches(w, job, Waiting) && watchers[w].payload == payload && polls.PastDeadline()
      modifies this
      ensures Contents() == Run(old(Contents()), steps)
      ensures polls.EndAt(last)
      ensures payload == Usable && polls.seen[last] == Stopped(Some(0)) && load == Loads ==>
                result == Some(true) && loaded == old(loaded) + {job} && alerted == old(alerted)
      ensures payload == Usable && polls.seen[last] == Stopped(Some(0)) && load == LoadFails ==>
                result == Some(false) && loaded == old(loaded) && alerted == old(alerted) + {job}
      ensures payload == Usable && polls.seen[last] != Stopped(Some(0)) && polls.seen[last] != Raised ==>
                result == Some(false) && loaded == old(loaded) && alerted == old(alerted) + {job}
      ensures payload != Usable || polls.seen[last] == Raised || (polls.seen[last] == Stopped(Some(0)) && load == LoadRaises) ==>
                result == None && loaded == old(loaded) && alerted == old(alerted)
      ensures result.Some? ==> Watches(w, job, Clearing)
      ensures result.None? ==> Watches(w, job, Waiting) || Watches(w, job, Loading)
      ensures records == old(records) && recorded == old(recorded)
      ensures w in watchers && watchers[w].launched == old(watchers[w].launched)
    {
      steps := [];
      var ending;
      ending, last := WaitForTaskStop(polls);
      if ending == Raised || payload != Usable {  // a record that lacks a field raises before the wait
        return None, last, steps;
      }
      ghost var start := Contents();
      RunThen(start, steps, Stop(w, ending.exitCode));
      steps := steps + [Stop(w, ending.exitCode)];
      Sync(Do(Contents(), Stop(w, ending.exitCode)));
      if ending.exitCode == Some(0) {
        if load == LoadRaises {
          return None, last, steps;
        }
        RunLoad(job, load == Loads, w);
        RunThen(start, steps, Load(w, load == Loads));
        steps := steps + [Load(w, load == Loads)];
        if load == Loads {
          return Some(true), last, steps;
        }
      }
      AlertFailure(job, w, false);
      RunThen(start, steps, Report(w));
      steps := steps + [Report(w)];
      result := Some(false);
    }

    /** `run_cloud_scrape`: its `finally` clears, then its outer handler alerts. It succeeds exactly when
        the launch, the task and the load all do, and every other job ends with an alert. */
    method RunCloudScrape(job: RunId, launches: bool, polls: Polls, load: LoadEnd, ghost w: WatcherId)
      returns (outcome: Outcome, last: nat, ghost steps: seq<Step>)
      requires w !in watchers && job !in known && polls.PastDeadline()
      modifies this
      ensures Contents() == Run(old(Contents()), steps)
      ensures launches ==> polls.EndAt(last)
      ensures launches && polls.seen[last] == Stopped(Some(0)) && load == Loads ==>
                outcome == Success && loaded == old(loaded) + {job} && alerted == old(alerted)
      ensures !launches || polls.seen[last] != Stopped(Some(0)) || load != Loads ==>
                outcome == Failure && loaded == old(loaded) && alerted == old(alerted) + {job}
      ensures !launches ==> records == old(records) && recorded == old(recorded)
      ensures redisAnswers && launches ==> recorded == old(recorded) + {job} && records == old(records) - {job}
    {
      ghost var start := Contents();
      if !launches {
        steps := RefuseLaunch(job);
        return Failure, 0, steps;
      }
      steps := LaunchAndRecord(job, w);
      var result;
      ghost var tail;
      result, last, tail := FinishAfterLaunch(job, Usable, polls, load, w);
      RunBoth(start, steps, tail);
      steps := steps + tail;
      tail := EndLaunched(job, result, w);
      RunBoth(start, steps, tail);
      steps := steps + tail;
      outcome := if result == Some(true) then Success else Failure;
    }

    /** A launch that failed is alerted at once. */
    method RefuseLaunch(job: RunId) returns (ghost steps: seq<Step>)
      requires job !in known
      modifies this
      ensures Contents() == Run(old(Contents()), steps)
      ensures alerted == old(alerted) + {job} && loaded == old(loaded) && records == old(records) && recorded == old(recorded)
    {
      ghost var start := Contents();
      RunThen(start, [], Refuse(job));
      steps := [] + [Refuse(job)];
      alerted := alerted + {job};
      Sync(Do(start, Refuse(job)));
    }

    method LaunchAndRecord(job: RunId, ghost w: WatcherId) returns (ghost steps: seq<Step>)
      requires w !in watchers && job !in known
      modifies this
      ensures Contents() == Run(old(Contents()), steps)
      ensures Watches(w, job, Waiting) && watchers[w].payload == Usable && watchers[w].launched
      ensures redisAnswers ==> recorded == old(recorded) + {job} && records == old(records)[job := Usable]
      ensures loaded == old(loaded) && alerted == old(alerted)
    {
      ghost var start := Contents();
      RunThen(start, [], Launch(w, job));
      Sync(Do(start, Launch(w, job)));
      ghost var ok := RecordStarted(job, w);
      RunThen(start, [Launch(w, job)], Record(w, ok));
      steps := [Launch(w, job)] + [Record(w, ok)];
      assert [] + [Launch(w, job)] == [Launch(w, job)];
    }

    /** The inner `finally`, and then the outer handler of a run that raised. */
    method EndLaunched(job: RunId, result: Option<bool>, ghost w: WatcherId) returns (ghost steps: seq<Step>)
      requires w in watchers && watchers[w].launched
      requires if result.Some? then Watches(w, job, Clearing) else Watches(w, job, Waiting) || Watches(w, job, Loading)
      modifies this
      ensures Contents() == Run(old(Contents()), steps) && loaded == old(loaded) && recorded == old(recorded)
      ensures alerted == if result.None? then old(alerted) + {job} else old(alerted)
      ensures redisAnswers ==> records == old(records) - {job}
    {
      ghost var start := Contents();
      steps := [];
      if result == None {
        RunThen(start, [], Raise(w));
        steps := [] + [Raise(w)];
        Sync(Do(Contents(), Raise(w)));
      }
      ghost var ok := ClearRecord(job, w);
      RunThen(start, steps, Clear(w, ok));
      steps := steps + [Clear(w, ok)];
      if result == None {
        AlertFailure(job, w, true);
        RunThen(start, steps, ReportLate(w));
        steps := steps + [ReportLate(w)];
      }
    }

    /** `resume_inflight_fargate_job`: its handler alerts, then its `finally` clears. */
    method ResumeJob(job: RunId, payload: Payload, polls: Polls, load: LoadEnd, ghost w: WatcherId)
      returns (outcome: Outcome, last: nat, ghost steps: seq<Step>)
      requires Watches(w, job, Waiting) && watchers[w].payload == payload && !watchers[w].launched && polls.PastDeadline()
      modifies this
      ensures Contents() == Run(old(Contents()), steps)
      ensures polls.EndAt(last)
      ensures payload == Usable && polls.seen[last] == Stopped(Some(0)) && load == Loads ==>
                outcome == Success && loaded == old(loaded) + {job} && alerted == old(alerted)
      ensures payload != Usable || polls.seen[last] != Stopped(Some(0)) || load != Loads ==>
                outcome == Failure && loaded == old(loaded) && alerted == old(alerted) + {job}
      ensures redisAnswers ==> records == old(records) - {job}
    {
      ghost var start := Contents();
      var result;
      result, last, steps := FinishAfterLaunch(job, payload, polls, load, w);
      if result == None {
        RunThen(start, steps, Raise(w));
        steps := steps + [Raise(w)];
        Sync(Do(Contents(), Raise(w)));
        AlertFailure(job, w, false);
        RunThen(start, steps, Report(w));
        steps := steps + [Report(w)];
      }
      ghost var clearOk := ClearRecord(job, w);
      RunThen(start, steps, Clear(w, clearOk));
      steps := steps + [Clear(w, clearOk)];
      outcome := if result == Some(true) then Success else Failure;
    }

    /** `list_inflight` and `reconcile_inflight_fargate_jobs`: one new watcher for every record that can be
        parsed, none when the hash could not be read. */
    method ReconcileInflightJobs(next: WatcherId) returns (listed: bool, ghost steps: seq<Step>)
      requires forall w <- watchers :: w < next
      modifies this`known, this`recorded, this`exitedZero, this`watchers
      ensures Contents() == Run(old(Contents()), steps)
      ensures redisAnswers ==> listed
      ensures listed ==> forall job <- records :: records[job] != Unparseable ==>
                exists w <- watchers :: w !in old(watchers) && watchers[w] == Watcher(job, false, records[job], Waiting)
      ensures forall w <- watchers.Keys - old(watchers).Keys :: watchers[w].job in records && records[watchers[w].job] != Unparseable
      ensures forall v, w | v in watchers && w in watchers && v !in old(watchers) && w !in old(watchers) && v != w :: watchers[v].job != watchers[w].job
      ensures forall w <- old(watchers) :: w in watchers && watchers[w] == old(watchers[w])
    {
      steps := [];
      var answered: bool := *;
      listed := answered || redisAnswers;
      if !listed {
        return;
      }
      ghost var start := Contents();
      var left, w := records.Keys, next;
      while left != {}
        invariant left <= records.Keys && next <= w && forall v <- watchers :: v < w
        invariant Contents() == Run(start, steps)
        invariant forall job <- records.Keys - left :: records[job] != Unparseable ==>
                    exists v <- watchers :: v !in old(watchers) && watchers[v] == Watcher(job, false, records[job], Waiting)
        invariant forall v <- old(watchers) :: v in watchers && watchers[v] == old(watchers[v])
        invariant forall v <- watchers :: v in old(watchers) || (watchers[v].job in records.Keys - left && records[watchers[v].job] != Unparseable)
        invariant forall u, v | u in watchers && v in watchers && u !in old(watchers) && v !in old(watchers) && u != v :: watchers[u].job != watchers[v].job
        decreases left
      {
        var job :| job in left;
        left := left - {job};
        if records[job] != Unparseable {
          RunThen(start, steps, Resume(w, job));
          steps := steps + [Resume(w, job)];
          ghost var before := watchers;
          Sync(Do(Contents(), Resume(w, job)));
          assert watchers == before[w := Watcher(job, false, records[job], Waiting)];
          forall j | j in records.Keys - left && records[j] != Unparseable
            ensures exists v <- watchers :: v !in old(watchers) && watchers[v] == Watcher(j, false, records[j], Waiting)
          {
            if j == job {
              assert w !in old(watchers) && watchers[w] == Watcher(j, false, records[j], Waiting);
            } else {
              var v :| v in before && v !in old(watchers) && before[v] == Watcher(j, false, records[j], Waiting);
              assert watchers[v] == before[v];
            }
          }
          w := w + 1;
        }
      }
    }
  }

  lemma {:induction false} RunThen(s: State, steps: seq<Step>, step: Step)
    ensures Run(s, steps + [step]) == Do(Run(s, steps), step)
    decreases |steps|
  {
    if steps == [] {
      assert steps + [step] == [step];
      assert Run(s, [step]) == Run(Do(s, step), []);
    } else {
      RunThen(Do(s, steps[0]), steps[1..], step);
      assert (steps + [step])[1..] == steps[1..] + [step];
    }
  }

  lemma {:induction false} RunBoth(s: State, one: seq<Step>, two: seq<Step>)
    ensures Run(s, one + two) == Run(Run(s, one), two)
    decreases |one|
  {
    if one == [] {
      assert one + two == two;
    } else {
      RunBoth(Do(s, one[0]), one[1..], two);
      assert (one + two)[1..] == one[1..] + two;
    }
  }
}
