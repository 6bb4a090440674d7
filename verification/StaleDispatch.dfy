/** Tracked LegBot dispatches (`pipelines/bill_artifact_generation.py`): the dispatcher records its task
    before it polls, forgets it once it has handled the outcome, and a sweep resolves the tasks whose
    dispatcher died. */
module StaleDispatch {
  import opened Wrappers

  type TaskId = nat
  type Time = int

  // ---------------------------------------------------------------------------------------------
  // Resolving one stale task
  // ---------------------------------------------------------------------------------------------

  /** A CAMS status; `Active` stands for queued, running and every status the code does not know. */
  datatype Status = Completed | FailedTask | Cancelled | Active

  /** What asking CAMS about a task gives; no answer stands for every failure but a 404. */
  datatype Reply = NoAnswer | NotFound | Reports(status: Status)

  /** What CAMS left on disk for a completed task: nothing readable, an answer that is no answer, or an
      answer, which either says enough for a changelog or does not. */
  datatype Result = Unreadable | Malformed | Answer(sufficient: bool)

  /** The terminal row of a dispatch. */
  datatype Row = CompleteRow | FailedRow

  datatype Resolution = LeftTracked | Recovered(row: Row) | MarkedFailed

  predicate Over(reply: Reply) {
    reply.NotFound? || (reply.Reports? && reply.status != Active)
  }

  /** What one sweep makes of a stale task. */
  function Resolve(reply: Reply, result: Result, writeOk: bool): Resolution {
    if !writeOk then LeftTracked
    else
      match reply
      case NoAnswer => LeftTracked
      case NotFound => MarkedFailed
      case Reports(Active) => LeftTracked
      case Reports(Completed) =>
        (match result
         case Answer(sufficient) => Recovered(if sufficient then CompleteRow else FailedRow)
         case _ => MarkedFailed)
      case Reports(_) => MarkedFailed
  }

  // ---------------------------------------------------------------------------------------------
  // The protocol
  // ---------------------------------------------------------------------------------------------

  datatype Pc = Created | Polling | Writing | CleaningUp

  /** `tracked` is Redis, with each record's dispatch time (none when it is not a valid one); `cams` the
      tasks CAMS knows; `rows` the terminal rows written for a dispatch; `handled` the tasks whose own
      dispatcher reached the end of its outcome; `everTracked` all tasks that were ever recorded. */
  datatype State = State(
    tracked: map<TaskId, Option<Time>>, cams: map<TaskId, Status>, rows: map<TaskId, Row>,
    dispatchers: map<TaskId, Pc>, handled: set<TaskId>, everTracked: set<TaskId>, failedBySweep: set<TaskId>)

  datatype Step =
    | Dispatch(t: TaskId)
    | Track(t: TaskId, at: Time, ok: bool)
    | CamsFinishes(t: TaskId, status: Status)
    | CamsForgets(t: TaskId)
    | PollEnds(t: TaskId, answered: bool)
    | WriteRow(t: TaskId, result: Result, ok: bool)
    | CleanUp(t: TaskId, ok: bool)
    | DispatcherDies(t: TaskId)
    | Sweep(t: TaskId, now: Time, staleAfter: Time, reachable: bool, result: Result, writeOk: bool, deleteOk: bool)

  predicate At(s: State, t: TaskId, pc: Pc) {
    t in s.dispatchers && s.dispatchers[t] == pc
  }

  function Move(s: State, t: TaskId, pc: Pc): State {
    s.(dispatchers := s.dispatchers[t := pc])
  }

  function Leave(s: State, t: TaskId): State {
    s.(dispatchers := s.dispatchers - {t})
  }

  predicate Stale(s: State, t: TaskId, now: Time, staleAfter: Time) {
    t in s.tracked && s.tracked[t].Some? && now - s.tracked[t].value >= staleAfter
  }

  function CamsReply(s: State, t: TaskId, reachable: bool): Reply {
    if !reachable then NoAnswer else if t in s.cams then Reports(s.cams[t]) else NotFound
  }

  /** The effect of a step; one that is not enabled changes nothing. */
  function Do(s: State, step: Step): State {
    match step
    case Dispatch(t) =>
      if t in s.cams || t in s.dispatchers || t in s.everTracked || t in s.rows then s  // CAMS gives a new id
      else s.(cams := s.cams[t := Active], dispatchers := s.dispatchers[t := Created])
    case Track(t, at, ok) =>
      if !At(s, t, Created) then s
      else if ok then Move(s, t, Polling).(tracked := s.tracked[t := Some(at)], everTracked := s.everTracked + {t})
      else Move(s, t, Polling)
    case CamsFinishes(t, status) =>
      if t in s.cams && s.cams[t] == Active then s.(cams := s.cams[t := status]) else s
    case CamsForgets(t) => s.(cams := s.cams - {t})
    case PollEnds(t, answered) =>
      if !At(s, t, Polling) || (answered && !(t in s.cams && s.cams[t] == Completed)) then s
      else Move(s, t, if answered then Writing else CleaningUp)
    case WriteRow(t, result, ok) =>
      if !At(s, t, Writing) then s
      else if !result.Answer? then Move(s, t, CleaningUp)
      else if ok then Move(s, t, CleaningUp).(rows := s.rows[t := if result.sufficient then CompleteRow else FailedRow])
      else Leave(s, t)  // the write failed: the record is kept for a sweep to retry it
    case CleanUp(t, ok) =>
      if !At(s, t, CleaningUp) then s
      else
        var done := Leave(s, t).(handled := s.handled + {t});
        if ok then done.(tracked := s.tracked - {t}) else done
    case DispatcherDies(t) => Leave(s, t)
    case Sweep(t, now, staleAfter, reachable, result, writeOk, deleteOk) =>
      if !Stale(s, t, now, staleAfter) then s
      else Settle(s, t, Resolve(CamsReply(s, t, reachable), result, writeOk), deleteOk)
  }

  function Settle(s: State, t: TaskId, resolution: Resolution, deleteOk: bool): State {
    if resolution.LeftTracked? then s
    else
      var row := if resolution.Recovered? then resolution.row else FailedRow;
      s.(rows := s.rows[t := row],
         failedBySweep := if resolution.MarkedFailed? then s.failedBySweep + {t} else s.failedBySweep,
         tracked := if deleteOk then s.tracked - {t} else s.tracked)
  }

  function Run(s: State, steps: seq<Step>): State
    decreases |steps|
  {
    if steps == [] then s else Run(Do(s, steps[0]), steps[1..])
  }

  // ---------------------------------------------------------------------------------------------
  // Nothing tracked is forgotten
  // ---------------------------------------------------------------------------------------------

  /** A task that was ever recorded is still recorded, has its terminal row, or was handled by its own
      dispatcher; one a sweep marked failed is over in CAMS, which never reopens a task. */
  predicate Inv(s: State) {
    && s.tracked.Keys <= s.everTracked
    && (forall t <- s.everTracked :: t in s.tracked || t in s.rows || t in s.handled)
    && (forall t <- s.failedBySweep :: t in s.rows && (t in s.cams ==> s.cams[t] != Active))
    && (forall t <- s.failedBySweep :: t in s.everTracked)
    && (forall t <- s.dispatchers :: s.dispatchers[t] == Created ==> t !in s.everTracked)
  }

  lemma StepKeepsInv(s: State, step: Step)
    requires Inv(s)
    ensures Inv(Do(s, step))
  {
  }

  lemma {:induction false} RunKeepsInv(s: State, steps: seq<Step>)
    requires Inv(s)
    ensures Inv(Run(s, steps))
    decreases |steps|
  {
    if steps != [] {
      StepKeepsInv(s, steps[0]);
      RunKeepsInv(Do(s, steps[0]), steps[1..]);
    }
  }

  /** What a sweep of a stale task does, said in CAMS's status and what it left on disk: an answer becomes
      the row it deserves, everything else that is over a failed row, and the record goes with it; a task
      that is still active, or that cannot be asked about or written, is left as it is. */
  lemma SweepWritesWhatCamsLeft(s: State, t: TaskId, now: Time, at: Time, staleAfter: Time,
                                reachable: bool, result: Result, writeOk: bool, deleteOk: bool)
    requires t in s.tracked && s.tracked[t] == Some(at) && at + staleAfter <= now
    ensures var end := Do(s, Sweep(t, now, staleAfter, reachable, result, writeOk, deleteOk));
            var completed := t in s.cams && s.cams[t] == Completed;
            if !reachable || !writeOk || (t in s.cams && s.cams[t] == Active) then end == s
            else
              && (completed && result == Answer(true) ==> end.rows == s.rows[t := CompleteRow] && end.failedBySweep == s.failedBySweep)
              && (completed && result == Answer(false) ==> end.rows == s.rows[t := FailedRow] && end.failedBySweep == s.failedBySweep)
              && (!completed || !result.Answer? ==> end.rows == s.rows[t := FailedRow] && end.failedBySweep == s.failedBySweep + {t})
              && end.tracked == (if deleteOk then s.tracked - {t} else s.tracked)
              && end.cams == s.cams && end.dispatchers == s.dispatchers && end.handled == s.handled && end.everTracked == s.everTracked
  {
    match result
    case Answer(sufficient) =>
    case _ =>
  }

  /** The row a dispatcher writes for an answer it polled, and when it gives its record up. */
  lemma DispatcherWritesItsAnswer(s: State, t: TaskId, result: Result, ok: bool)
    requires t in s.dispatchers && s.dispatchers[t] == Writing
    ensures var end := Do(s, WriteRow(t, result, ok));
            && end.tracked == s.tracked
            && (ok && result == Answer(true) ==> end.rows == s.rows[t := CompleteRow] && end.dispatchers == s.dispatchers[t := CleaningUp])
            && (ok && result == Answer(false) ==> end.rows == s.rows[t := FailedRow] && end.dispatchers == s.dispatchers[t := CleaningUp])
            && (result.Answer? && !ok ==> end.rows == s.rows && t !in end.dispatchers)
            && (!result.Answer? ==> end.rows == s.rows && end.dispatchers == s.dispatchers[t := CleaningUp])
  {
    match result
    case Answer(sufficient) =>
    case _ =>
  }

  /** Over every run of any number of dispatchers, crashes and sweeps, with CAMS, Redis and the broker
      free to fail: a tracked task stays tracked until it has a terminal row or its live dispatcher has
      handled the outcome, and no task that CAMS reports as still active was marked failed. */
  lemma TrackedTasksAreResolved(s: State, steps: seq<Step>)
    requires Inv(s)
    ensures var end := Run(s, steps);
            && (forall t <- end.everTracked :: t in end.tracked || t in end.rows || t in end.handled)
            && (forall t <- end.failedBySweep :: t in end.rows && CamsReply(end, t, true) != Reports(Active))
  {
    RunKeepsInv(s, steps);
  }

  /** A sweep that settles the task: it is stale, CAMS says it is over, or does not know it, and the row
      could be written. */
  predicate Settles(s: State, step: Step, t: TaskId) {
    && step.Sweep? && step.t == t && Stale(s, t, step.now, step.staleAfter)
    && Over(CamsReply(s, t, step.reachable)) && step.writeOk
  }

  predicate SomeSweepSettles(s: State, steps: seq<Step>, t: TaskId)
    decreases |steps|
  {
    steps != [] && (Settles(s, steps[0], t) || SomeSweepSettles(Do(s, steps[0]), steps[1..], t))
  }

  /** Recorded, without a row, and its dispatcher is gone. */
  predicate Abandoned(s: State, t: TaskId) {
    t in s.tracked && t !in s.rows && t !in s.dispatchers
  }

  /** What becomes of a task whose dispatcher died, over every run: it gets a row exactly when some later
      sweep settles it, whatever happens to other tasks, and until then its record stays as it was. */
  lemma {:induction false} AbandonedTasksWaitForASweep(s: State, steps: seq<Step>, t: TaskId)
    requires Inv(s) && Abandoned(s, t)
    ensures var end := Run(s, steps);
            && (t in end.rows <==> SomeSweepSettles(s, steps, t))
            && (t !in end.rows ==> t in end.tracked && end.tracked[t] == s.tracked[t])
    decreases |steps|
  {
    if steps != [] {
      var next := Do(s, steps[0]);
      StepKeepsInv(s, steps[0]);
      AbandonedUnlessSettled(s, steps[0], t);
      if Settles(s, steps[0], t) {
        RowsStay(next, steps[1..], t);
      } else {
        AbandonedTasksWaitForASweep(next, steps[1..], t);
      }
    }
  }

  lemma AbandonedUnlessSettled(s: State, step: Step, t: TaskId)
    requires Inv(s) && Abandoned(s, t)
    ensures if Settles(s, step, t) then t in Do(s, step).rows
            else Abandoned(Do(s, step), t) && Do(s, step).tracked[t] == s.tracked[t]
  {
  }

  lemma {:induction false} RowsStay(s: State, steps: seq<Step>, t: TaskId)
    requires t in s.rows
    ensures t in Run(s, steps).rows
    decreases |steps|
  {
    if steps != [] {
      RowsStay(Do(s, steps[0]), steps[1..], t);
    }
  }

  // ---------------------------------------------------------------------------------------------
  // Whether a complete row can be lost
  // ---------------------------------------------------------------------------------------------

  predicate IsComplete(s: State, t: TaskId) {
    t in s.rows && s.rows[t] == CompleteRow
  }

  /** What can still fail the row: a usable record, which a sweep may find when CAMS has forgotten the
      task, or a dispatcher that may yet record the task or write an answer of its own. */
  predicate MayStillFail(s: State, t: TaskId) {
    || (t in s.tracked && s.tracked[t].Some?)
    || At(s, t, Created) || At(s, t, Writing)
    || (At(s, t, Polling) && t in s.cams && (s.cams[t] == Active || s.cams[t] == Completed))
  }

  lemma SafeStepKeepsComplete(s: State, step: Step, t: TaskId)
    requires IsComplete(s, t) && !MayStillFail(s, t)
    ensures IsComplete(Do(s, step), t) && !MayStillFail(Do(s, step), t)
  {
  }

  lemma {:induction false} SafeRunKeepsComplete(s: State, steps: seq<Step>, t: TaskId)
    requires IsComplete(s, t) && !MayStillFail(s, t)
    ensures IsComplete(Run(s, steps), t)
    decreases |steps|
  {
    if steps != [] {
      SafeStepKeepsComplete(s, steps[0], t);
      SafeRunKeepsComplete(Do(s, steps[0]), steps[1..], t);
    }
  }

  /** A recorded task that CAMS forgets is marked failed by the next sweep, complete row or not. */
  lemma ForgottenIsFailed(s: State, t: TaskId) returns (steps: seq<Step>)
    requires t in s.tracked && s.tracked[t].Some?
    ensures !IsComplete(Run(s, steps), t)
  {
    var sweep := Sweep(t, s.tracked[t].value, 0, true, Unreadable, true, true);
    steps := [] + [CamsForgets(t)] + [sweep];
    RunThen(s, [] + [CamsForgets(t)], sweep);
    RunThen(s, [], CamsForgets(t));
  }

  lemma TrackedThenFailed(s: State, t: TaskId) returns (steps: seq<Step>)
    requires At(s, t, Created)
    ensures !IsComplete(Run(s, steps), t)
  {
    var track := Track(t, 0, true);
    var rest := ForgottenIsFailed(Do(s, track), t);
    steps := [track] + rest;
    assert steps[1..] == rest;
  }

  /** A dispatcher that gets an answer too thin for a changelog writes a failed row over any other. */
  lemma ThinAnswerFails(s: State, t: TaskId) returns (steps: seq<Step>)
    requires At(s, t, Polling) && t in s.cams && (s.cams[t] == Active || s.cams[t] == Completed)
    ensures !IsComplete(Run(s, steps), t)
  {
    var write := WriteRow(t, Answer(false), true);
    steps := [] + [CamsFinishes(t, Completed)] + [PollEnds(t, true)] + [write];
    RunThen(s, [] + [CamsFinishes(t, Completed)] + [PollEnds(t, true)], write);
    RunThen(s, [] + [CamsFinishes(t, Completed)], PollEnds(t, true));
    RunThen(s, [], CamsFinishes(t, Completed));
  }

  /** A complete row survives every run if and only if nothing can still fail it: the dispatcher's own
      delete having failed is enough to lose it. */
  lemma CompleteRowSurvivesExactly(s: State, t: TaskId)
    requires IsComplete(s, t)
    ensures (forall steps :: IsComplete(Run(s, steps), t)) <==> !MayStillFail(s, t)
  {
    if !MayStillFail(s, t) {
      forall steps
        ensures IsComplete(Run(s, steps), t)
      {
        SafeRunKeepsComplete(s, steps, t);
      }
    } else if t in s.tracked && s.tracked[t].Some? {
      var steps := ForgottenIsFailed(s, t);
    } else if At(s, t, Created) {
      var steps := TrackedThenFailed(s, t);
    } else if At(s, t, Writing) {
      RunThen(s, [], WriteRow(t, Answer(false), true));
    } else {
      var steps := ThinAnswerFails(s, t);
    }
  }

  /** Nothing about a task is different. */
  predicate SameAt(s: State, s': State, t: TaskId) {
    && (t in s.tracked <==> t in s'.tracked) && (t in s.tracked ==> s.tracked[t] == s'.tracked[t])
    && (t in s.rows <==> t in s'.rows) && (t in s.rows ==> s.rows[t] == s'.rows[t])
    && (t in s.failedBySweep <==> t in s'.failedBySweep)
  }

  /** CAMS says the task completed, and what it left on disk is an answer. */
  predicate HasAnswer(s: State, results: map<TaskId, Result>, t: TaskId) {
    t in s.cams && s.cams[t] == Completed && t in results && results[t].Answer?
  }

  /** What a sweep has made of the tasks it has been through. */
  datatype Outcomes = Outcomes(recovered: set<TaskId>, failed: set<TaskId>, left: set<TaskId>)

  datatype Counts = Counts(checked: nat, recovered: nat, markedFailed: nat)

  /** What a sweep is run with: the time, the age at which a task is stale, the answers on disk, and whether
      Redis never fails and whether CAMS and the broker never do. */
  datatype Setting = Setting(now: Time, staleAfter: Time, results: map<TaskId, Result>, redis: bool, services: bool)

  /** How one task has fared: if it was stale and its turn has come, it was recovered, failed or left, a
      recovered one with the row its answer deserves and a failed one with a failed row; otherwise it is
      as it was. */
  predicate Fared(start: State, setting: Setting, s: State, t: TaskId, done: set<TaskId>, out: Outcomes) {
    var recovered, failed, left := t in out.recovered, t in out.failed, t in out.left;
    && !(recovered && failed) && !(recovered && left) && !(failed && left)
    && (recovered || failed || left <==> t in done && Stale(start, t, setting.now, setting.staleAfter))
    && (recovered ==> && HasAnswer(start, setting.results, t) && t in s.rows
                      && (t in s.failedBySweep <==> t in start.failedBySweep)
                      && s.rows[t] == (if setting.results[t].sufficient then CompleteRow else FailedRow))
    && (failed ==> && !HasAnswer(start, setting.results, t) && !(t in start.cams && start.cams[t] == Active)
                   && t in s.rows && s.rows[t] == FailedRow && t in s.failedBySweep)
    && (!recovered && !failed ==> SameAt(start, s, t))
    && (setting.redis && (recovered || failed) ==> t !in s.tracked)
    && (setting.services && left ==> t in start.cams && start.cams[t] == Active)
  }

  ghost predicate Swept(start: State, setting: Setting, s: State, done: set<TaskId>, out: Outcomes) {
    && s.cams == start.cams
    && forall t: TaskId :: Fared(start, setting, s, t, done, out)
  }

  predicate Counted(counts: Counts, out: Outcomes) {
    counts == Counts(|out.recovered| + |out.failed| + |out.left|, |out.recovered|, |out.failed|)
  }

  /** `out` with one more task in it. */
  function Sorted(out: Outcomes, t: TaskId, resolution: Resolution): Outcomes {
    match resolution
    case Recovered(_) => out.(recovered := out.recovered + {t})
    case MarkedFailed => out.(failed := out.failed + {t})
    case LeftTracked => out.(left := out.left + {t})
  }

  function Counting(counts: Counts, resolution: Resolution): Counts {
    var one := counts.(checked := counts.checked + 1);
    match resolution
    case Recovered(_) => one.(recovered := counts.recovered + 1)
    case MarkedFailed => one.(markedFailed := counts.markedFailed + 1)
    case LeftTracked => one
  }

  lemma CountedOneMore(counts: Counts, out: Outcomes, t: TaskId, resolution: Resolution)
    requires Counted(counts, out) && t !in out.recovered + out.failed + out.left
    ensures Counted(Counting(counts, resolution), Sorted(out, t, resolution))
  {
    match resolution
    case Recovered(_) =>
    case MarkedFailed =>
    case LeftTracked =>
  }

  /** What is known of the sweep's turn for one stale task. */
  predicate IsTurn(s: State, setting: Setting, step: Step, resolution: Resolution) {
    && step.Sweep? && step.now == setting.now && step.staleAfter == setting.staleAfter
    && step.result == (if step.t in setting.results then setting.results[step.t] else Unreadable)
    && resolution == Resolve(CamsReply(s, step.t, step.reachable), step.result, step.writeOk)
    && (setting.services && !(step.t in s.cams && s.cams[step.t] == Active) ==> resolution != LeftTracked)
    && (setting.redis ==> step.deleteOk)
  }

  lemma OthersFareTheSame(start: State, setting: Setting, s: State, t: TaskId, done: set<TaskId>, out: Outcomes, step: Step, resolution: Resolution)
    requires step.Sweep? && step.t != t && Fared(start, setting, s, t, done, out)
    ensures Fared(start, setting, Do(s, step), t, done + {step.t}, Sorted(out, step.t, resolution))
  {
    assert SameAt(s, Do(s, step), t);
  }

  lemma TaskFares(start: State, setting: Setting, s: State, done: set<TaskId>, out: Outcomes, step: Step, resolution: Resolution)
    requires IsTurn(s, setting, step, resolution) && s.cams == start.cams
    requires Stale(start, step.t, setting.now, setting.staleAfter) && step.t !in done
    requires Fared(start, setting, s, step.t, done, out)
    ensures Fared(start, setting, Do(s, step), step.t, done + {step.t}, Sorted(out, step.t, resolution))
  {
    SweepWritesWhatCamsLeft(s, step.t, step.now, s.tracked[step.t].value, step.staleAfter, step.reachable, step.result,
                            step.writeOk, step.deleteOk);
  }

  lemma SweptOneMore(start: State, setting: Setting, s: State, done: set<TaskId>, out: Outcomes, step: Step, resolution: Resolution)
    requires IsTurn(s, setting, step, resolution) && step.t !in done && Stale(start, step.t, setting.now, setting.staleAfter)
    requires Swept(start, setting, s, done, out)
    ensures Swept(start, setting, Do(s, step), done + {step.t}, Sorted(out, step.t, resolution))
  {
    var s', done', out' := Do(s, step), done + {step.t}, Sorted(out, step.t, resolution);
    forall t: TaskId
      ensures Fared(start, setting, s', t, done', out')
    {
      assert Fared(start, setting, s, t, done, out);
      if t == step.t {
        TaskFares(start, setting, s, done, out, step, resolution);
      } else {
        OthersFareTheSame(start, setting, s, t, done, out, step, resolution);
      }
    }
    assert s'.cams == start.cams;
  }

  lemma SweptMeans(start: State, setting: Setting, s: State, listed: set<TaskId>, out: Outcomes)
    requires Swept(start, setting, s, listed, out)
    ensures out.recovered !! out.failed && out.recovered !! out.left && out.failed !! out.left
    ensures forall t: TaskId :: t in out.recovered || t in out.failed || t in out.left <==> t in listed && Stale(start, t, setting.now, setting.staleAfter)
    ensures forall t <- out.recovered :: HasAnswer(start, setting.results, t) && t in s.rows
              && s.rows[t] == (if setting.results[t].sufficient then CompleteRow else FailedRow)
    ensures forall t <- out.failed :: !HasAnswer(start, setting.results, t) && !(t in start.cams && start.cams[t] == Active)
              && t in s.rows && s.rows[t] == FailedRow && t in s.failedBySweep
    ensures forall t: TaskId | t !in out.recovered && t !in out.failed :: SameAt(start, s, t)
    ensures setting.services ==> forall t <- out.left :: t in start.cams && start.cams[t] == Active
    ensures setting.redis ==> forall t: TaskId | t in out.recovered || t in out.failed :: t !in s.tracked
  {
    forall t: TaskId
      ensures !(t in out.recovered && t in out.failed) && !(t in out.recovered && t in out.left) && !(t in out.failed && t in out.left)
      ensures t in out.recovered || t in out.failed || t in out.left <==> t in listed && Stale(start, t, setting.now, setting.staleAfter)
    {
      assert Fared(start, setting, s, t, listed, out);
    }
    forall t <- out.recovered
      ensures HasAnswer(start, setting.results, t) && t in s.rows
              && s.rows[t] == (if setting.results[t].sufficient then CompleteRow else FailedRow)
    {
      assert Fared(start, setting, s, t, listed, out);
    }
    forall t <- out.failed
      ensures !HasAnswer(start, setting.results, t) && !(t in start.cams && start.cams[t] == Active)
              && t in s.rows && s.rows[t] == FailedRow && t in s.failedBySweep
    {
      assert Fared(start, setting, s, t, listed, out);
    }
    forall t: TaskId | t !in out.recovered && t !in out.failed
      ensures SameAt(start, s, t)
    {
      assert Fared(start, setting, s, t, listed, out);
    }
    forall t <- out.left | setting.services
      ensures t in start.cams && start.cams[t] == Active
    {
      assert Fared(start, setting, s, t, listed, out);
    }
    forall t: TaskId | setting.redis && (t in out.recovered || t in out.failed)
      ensures t !in s.tracked
    {
      assert Fared(start, setting, s, t, listed, out);
    }
  }

  lemma SweptOneFresh(start: State, setting: Setting, s: State, done: set<TaskId>, out: Outcomes, t: TaskId)
    requires Swept(start, setting, s, done, out) && t !in done && !Stale(start, t, setting.now, setting.staleAfter)
    ensures Swept(start, setting, s, done + {t}, out)
  {
    forall u: TaskId
      ensures Fared(start, setting, s, u, done + {t}, out)
    {
      assert Fared(start, setting, s, u, done, out);
    }
  }

  // ---------------------------------------------------------------------------------------------
  // The sweep itself
  // ---------------------------------------------------------------------------------------------

  /** How a dispatch ended for its own dispatcher. */
  datatype Ending = Wrote(row: Row) | NoAnswerCame | NotWritten

  class DispatchStore {
    /** No call to Redis fails, CAMS can always be reached, and the broker accepts every row. */
    const redisAnswers: bool
    const camsAnswers: bool
    const brokerAccepts: bool
    /** What CAMS left on disk for its tasks; nothing can be read for any other. */
    const results: map<TaskId, Result>
    var tracked: map<TaskId, Option<Time>>
    var rows: map<TaskId, Row>
    /** What CAMS knows; the sweep only reads it. */
    var cams: map<TaskId, Status>
    ghost var dispatchers: map<TaskId, Pc>
    ghost var handled: set<TaskId>
    ghost var everTracked: set<TaskId>
    ghost var failedBySweep: set<TaskId>

    constructor (redisAnswers: bool, camsAnswers: bool, brokerAccepts: bool, results: map<TaskId, Result>)
      ensures this.redisAnswers == redisAnswers && this.camsAnswers == camsAnswers
      ensures this.brokerAccepts == brokerAccepts && this.results == results
      ensures Contents() == State(map[], map[], map[], map[], {}, {}, {}) && Inv(Contents())
    {
      this.redisAnswers, this.camsAnswers, this.brokerAccepts, this.results := redisAnswers, camsAnswers, brokerAccepts, results;
      tracked, rows, cams, dispatchers, handled, everTracked, failedBySweep := map[], map[], map[], map[], {}, {}, {};
    }

    ghost function Contents(): State
      reads this
    {
      State(tracked, cams, rows, dispatchers, handled, everTracked, failedBySweep)
    }

    ghost function Under(now: Time, staleAfter: Time): Setting {
      Setting(now, staleAfter, results, redisAnswers, camsAnswers && brokerAccepts)
    }

    /** `write_bill_artifact`: false when the broker refused it or could not be reached. */
    method WriteArtifact(t: TaskId, row: Row, ghost bySweep: bool) returns (ok: bool)
      modifies this`rows, this`failedBySweep
      ensures rows == if ok then old(rows)[t := row] else old(rows)
      ensures failedBySweep == if ok && bySweep then old(failedBySweep) + {t} else old(failedBySweep)
      ensures brokerAccepts ==> ok
    {
      var accepted: bool := *;
      ok := accepted || brokerAccepts;
      if ok {
        rows := rows[t := row];
        failedBySweep := if bySweep then failedBySweep + {t} else failedBySweep;
      }
    }

    ghost method Sync(s: State)
      requires s.tracked == tracked && s.rows == rows && s.cams == cams
      modifies this`dispatchers, this`handled, this`everTracked, this`failedBySweep
      ensures Contents() == s
    {
      dispatchers, handled, everTracked, failedBySweep := s.dispatchers, s.handled, s.everTracked, s.failedBySweep;
    }

    /** The start of `_dispatch_and_write_changelog`: CAMS makes the task, and it is recorded before any
        polling. */
    method CreateAndTrack(t: TaskId, now: Time) returns (ghost steps: seq<Step>)
      requires t !in cams && t !in dispatchers && t !in everTracked && t !in rows
      modifies this
      ensures Contents() == Run(old(Contents()), steps) && At(Contents(), t, Polling)
      ensures redisAnswers ==> tracked == old(tracked)[t := Some(now)]
      ensures cams == old(cams)[t := Active] && rows == old(rows) && handled == old(handled)
    {
      ghost var start := Contents();
      var failed: bool := *;
      ghost var ok := !failed || redisAnswers;
      ghost var created := Do(start, Dispatch(t));
      RunThen(start, [], Dispatch(t));
      RunThen(start, [Dispatch(t)], Track(t, now, ok));
      assert [] + [Dispatch(t)] == [Dispatch(t)];
      steps := [Dispatch(t)] + [Track(t, now, ok)];
      cams := cams[t := Active];
      if !failed || redisAnswers {
        tracked := tracked[t := Some(now)];
      }
      Sync(Do(created, Track(t, now, ok)));
    }

    /** Its end: the record goes once the outcome is handled, but is kept for the sweep when an answer
        could not be written. `answer` is what CAMS left for the task, None when it never completed. */
    method HandleOutcome(t: TaskId, answer: Option<Result>) returns (ending: Ending, ghost steps: seq<Step>)
      requires At(Contents(), t, Polling) && (answer.Some? ==> t in cams && cams[t] == Completed)
      modifies this
      ensures Contents() == Run(old(Contents()), steps)
      ensures answer == Some(Answer(true)) ==> ending == Wrote(CompleteRow) || ending == NotWritten
      ensures answer == Some(Answer(false)) ==> ending == Wrote(FailedRow) || ending == NotWritten
      ensures answer.None? || !answer.value.Answer? ==> ending == NoAnswerCame
      ensures brokerAccepts ==> !ending.NotWritten?
      ensures ending.Wrote? ==> rows == old(rows)[t := ending.row] && t in handled
      ensures ending.NoAnswerCame? ==> rows == old(rows) && t in handled
      ensures ending.NotWritten? ==> rows == old(rows) && tracked == old(tracked)
      ensures !ending.NotWritten? && redisAnswers ==> t !in tracked
    {
      ghost var start := Contents();
      RunThen(start, [], PollEnds(t, answer.Some?));
      assert [] + [PollEnds(t, answer.Some?)] == [PollEnds(t, answer.Some?)];
      steps := [PollEnds(t, answer.Some?)];
      Sync(Do(start, PollEnds(t, answer.Some?)));
      ending := NoAnswerCame;
      ghost var step;
      if answer.Some? {
        ending, step := WriteAnswer(t, answer.value);
        RunThen(start, steps, step);
        steps := steps + [step];
        if ending.NotWritten? {
          return;
        }
      }
      step := ForgetTask(t);
      RunThen(start, steps, step);
      steps := steps + [step];
    }

    method WriteAnswer(t: TaskId, result: Result) returns (ending: Ending, ghost step: Step)
      requires At(Contents(), t, Writing)
      modifies this
      ensures Contents() == Do(old(Contents()), step) && tracked == old(tracked)
      ensures result == Answer(true) ==> ending == Wrote(CompleteRow) || ending == NotWritten
      ensures result == Answer(false) ==> ending == Wrote(FailedRow) || ending == NotWritten
      ensures !result.Answer? ==> ending == NoAnswerCame
      ensures brokerAccepts ==> !ending.NotWritten?
      ensures ending.Wrote? ==> rows == old(rows)[t := ending.row]
      ensures !ending.Wrote? ==> rows == old(rows)
      ensures !ending.NotWritten? ==> At(Contents(), t, CleaningUp)
    {
      ghost var writing := Contents();
      var ok := false;
      ending := NoAnswerCame;
      if result.Answer? {
        var row := if result.sufficient then CompleteRow else FailedRow;
        ok := WriteArtifact(t, row, false);
        ending := if ok then Wrote(row) else NotWritten;
      }
      step := WriteRow(t, result, ok);
      Sync(Do(writing, step));
    }

    /** `delete_legbot_task`, which may fail. */
    method ForgetTask(t: TaskId) returns (ghost step: Step)
      requires At(Contents(), t, CleaningUp)
      modifies this
      ensures Contents() == Do(old(Contents()), step) && rows == old(rows) && t in handled
      ensures redisAnswers ==> t !in tracked
    {
      ghost var cleaning := Contents();
      var failed: bool := *;
      step := CleanUp(t, !failed || redisAnswers);
      if !failed || redisAnswers {
        tracked := tracked - {t};
      }
      Sync(Do(cleaning, step));
    }

    /** `check_task_status`. */
    method CheckTaskStatus(t: TaskId) returns (reply: Reply, reachable: bool)
      ensures reply == CamsReply(Contents(), t, reachable)
      ensures camsAnswers ==> reachable
    {
      var answered: bool := *;
      reachable := answered || camsAnswers;
      reply := if !reachable then NoAnswer else if t in cams then Reports(cams[t]) else NotFound;
    }

    /** `read_task_result`. */
    function ReadTaskResult(t: TaskId): Result {
      if t in results then results[t] else Unreadable
    }

    /** The sweep's turn for one stale task; `step` is what it did in the protocol. */
    method SweepOne(t: TaskId, now: Time, staleAfter: Time) returns (resolution: Resolution, ghost step: Step)
      requires Stale(Contents(), t, now, staleAfter)
      modifies this`tracked, this`rows, this`failedBySweep
      ensures step.Sweep? && step.t == t && step.now == now && step.staleAfter == staleAfter && Contents() == Do(old(Contents()), step)
      ensures IsTurn(old(Contents()), Under(now, staleAfter), step, resolution)
      ensures resolution.Recovered? ==> t in cams && cams[t] == Completed && t in results
      ensures resolution.Recovered? && results[t] == Answer(true) ==> rows == old(rows)[t := CompleteRow]
      ensures resolution.Recovered? && results[t] != Answer(true) ==> results[t] == Answer(false) && rows == old(rows)[t := FailedRow]
      ensures resolution.MarkedFailed? ==> rows == old(rows)[t := FailedRow] && t in failedBySweep
      ensures resolution.LeftTracked? ==> rows == old(rows) && tracked == old(tracked) && failedBySweep == old(failedBySweep)
    {
      var reply, reachable := CheckTaskStatus(t);
      var result := ReadTaskResult(t);
      var ok := false;
      resolution := LeftTracked;
      if reply == Reports(Completed) {
        match result
        case Answer(sufficient) =>
          var row := if sufficient then CompleteRow else FailedRow;
          ok := WriteArtifact(t, row, false);
          if ok {
            resolution := Recovered(row);
          }
        case _ =>
          ok := WriteArtifact(t, FailedRow, true);
          if ok {
            resolution := MarkedFailed;
          }
      } else if reply.NotFound? || (reply.Reports? && reply.status != Active) {
        ok := WriteArtifact(t, FailedRow, true);
        if ok {
          resolution := MarkedFailed;
        }
      }
      ghost var deleteOk := true;
      if ok {
        var failed: bool := *;
        deleteOk := !failed || redisAnswers;
        tracked := if failed && !redisAnswers then tracked else tracked - {t};
      }
      step := Sweep(t, now, staleAfter, reachable, result, ok, deleteOk);
    }

    /** One listed task: nothing, unless it is stale. `steps` is what the sweep has done since `start`. */
    method SweepTask(t: TaskId, now: Time, staleAfter: Time, counts: Counts,
                     ghost start: State, ghost done: set<TaskId>, ghost out: Outcomes, ghost steps: seq<Step>)
      returns (counts': Counts, ghost out': Outcomes, ghost steps': seq<Step>)
      requires t !in done && Swept(start, Under(now, staleAfter), Contents(), done, out) && Contents() == Run(start, steps)
      requires Counted(counts, out)
      modifies this`tracked, this`rows, this`failedBySweep
      ensures Swept(start, Under(now, staleAfter), Contents(), done + {t}, out') && Contents() == Run(start, steps')
      ensures Counted(counts', out')
    {
      counts', out', steps' := counts, out, steps;
      assert Fared(start, Under(now, staleAfter), Contents(), t, done, out);
      if t in tracked && tracked[t].Some? && now - tracked[t].value >= staleAfter {
        var resolution;
        ghost var step;
        resolution, step := SweepOne(t, now, staleAfter);
        SweptOneMore(start, Under(now, staleAfter), old(Contents()), done, out, step, resolution);
        RunThen(start, steps, step);
        steps' := steps + [step];
        CountedOneMore(counts, out, t, resolution);
        out' := Sorted(out, t, resolution);
        counts' := counts.(checked := counts.checked + 1);
        match resolution
        case Recovered(_) => counts' := counts'.(recovered := counts.recovered + 1);
        case MarkedFailed => counts' := counts'.(markedFailed := counts.markedFailed + 1);
        case LeftTracked =>
      } else {
        SweptOneFresh(start, Under(now, staleAfter), Contents(), done, out, t);
      }
    }

    /** `recover_stale_legbot_dispatches`. Every listed stale task is recovered, failed or left, and the
        counters count them. A recovered task has the row its answer on disk deserves, a failed one, which
        has no such answer and is not active, a failed row; the others are as they were. With CAMS and the
        broker there, only the active ones are left. */
    method RecoverStale(listed: set<TaskId>, now: Time, staleAfter: Time)
      returns (counts: Counts, ghost out: Outcomes, ghost steps: seq<Step>)
      modifies this`tracked, this`rows, this`failedBySweep
      ensures Contents() == Run(old(Contents()), steps)
      ensures out.recovered !! out.failed && out.recovered !! out.left && out.failed !! out.left
      ensures forall t: TaskId :: t in out.recovered || t in out.failed || t in out.left <==>
                t in listed && t in old(tracked) && old(tracked)[t].Some? && now - old(tracked)[t].value >= staleAfter
      ensures counts == Counts(|out.recovered| + |out.failed| + |out.left|, |out.recovered|, |out.failed|)
      ensures forall t <- out.recovered :: t in cams && cams[t] == Completed && t in results && t in rows
                && ((results[t] == Answer(true) && rows[t] == CompleteRow) || (results[t] == Answer(false) && rows[t] == FailedRow))
      ensures forall t <- out.failed :: t in rows && rows[t] == FailedRow && t in failedBySweep
      ensures forall t <- out.failed | t in cams :: cams[t] != Active && (cams[t] == Completed && t in results ==> !results[t].Answer?)
      ensures forall t: TaskId | t !in out.recovered && t !in out.failed :: SameAt(old(Contents()), Contents(), t)
      ensures camsAnswers && brokerAccepts ==> forall t <- out.left :: t in cams && cams[t] == Active
      ensures redisAnswers ==> forall t: TaskId | t in out.recovered || t in out.failed :: t !in tracked
    {
      counts := Counts(0, 0, 0);
      out, steps := Outcomes({}, {}, {}), [];
      var todo := listed;
      ghost var done: set<TaskId> := {};
      while todo != {}
        invariant done == listed - todo && todo <= listed
        invariant Counted(counts, out)
        invariant Contents() == Run(old(Contents()), steps)
        invariant Swept(old(Contents()), Under(now, staleAfter), Contents(), done, out)
        decreases todo
      {
        var t :| t in todo;
        todo := todo - {t};
        counts, out, steps := SweepTask(t, now, staleAfter, counts, old(Contents()), done, out, steps);
        done := done + {t};
      }
      assert done == listed;
      SweptMeans(old(Contents()), Under(now, staleAfter), Contents(), listed, out);
    }
  }

  lemma {:induction false} RunThen(s: State, steps: seq<Step>, step: Step)
    ensures Run(s, steps + [step]) == Do(Run(s, steps), step)
    decreases |steps|
  {
    if steps == [] {
      assert steps + [step] == [step];
      assert Run(s, [step]) == Run(Do(s, step), []);
    } else {
      RunThen(Do(s, steps[0]), steps[1..], step);
      assert (steps + [step])[1..] == steps[1..] + [step];
    }
  }
}
