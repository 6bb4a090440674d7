/** Re-registering the scrape jobs when a cadence changes (`scheduler.py`,
    `services/scrape_cadence.py`): which job scrapes which jurisdiction after any sequence of
    registrations, and what stands behind a nightly job. */
module ScrapeSchedule {
  import opened Wrappers

  type Jurisdiction = string

  datatype Cadence = Weekly | Nightly

  // ---------------------------------------------------------------------------------------------
  // Jobs
  // ---------------------------------------------------------------------------------------------

  datatype JobId =
    | Dedicated(j: Jurisdiction)
    | Primary(j: Jurisdiction)
    | OwnSecondary(j: Jurisdiction)
    | SecondaryBatch
    | OtherJob(name: string)

  datatype Job = Job(covers: set<Jurisdiction>, cadence: Cadence)

  type Jobs = map<JobId, Job>

  /** The job ids as the scheduler stores them. */
  function IdText(id: JobId): string {
    match id
    case Dedicated(j) => "openstates_" + j + "_scrape"
    case Primary(j) => "openstates_primary_scrape_" + j
    case OwnSecondary(j) => "openstates_secondary_scrape_" + j
    case SecondaryBatch => "openstates_secondary_scrapes"
    case OtherJob(name) => name
  }

  /** The jurisdictions with a job function of their own. */
  const DEDICATED: set<Jurisdiction> := {"fl", "wa", "usa"}

  /** No two scrape jobs can be stored under one id, whatever the jurisdictions are called. */
  lemma ScrapeIdsNeverCollide(a: JobId, b: JobId)
    requires !a.OtherJob? && !b.OtherJob?
    requires (a.Dedicated? ==> a.j in DEDICATED) && (b.Dedicated? ==> b.j in DEDICATED)
    ensures IdText(a) == IdText(b) <==> a == b
  {
    var own, primary := "openstates_secondary_scrape_", "openstates_primary_scrape_";
    assert IdText(a)[11] == Eleventh(a) && IdText(b)[11] == Eleventh(b);
    if a.Dedicated? || b.Dedicated? {
      assert a.Dedicated? ==> |IdText(a)| <= 21;
      assert b.Dedicated? ==> |IdText(b)| <= 21;
    } else if a.OwnSecondary? && b.OwnSecondary? {
      assert a.j == IdText(a)[|own|..] && b.j == IdText(b)[|own|..];
    } else if a.Primary? && b.Primary? {
      assert a.j == IdText(a)[|primary|..] && b.j == IdText(b)[|primary|..];
    } else if !a.Primary? && !b.Primary? {
      assert IdText(a)[27] == (if a.OwnSecondary? then '_' else 's') && IdText(b)[27] == (if b.OwnSecondary? then '_' else 's');
    }
  }

  function Eleventh(id: JobId): char {
    match id
    case Dedicated(j) => if j == "fl" then 'f' else if j == "wa" then 'w' else 'u'
    case Primary(_) => 'p'
    case _ => 's'
  }

  /** What the committed configuration says: the enabled dedicated jobs, whether Florida's has a day of
      the week, the other enabled primaries, the (fixed) secondary list and the excluded jurisdictions. */
  datatype Config = Config(
    dedicated: seq<Jurisdiction>, floridaHasDay: bool, primaries: seq<Jurisdiction>,
    secondary: seq<Jurisdiction>, excluded: set<Jurisdiction>)

  predicate IsNightly(config: Config, cadences: map<Jurisdiction, Cadence>, j: Jurisdiction) {
    j in cadences && cadences[j] == Nightly && j !in config.excluded
  }

  function WeeklyOnes(config: Config, cadences: map<Jurisdiction, Cadence>): set<Jurisdiction> {
    set j <- config.secondary | !IsNightly(config, cadences, j)
  }

  function NightlyOnes(config: Config, cadences: map<Jurisdiction, Cadence>): set<Jurisdiction> {
    set j <- config.secondary | IsNightly(config, cadences, j)
  }

  function OwnIds(js: set<Jurisdiction>): set<JobId> {
    set j <- js :: OwnSecondary(j)
  }

  function OwnJobs(js: set<Jurisdiction>): Jobs {
    map j <- js :: OwnSecondary(j) := Job({j}, Nightly)
  }

  /** Only Florida's cadence can move, and never below what its configuration says. */
  function DedicatedCadence(config: Config, cadences: map<Jurisdiction, Cadence>, j: Jurisdiction): Cadence {
    if j == "fl" && config.floridaHasDay && !IsNightly(config, cadences, j) then Weekly else Nightly
  }

  function DedicatedJobs(config: Config, cadences: map<Jurisdiction, Cadence>, js: seq<Jurisdiction>): Jobs {
    map j <- js :: Dedicated(j) := Job({j}, DedicatedCadence(config, cadences, j))
  }

  function PrimaryJobs(js: seq<Jurisdiction>): Jobs {
    map j <- js :: Primary(j) := Job({j}, Nightly)
  }

  function BatchJob(weekly: set<Jurisdiction>): Jobs {
    if weekly == {} then map[] else map[SecondaryBatch := Job(weekly, Weekly)]
  }

  function Elements(js: seq<Jurisdiction>): set<Jurisdiction> {
    set j <- js
  }

  /** The scrape jobs these cadences call for. */
  function Layout(config: Config, cadences: map<Jurisdiction, Cadence>): Jobs {
    DedicatedJobs(config, cadences, config.dedicated) + PrimaryJobs(config.primaries)
    + OwnJobs(NightlyOnes(config, cadences)) + BatchJob(WeeklyOnes(config, cadences))
  }

  /** The primary section: a job of its own for each, and no job left over from its time as a secondary. */
  function WithPrimaries(jobs: Jobs, primaries: seq<Jurisdiction>): Jobs {
    jobs - OwnIds(Elements(primaries)) + PrimaryJobs(primaries)
  }

  /** The secondary section: the jobs it no longer uses go, then the ones it uses come. */
  function WithSecondaries(jobs: Jobs, weekly: set<Jurisdiction>, nightly: set<Jurisdiction>): Jobs {
    var own := jobs - OwnIds(weekly) + OwnJobs(nightly);
    if weekly != {} then own[SecondaryBatch := Job(weekly, Weekly)] else own - {SecondaryBatch}
  }

  /** One registration on top of what is registered. */
  function Registered(config: Config, cadences: map<Jurisdiction, Cadence>, jobs: Jobs): Jobs {
    var dedicated := jobs + DedicatedJobs(config, cadences, config.dedicated);
    WithSecondaries(WithPrimaries(dedicated, config.primaries), WeeklyOnes(config, cadences), NightlyOnes(config, cadences))
  }

  // ---------------------------------------------------------------------------------------------
  // Any sequence of registrations
  // ---------------------------------------------------------------------------------------------

  function RegisteredAll(config: Config, all: seq<map<Jurisdiction, Cadence>>, jobs: Jobs): Jobs {
    if all == [] then jobs else Registered(config, all[|all| - 1], RegisteredAll(config, all[..|all| - 1], jobs))
  }

  /** The jobs this configuration can ever register. */
  predicate IsScrapeJob(config: Config, id: JobId) {
    match id
    case Dedicated(j) => j in config.dedicated
    case Primary(j) => j in config.primaries
    case OwnSecondary(j) => j in config.secondary
    case SecondaryBatch => true
    case OtherJob(_) => false
  }

  /** With this id, a registration leaves what the layout has and nothing of what was registered before. */
  predicate AsLaidOut(config: Config, id: JobId, after: Jobs, layout: Jobs) {
    && (IsScrapeJob(config, id) ==> (id in after <==> id in layout))
    && (id in layout ==> IsScrapeJob(config, id) && id in after && after[id] == layout[id])
  }

  lemma OwnJobsAreTheNightlyOnes(config: Config, cadences: map<Jurisdiction, Cadence>, jobs: Jobs, j: Jurisdiction)
    ensures AsLaidOut(config, OwnSecondary(j), Registered(config, cadences, jobs), Layout(config, cadences))
  {
    if j in config.secondary && j !in NightlyOnes(config, cadences) {
      assert j in WeeklyOnes(config, cadences);
    }
  }

  lemma PrimaryJobsAreThePrimaries(config: Config, cadences: map<Jurisdiction, Cadence>, jobs: Jobs, id: JobId)
    requires id.Primary? || id.Dedicated?
    ensures AsLaidOut(config, id, Registered(config, cadences, jobs), Layout(config, cadences))
  {
  }

  lemma OneBatchJob(config: Config, cadences: map<Jurisdiction, Cadence>, jobs: Jobs)
    ensures AsLaidOut(config, SecondaryBatch, Registered(config, cadences, jobs), Layout(config, cadences))
  {
  }

  lemma NoOtherJobs(config: Config, cadences: map<Jurisdiction, Cadence>, name: string)
    ensures OtherJob(name) !in Layout(config, cadences)
  {
  }

  /** A registration leaves the layout it calls for and nothing of what was registered before. */
  lemma RegistrationForgets(config: Config, cadences: map<Jurisdiction, Cadence>, jobs: Jobs, id: JobId)
    ensures AsLaidOut(config, id, Registered(config, cadences, jobs), Layout(config, cadences))
  {
    match id
    case OwnSecondary(j) => OwnJobsAreTheNightlyOnes(config, cadences, jobs, j);
    case SecondaryBatch => OneBatchJob(config, cadences, jobs);
    case OtherJob(name) => NoOtherJobs(config, cadences, name);
    case _ => PrimaryJobsAreThePrimaries(config, cadences, jobs, id);
  }

  /** After any sequence of registrations with any cadences, the scrape jobs are the layout of the last
      one: nothing an earlier one scheduled is left behind, and nothing is missing. */
  lemma OnlyTheLastRegistrationCounts(config: Config, all: seq<map<Jurisdiction, Cadence>>, jobs: Jobs, id: JobId)
    requires all != [] && IsScrapeJob(config, id)
    ensures var after, layout := RegisteredAll(config, all, jobs), Layout(config, all[|all| - 1]);
            (id in after <==> id in layout) && (id in layout ==> after[id] == layout[id])
  {
    RegistrationForgets(config, all[|all| - 1], RegisteredAll(config, all[..|all| - 1], jobs), id);
  }

  /** The jobs that scrape a jurisdiction. */
  function Covering(jobs: Jobs, j: Jurisdiction): set<JobId> {
    set id <- jobs | j in jobs[id].covers
  }

  /** The job a secondary jurisdiction is meant to have. */
  function MeantJob(config: Config, cadences: map<Jurisdiction, Cadence>, j: Jurisdiction): JobId {
    if IsNightly(config, cadences, j) then OwnSecondary(j) else SecondaryBatch
  }

  lemma CoveredBy(config: Config, cadences: map<Jurisdiction, Cadence>, j: Jurisdiction, id: JobId)
    requires j in config.secondary
    ensures id in Covering(Layout(config, cadences), j)
            <==> id == MeantJob(config, cadences, j) || (id == Primary(j) && j in config.primaries)
                 || (id == Dedicated(j) && j in config.dedicated)
  {
    var layout := Layout(config, cadences);
    match id
    case Dedicated(q) => assert id in layout <==> id in DedicatedJobs(config, cadences, config.dedicated);
    case Primary(q) => assert id in layout <==> id in PrimaryJobs(config.primaries);
    case OwnSecondary(q) => assert id in layout <==> q in NightlyOnes(config, cadences);
    case SecondaryBatch => assert j in WeeklyOnes(config, cadences) <==> !IsNightly(config, cadences, j);
    case OtherJob(_) =>
  }

  /** The jobs a jurisdiction has because it is an enabled primary. */
  function PrimaryIds(config: Config, j: Jurisdiction): set<JobId> {
    (if j in config.primaries then {Primary(j)} else {}) + (if j in config.dedicated then {Dedicated(j)} else {})
  }

  lemma CoveredExactly(config: Config, cadences: map<Jurisdiction, Cadence>, j: Jurisdiction)
    requires j in config.secondary
    ensures Covering(Layout(config, cadences), j) == {MeantJob(config, cadences, j)} + PrimaryIds(config, j)
  {
    var covering, meant := Covering(Layout(config, cadences), j), {MeantJob(config, cadences, j)} + PrimaryIds(config, j);
    forall id | id in covering
      ensures id in meant
    {
      CoveredBy(config, cadences, j, id);
    }
    forall id | id in meant
      ensures id in covering
    {
      CoveredBy(config, cadences, j, id);
    }
  }

  /** Every secondary jurisdiction has exactly one job, its own nightly one or the weekly batch, if and
      only if it is not also an enabled primary; an excluded one is never nightly on its own. */
  lemma ExactlyOneJob(config: Config, cadences: map<Jurisdiction, Cadence>, j: Jurisdiction)
    requires j in config.secondary
    ensures var layout, meant := Layout(config, cadences), MeantJob(config, cadences, j);
            && meant in Covering(layout, j)
            && (Covering(layout, j) == {meant} <==> j !in config.primaries && j !in config.dedicated)
            && layout[meant].cadence == (if meant == SecondaryBatch then Weekly else Nightly)
    ensures j in config.excluded ==> OwnSecondary(j) !in Layout(config, cadences)
  {
    var meant := MeantJob(config, cadences, j);
    CoveredExactly(config, cadences, j);
    if j in config.primaries {
      assert Primary(j) in {meant} + PrimaryIds(config, j) && Primary(j) !in {meant};
    } else if j in config.dedicated {
      assert Dedicated(j) in {meant} + PrimaryIds(config, j) && Dedicated(j) !in {meant};
    }
  }

  /** Every job is one of the scheduler's others, which do not scrape this jurisdiction, or one that this
      configuration can register. */
  predicate NothingElseCovers(config: Config, jobs: Jobs, j: Jurisdiction) {
    forall id <- jobs :: IsScrapeJob(config, id) || (id.OtherJob? && j !in jobs[id].covers)
  }

  lemma {:induction false} NothingElseEverCovers(config: Config, all: seq<map<Jurisdiction, Cadence>>, jobs: Jobs, j: Jurisdiction)
    requires NothingElseCovers(config, jobs, j)
    ensures NothingElseCovers(config, RegisteredAll(config, all, jobs), j)
  {
    if all != [] {
      var before := RegisteredAll(config, all[..|all| - 1], jobs);
      NothingElseEverCovers(config, all[..|all| - 1], jobs, j);
      var after := Registered(config, all[|all| - 1], before);
      assert forall id <- after :: IsScrapeJob(config, id) || (id in before && before[id] == after[id]);
    }
  }

  /** The jobs that scrape a jurisdiction after any registrations are those of the last one's layout. */
  lemma CoveredByTheLast(config: Config, all: seq<map<Jurisdiction, Cadence>>, jobs: Jobs, j: Jurisdiction)
    requires all != [] && NothingElseCovers(config, jobs, j)
    ensures Covering(RegisteredAll(config, all, jobs), j) == Covering(Layout(config, all[|all| - 1]), j)
  {
    var after, layout := RegisteredAll(config, all, jobs), Layout(config, all[|all| - 1]);
    NothingElseEverCovers(config, all, jobs, j);
    forall id
      ensures id in Covering(after, j) <==> id in Covering(layout, j)
    {
      if IsScrapeJob(config, id) {
        OnlyTheLastRegistrationCounts(config, all, jobs, id);
      } else {
        RegistrationForgets(config, all[|all| - 1], jobs, id);
      }
    }
  }

  /** Any non-empty sequence of registrations with any cadences, from nothing or from whatever other
      registrations left, gives a secondary jurisdiction exactly one job, the one the last cadences mean
      for it, if and only if it is not also an enabled primary. */
  lemma ExactlyOneJobAlways(config: Config, all: seq<map<Jurisdiction, Cadence>>, jobs: Jobs, j: Jurisdiction)
    requires all != [] && j in config.secondary && NothingElseCovers(config, jobs, j)
    ensures var after, meant := RegisteredAll(config, all, jobs), MeantJob(config, all[|all| - 1], j);
            && meant in Covering(after, j)
            && (Covering(after, j) == {meant} <==> j !in config.primaries && j !in config.dedicated)
            && after[meant].cadence == (if meant == SecondaryBatch then Weekly else Nightly)
    ensures j in config.excluded ==> OwnSecondary(j) !in RegisteredAll(config, all, jobs)
  {
    CoveredByTheLast(config, all, jobs, j);
    ExactlyOneJob(config, all[|all| - 1], j);
    OnlyTheLastRegistrationCounts(config, all, jobs, MeantJob(config, all[|all| - 1], j));
    OnlyTheLastRegistrationCounts(config, all, jobs, OwnSecondary(j));
  }

  /** Which job scrapes which jurisdiction after any registrations, read off the last cadences: a
      secondary one has its own nightly job if it is to be nightly and is not excluded, and is in the
      weekly batch otherwise; a primary one has its own nightly job; and the only dedicated job that is
      ever weekly is Florida's, when a day is configured for it and it is not to be nightly. */
  lemma JobsOfEveryJurisdiction(config: Config, all: seq<map<Jurisdiction, Cadence>>, jobs: Jobs, j: Jurisdiction)
    requires all != [] && NothingElseCovers(config, jobs, j)
    ensures var after, last := RegisteredAll(config, all, jobs), all[|all| - 1];
            var nightly := j in last && last[j] == Nightly && j !in config.excluded;
            var secondary, primary, dedicated := j in config.secondary, j in config.primaries, j in config.dedicated;
            && (secondary && !primary && !dedicated && nightly ==>
                  Covering(after, j) == {OwnSecondary(j)} && after[OwnSecondary(j)] == Job({j}, Nightly))
            && (secondary && !primary && !dedicated && !nightly ==>
                  Covering(after, j) == {SecondaryBatch} && after[SecondaryBatch].cadence == Weekly)
            && (!secondary && primary && !dedicated ==> Covering(after, j) == {Primary(j)} && after[Primary(j)] == Job({j}, Nightly))
            && (!secondary && !primary && dedicated ==> Covering(after, j) == {Dedicated(j)} && after[Dedicated(j)].covers == {j})
            && (dedicated ==> Dedicated(j) in after
                              && (after[Dedicated(j)].cadence == Weekly <==> j == "fl" && config.floridaHasDay && !nightly))
            && (!secondary && !primary && !dedicated ==> Covering(after, j) == {})
  {
    var last := all[|all| - 1];
    CoveredByTheLast(config, all, jobs, j);
    LastJobsOf(config, all, jobs, j);
    LayoutHas(config, last, j);
    var covering := Covering(Layout(config, last), j);
    if j in config.secondary {
      CoveredExactly(config, last, j);
      ExactlyOneJob(config, last, j);
      assert j !in config.primaries && j !in config.dedicated ==> PrimaryIds(config, j) == {};
    } else {
      forall id
        ensures id in covering <==> id in PrimaryIds(config, j)
      {
        CoveredByPrimaries(config, last, j, id);
      }
      assert covering == PrimaryIds(config, j);
    }
  }

  lemma CoveredByPrimaries(config: Config, cadences: map<Jurisdiction, Cadence>, j: Jurisdiction, id: JobId)
    requires j !in config.secondary
    ensures id in Covering(Layout(config, cadences), j) <==> id in PrimaryIds(config, j)
  {
    var layout := Layout(config, cadences);
    match id
    case Dedicated(q) => assert id in layout <==> id in DedicatedJobs(config, cadences, config.dedicated);
    case Primary(q) => assert id in layout <==> id in PrimaryJobs(config.primaries);
    case OwnSecondary(q) => assert id in layout <==> q in NightlyOnes(config, cadences);
    case SecondaryBatch => assert j !in WeeklyOnes(config, cadences);
    case OtherJob(_) =>
  }

  /** The four jobs a jurisdiction can have are those of the last layout. */
  lemma LastJobsOf(config: Config, all: seq<map<Jurisdiction, Cadence>>, jobs: Jobs, j: Jurisdiction)
    requires all != []
    ensures var after, layout := RegisteredAll(config, all, jobs), Layout(config, all[|all| - 1]);
            forall id <- {OwnSecondary(j), Primary(j), Dedicated(j), SecondaryBatch} :: id in layout ==> id in after && after[id] == layout[id]
  {
    var before := RegisteredAll(config, all[..|all| - 1], jobs);
    RegistrationForgets(config, all[|all| - 1], before, OwnSecondary(j));
    RegistrationForgets(config, all[|all| - 1], before, Primary(j));
    RegistrationForgets(config, all[|all| - 1], before, Dedicated(j));
    RegistrationForgets(config, all[|all| - 1], before, SecondaryBatch);
  }

  // ---------------------------------------------------------------------------------------------
  // A registration that raises
  // ---------------------------------------------------------------------------------------------

  /** What a registration that raised half way can have left: each job is as it was or as the whole
      registration would make it. On a running scheduler a job that both have is still there, but for
      the leftover of a jurisdiction that is a primary now. */
  predicate Between(config: Config, jobs: Jobs, full: Jobs, now: Jobs, running: bool) {
    && (forall id <- now :: (id in jobs && now[id] == jobs[id]) || (id in full && now[id] == full[id]))
    && (forall id <- jobs :: id in full && id !in now ==>
          IsScrapeJob(config, id) && (!running || (id.OwnSecondary? && id.j in config.primaries)))
  }

  lemma BetweenRemove(config: Config, jobs: Jobs, full: Jobs, now: Jobs, running: bool, id: JobId)
    requires Between(config, jobs, full, now, running)
    requires id !in full || (IsScrapeJob(config, id) && (!running || (id.OwnSecondary? && id.j in config.primaries)))
    ensures Between(config, jobs, full, now - {id}, running)
  {
  }

  lemma BetweenAdd(config: Config, jobs: Jobs, full: Jobs, now: Jobs, running: bool, id: JobId, job: Job)
    requires Between(config, jobs, full, now, running) && id in full && full[id] == job
    ensures Between(config, jobs, full, now[id := job], running)
  {
  }

  // ---------------------------------------------------------------------------------------------
  // The scheduler
  // ---------------------------------------------------------------------------------------------

  datatype Entry = Entry(id: JobId, job: Job)

  /** The jobs a list of pending ones amounts to. */
  function FromPending(pending: seq<Entry>): Jobs {
    if pending == [] then map[] else FromPending(pending[..|pending| - 1])[pending[|pending| - 1].id := pending[|pending| - 1].job]
  }

  predicate OncePerId(pending: seq<Entry>) {
    forall i, k :: 0 <= i < k < |pending| ==> pending[i].id != pending[k].id
  }

  /** `remove_job` before the start: the first pending job with the id. */
  function WithoutFirst(pending: seq<Entry>, id: JobId): seq<Entry> {
    if pending == [] then [] else if pending[0].id == id then pending[1..] else [pending[0]] + WithoutFirst(pending[1..], id)
  }

  lemma {:induction false} PendingHas(pending: seq<Entry>, e: Entry)
    requires OncePerId(pending)
    ensures e in pending <==> e.id in FromPending(pending) && FromPending(pending)[e.id] == e.job
    ensures e.id in FromPending(pending) <==> exists i :: 0 <= i < |pending| && pending[i].id == e.id
  {
    if pending != [] {
      PendingHas(pending[..|pending| - 1], e);
      assert pending == pending[..|pending| - 1] + [pending[|pending| - 1]];
    }
  }

  lemma {:induction false} RemovalIsExact(pending: seq<Entry>, id: JobId)
    requires OncePerId(pending)
    ensures OncePerId(WithoutFirst(pending, id))
    ensures forall e :: e in WithoutFirst(pending, id) <==> e in pending && e.id != id
  {
    if pending != [] {
      RemovalIsExact(pending[1..], id);
      assert pending == [pending[0]] + pending[1..];
      if pending[0].id != id {
        OneMoreEntry(pending[0], WithoutFirst(pending[1..], id));
      }
    }
  }

  lemma OneMoreEntry(first: Entry, rest: seq<Entry>)
    requires OncePerId(rest) && forall e <- rest :: e.id != first.id
    ensures OncePerId([first] + rest)
  {
  }

  lemma RemovalRemoves(pending: seq<Entry>, id: JobId)
    requires OncePerId(pending)
    ensures FromPending(WithoutFirst(pending, id)) == FromPending(pending) - {id}
  {
    var rest, jobs := WithoutFirst(pending, id), FromPending(pending);
    RemovalIsExact(pending, id);
    forall q | q in FromPending(rest)
      ensures q != id && q in jobs && jobs[q] == FromPending(rest)[q]
    {
      PendingHas(rest, Entry(q, FromPending(rest)[q]));
      PendingHas(pending, Entry(q, FromPending(rest)[q]));
    }
    forall q | q in jobs && q != id
      ensures q in FromPending(rest)
    {
      PendingHas(pending, Entry(q, jobs[q]));
      PendingHas(rest, Entry(q, jobs[q]));
    }
  }

  class Scheduler {
    const config: Config
    /** No call to APScheduler, and nothing in the sections around the scrape jobs, raises. */
    const neverRaises: bool
    var running: bool
    var store: Jobs
    var pending: seq<Entry>

    constructor (config: Config, neverRaises: bool)
      ensures Valid() && this.config == config && this.neverRaises == neverRaises && !running && Jobs() == map[]
    {
      this.config, this.neverRaises, running, store, pending := config, neverRaises, false, map[], [];
    }

    /** At most one job exists per id, before the start too. */
    predicate Valid()
      reads this
    {
      !running ==> OncePerId(pending)
    }

    function Jobs(): Jobs
      reads this
    {
      if running then store else FromPending(pending)
    }

    /** APScheduler's `start`: the pending jobs go into the jobstore. */
    method Start()
      requires Valid() && !running
      modifies this
      ensures Valid() && running && Jobs() == old(Jobs())
    {
      store, running := FromPending(pending), true;
    }

    /** `_remove_job_if_present`. */
    method RemoveIfPresent(id: JobId)
      requires Valid()
      modifies this`store, this`pending
      ensures Valid() && Jobs() == old(Jobs()) - {id}
    {
      if running {
        store := store - {id};
      } else {
        RemovalIsExact(pending, id);
        RemovalRemoves(pending, id);
        pending := WithoutFirst(pending, id);
      }
    }

    /** `_add_job_replacing`: the flag only replaces in the jobstore, so before the start the job is
        removed first. `add_job` may raise, which on a running scheduler leaves the old job. */
    method AddReplacing(id: JobId, job: Job) returns (ok: bool)
      requires Valid()
      modifies this`store, this`pending
      ensures Valid()
      ensures Jobs() == if ok then old(Jobs())[id := job] else if running then old(Jobs()) else old(Jobs()) - {id}
      ensures neverRaises ==> ok
    {
      var raises: bool := *;
      ok := !raises || neverRaises;
      if running {
        if ok {
          store := store[id := job];
        }
      } else {
        RemoveIfPresent(id);
        if ok {
          PendingHas(pending, Entry(id, job));
          var before := pending;
          pending := pending + [Entry(id, job)];
          assert pending[..|pending| - 1] == before;
          assert FromPending(before)[id := job] == old(Jobs())[id := job];
        }
      }
    }

    /** What is registered lies between what was, `jobs`, and what `given` calls for. */
    ghost predicate Under(given: map<Jurisdiction, Cadence>, jobs: Jobs)
      reads this
    {
      Valid() && Between(config, jobs, Registered(config, given, jobs), Jobs(), running)
    }

    /** A registration's own `_add_job_replacing`. */
    method Add(id: JobId, job: Job, ghost given: map<Jurisdiction, Cadence>, ghost jobs: Jobs) returns (ok: bool)
      requires Under(given, jobs) && id in Layout(config, given) && Layout(config, given)[id] == job
      modifies this`store, this`pending
      ensures Under(given, jobs)
      ensures ok ==> Jobs() == old(Jobs())[id := job]
      ensures neverRaises ==> ok
    {
      ghost var full := Registered(config, given, jobs);
      RegistrationForgets(config, given, jobs, id);
      ok := AddReplacing(id, job);
      BetweenAdd(config, jobs, full, old(Jobs()), running, id, job);
      if !running {
        BetweenRemove(config, jobs, full, old(Jobs()), running, id);
      }
    }

    /** A registration's own `_remove_job_if_present`. */
    method Remove(id: JobId, ghost given: map<Jurisdiction, Cadence>, ghost jobs: Jobs)
      requires Under(given, jobs)
      requires id !in Registered(config, given, jobs) || (id.OwnSecondary? && id.j in config.primaries && id.j in config.secondary)
      modifies this`store, this`pending
      ensures Under(given, jobs) && Jobs() == old(Jobs()) - {id}
    {
      RemoveIfPresent(id);
      BetweenRemove(config, jobs, Registered(config, given, jobs), old(Jobs()), running, id);
    }

    /** The scrape jobs of `_register_openstates_scrape_jobs`, both sections enabled; false when it raised,
        in one of these sections or in one of those around them. */
    method RegisterScrapeJobs(given: map<Jurisdiction, Cadence>) returns (ok: bool)
      requires Valid()
      modifies this`store, this`pending
      ensures Valid() && Between(config, old(Jobs()), Registered(config, given, old(Jobs())), Jobs(), running)
      ensures ok ==> Jobs() == Registered(config, given, old(Jobs()))
      ensures neverRaises ==> ok
    {
      ghost var jobs := Jobs();
      var raisesBefore, raisesAfter: bool := *, *;
      ok := !raisesBefore || neverRaises;
      if !ok {
        return;
      }
      ok := RegisterDedicated(given, jobs);
      if !ok {
        return;
      }
      ok := RegisterPrimaries(given, jobs);
      if !ok {
        return;
      }
      ok := RegisterSecondaries(given, jobs);
      ok := ok && (!raisesAfter || neverRaises);
    }

    method RegisterDedicated(given: map<Jurisdiction, Cadence>, ghost jobs: Jobs) returns (ok: bool)
      requires Under(given, jobs)
      modifies this`store, this`pending
      ensures Under(given, jobs)
      ensures ok ==> Jobs() == old(Jobs()) + DedicatedJobs(config, given, config.dedicated)
      ensures neverRaises ==> ok
    {
      assert Jobs() == Jobs() + DedicatedJobs(config, given, []);
      for i := 0 to |config.dedicated|
        invariant Under(given, jobs) && Jobs() == old(Jobs()) + DedicatedJobs(config, given, config.dedicated[..i])
      {
        var j := config.dedicated[i];
        LayoutHas(config, given, j);
        TakeOneMore(config.dedicated, i);
        ok := Add(Dedicated(j), Job({j}, DedicatedCadence(config, given, j)), given, jobs);
        if !ok {
          return;
        }
        OneMoreDedicated(config, given, old(Jobs()), config.dedicated[..i], j);
      }
      assert config.dedicated[..|config.dedicated|] == config.dedicated;
      ok := true;
    }

    method RegisterPrimaries(given: map<Jurisdiction, Cadence>, ghost jobs: Jobs) returns (ok: bool)
      requires Under(given, jobs)
      modifies this`store, this`pending
      ensures Under(given, jobs)
      ensures ok ==> Jobs() == WithPrimaries(old(Jobs()), config.primaries)
      ensures neverRaises ==> ok
    {
      for i := 0 to |config.primaries|
        invariant Under(given, jobs) && Jobs() == WithPrimaries(old(Jobs()), config.primaries[..i])
      {
        var j := config.primaries[i];
        RegistrationForgets(config, given, jobs, OwnSecondary(j));
        if j !in config.secondary {
          PrimaryLeavesNoOther(config, given, jobs, j);
        }
        Remove(OwnSecondary(j), given, jobs);
        LayoutHas(config, given, j);
        TakeOneMore(config.primaries, i);
        ok := Add(Primary(j), Job({j}, Nightly), given, jobs);
        if !ok {
          return;
        }
        OneMorePrimary(old(Jobs()), config.primaries[..i], j);
      }
      assert config.primaries[..|config.primaries|] == config.primaries;
      ok := true;
    }

    method RegisterSecondaries(given: map<Jurisdiction, Cadence>, ghost jobs: Jobs) returns (ok: bool)
      requires Under(given, jobs)
      modifies this`store, this`pending
      ensures Under(given, jobs)
      ensures ok ==> Jobs() == WithSecondaries(old(Jobs()), WeeklyOnes(config, given), NightlyOnes(config, given))
      ensures neverRaises ==> ok
    {
      var cadences := map j | j in given && !(j in config.excluded && given[j] == Nightly) :: given[j];
      var all := config.secondary;
      var nightly := set j <- all | j in cadences && cadences[j] == Nightly;
      var weekly := set j <- all | j !in nightly;
      assert nightly == NightlyOnes(config, given) && weekly == WeeklyOnes(config, given);
      DropOwnJobs(weekly, given, jobs);
      ok := AddOwnJobs(nightly, given, jobs);
      if !ok {
        return;
      }
      if weekly != {} {
        ok := Add(SecondaryBatch, Job(weekly, Weekly), given, jobs);
      } else {
        RegistrationForgets(config, given, jobs, SecondaryBatch);
        Remove(SecondaryBatch, given, jobs);
      }
    }

    method DropOwnJobs(weekly: set<Jurisdiction>, ghost given: map<Jurisdiction, Cadence>, ghost jobs: Jobs)
      requires Under(given, jobs) && weekly == WeeklyOnes(config, given)
      modifies this`store, this`pending
      ensures Under(given, jobs) && Jobs() == old(Jobs()) - OwnIds(weekly)
    {
      var left := weekly;
      while left != {}
        invariant left <= weekly && Under(given, jobs)
        invariant Jobs() == old(Jobs()) - OwnIds(weekly - left)
        decreases left
      {
        var j :| j in left;
        RegistrationForgets(config, given, jobs, OwnSecondary(j));
        Remove(OwnSecondary(j), given, jobs);
        OneLessOwnJob(old(Jobs()), weekly, left, j);
        left := left - {j};
      }
    }

    method AddOwnJobs(nightly: set<Jurisdiction>, ghost given: map<Jurisdiction, Cadence>, ghost jobs: Jobs) returns (ok: bool)
      requires Under(given, jobs) && nightly == NightlyOnes(config, given)
      modifies this`store, this`pending
      ensures Under(given, jobs)
      ensures ok ==> Jobs() == old(Jobs()) + OwnJobs(nightly)
      ensures neverRaises ==> ok
    {
      var left := nightly;
      ok := true;
      while left != {}
        invariant left <= nightly && Under(given, jobs) && ok
        invariant Jobs() == old(Jobs()) + OwnJobs(nightly - left)
        decreases left
      {
        var j :| j in left;
        LayoutHas(config, given, j);
        OneMoreOwnJob(old(Jobs()), nightly, left, j);
        ok := Add(OwnSecondary(j), Job({j}, Nightly), given, jobs);
        if !ok {
          return;
        }
        left := left - {j};
      }
      assert nightly - left == nightly;
    }

    /** Any registrations one after another, with the start before the `startAt`-th: as long as none raises,
        every secondary jurisdiction has exactly the job that the last cadences mean for it, if it is not
        also an enabled primary. */
    method RegisterInTurn(all: seq<map<Jurisdiction, Cadence>>, startAt: nat) returns (ok: bool)
      requires Valid() && !running && Jobs() == map[]
      modifies this
      ensures Valid()
      ensures ok ==> Jobs() == RegisteredAll(config, all, map[]) && (running <==> startAt <= |all|)
      ensures neverRaises ==> ok
      ensures ok && all != [] ==> forall j <- config.secondary ::
                Covering(Jobs(), j) == {MeantJob(config, all[|all| - 1], j)} <==> j !in config.primaries && j !in config.dedicated
      ensures ok && all != [] ==> forall j <- config.secondary | j !in config.primaries && j !in config.dedicated ::
                var last := all[|all| - 1];
                if j in last && last[j] == Nightly && j !in config.excluded
                then Covering(Jobs(), j) == {OwnSecondary(j)} && Jobs()[OwnSecondary(j)] == Job({j}, Nightly)
                else Covering(Jobs(), j) == {SecondaryBatch} && Jobs()[SecondaryBatch].cadence == Weekly
    {
      for i := 0 to |all|
        invariant Valid() && Jobs() == RegisteredAll(config, all[..i], map[]) && (running <==> startAt < i)
      {
        if i == startAt {
          Start();
        }
        ok := RegisterScrapeJobs(all[i]);
        if !ok {
          return;
        }
        assert all[..i + 1][..i] == all[..i];
      }
      ok := true;
      if startAt == |all| {
        Start();
      }
      assert all[..|all|] == all;
      if all != [] {
        forall j <- config.secondary
          ensures Covering(Jobs(), j) == {MeantJob(config, all[|all| - 1], j)} <==> j !in config.primaries && j !in config.dedicated
        {
          ExactlyOneJobAlways(config, all, map[], j);
        }
        forall j <- config.secondary | j !in config.primaries && j !in config.dedicated
          ensures var last := all[|all| - 1];
                  if j in last && last[j] == Nightly && j !in config.excluded
                  then Covering(Jobs(), j) == {OwnSecondary(j)} && Jobs()[OwnSecondary(j)] == Job({j}, Nightly)
                  else Covering(Jobs(), j) == {SecondaryBatch} && Jobs()[SecondaryBatch].cadence == Weekly
        {
          JobsOfEveryJurisdiction(config, all, map[], j);
        }
      }
    }
  }

  /** A primary that is no secondary has no other job once everything is registered. */
  lemma PrimaryLeavesNoOther(config: Config, cadences: map<Jurisdiction, Cadence>, jobs: Jobs, j: Jurisdiction)
    requires j in config.primaries && j !in config.secondary
    ensures OwnSecondary(j) !in Registered(config, cadences, jobs)
  {
  }

  lemma TakeOneMore(js: seq<Jurisdiction>, i: nat)
    requires i < |js|
    ensures js[..i + 1] == js[..i] + [js[i]]
  {
  }

  lemma LayoutHas(config: Config, cadences: map<Jurisdiction, Cadence>, j: Jurisdiction)
    ensures j in config.dedicated ==>
              Dedicated(j) in Layout(config, cadences)
              && Layout(config, cadences)[Dedicated(j)] == Job({j}, DedicatedCadence(config, cadences, j))
    ensures j in config.primaries ==>
              Primary(j) in Layout(config, cadences) && Layout(config, cadences)[Primary(j)] == Job({j}, Nightly)
    ensures j in NightlyOnes(config, cadences) ==>
              OwnSecondary(j) in Layout(config, cadences) && Layout(config, cadences)[OwnSecondary(j)] == Job({j}, Nightly)
  {
  }

  lemma OneMoreDedicated(config: Config, cadences: map<Jurisdiction, Cadence>, jobs: Jobs, js: seq<Jurisdiction>, j: Jurisdiction)
    ensures jobs + DedicatedJobs(config, cadences, js + [j])
            == (jobs + DedicatedJobs(config, cadences, js))[Dedicated(j) := Job({j}, DedicatedCadence(config, cadences, j))]
  {
    assert DedicatedJobs(config, cadences, js + [j])
           == DedicatedJobs(config, cadences, js)[Dedicated(j) := Job({j}, DedicatedCadence(config, cadences, j))];
  }

  lemma OneLessOwnJob(jobs: Jobs, all: set<Jurisdiction>, left: set<Jurisdiction>, j: Jurisdiction)
    requires j in left && left <= all
    ensures jobs - OwnIds(all - (left - {j})) == jobs - OwnIds(all - left) - {OwnSecondary(j)}
  {
    assert all - (left - {j}) == all - left + {j};
  }

  lemma OneMoreOwnJob(jobs: Jobs, all: set<Jurisdiction>, left: set<Jurisdiction>, j: Jurisdiction)
    requires j in left && left <= all
    ensures jobs + OwnJobs(all - (left - {j})) == (jobs + OwnJobs(all - left))[OwnSecondary(j) := Job({j}, Nightly)]
  {
    assert all - (left - {j}) == all - left + {j};
  }

  lemma OneMorePrimary(jobs: Jobs, primaries: seq<Jurisdiction>, j: Jurisdiction)
    ensures WithPrimaries(jobs, primaries + [j])
            == (WithPrimaries(jobs, primaries) - {OwnSecondary(j)})[Primary(j) := Job({j}, Nightly)]
  {
    assert Elements(primaries + [j]) == Elements(primaries) + {j};
    assert OwnIds(Elements(primaries + [j])) == OwnIds(Elements(primaries)) + {OwnSecondary(j)};
    assert PrimaryJobs(primaries + [j]) == PrimaryJobs(primaries)[Primary(j) := Job({j}, Nightly)];
  }

  // ---------------------------------------------------------------------------------------------
  // The cadence review
  // ---------------------------------------------------------------------------------------------

  function AtLeast(a: Cadence, b: Cadence): Cadence {
    if a == Nightly || b == Nightly then Nightly else Weekly
  }

  /** `resolve_cadence`: the override, but never below the floor; a missing one is the floor. */
  function Resolve(floor: Cadence, override: Option<Cadence>): Cadence {
    match override
    case None => floor
    case Some(c) => AtLeast(c, floor)
  }

  /** The runs that recorded how many new bills they imported. */
  function Measured(history: seq<Option<nat>>): seq<nat> {
    if history == [] then []
    else (if history[0].Some? then [history[0].value] else []) + Measured(history[1..])
  }

  /** `should_escalate`: a measured run among the last `window` imported new bills. A window of 0 is the
      whole history, because that is what a slice from -0 is. */
  predicate ShouldEscalate(history: seq<Option<nat>>, window: nat) {
    var measured := Measured(history);
    var recent := if window == 0 || window >= |measured| then measured else measured[|measured| - window..];
    exists n <- recent :: n > 0
  }

  /** The same, in terms of the history alone: some run imported new bills, and fewer than `window` runs
      after it were measured. */
  ghost predicate FiledRecently(history: seq<Option<nat>>, window: nat) {
    exists i :: 0 <= i < |history| && history[i].Some? && history[i].value > 0
                && (window == 0 || |set k | i < k < |history| && history[k].Some?| < window)
  }

  lemma {:induction false} CountMeasured(history: seq<Option<nat>>, from: nat)
    requires from <= |history|
    ensures |Measured(history[from..])| == |set k | from <= k < |history| && history[k].Some?|
    decreases |history| - from
  {
    var now := set k | from <= k < |history| && history[k].Some?;
    if from == |history| {
      assert now == {};
    } else {
      CountMeasured(history, from + 1);
      var rest := set k | from + 1 <= k < |history| && history[k].Some?;
      assert history[from..][1..] == history[from + 1..];
      assert now == if history[from].Some? then rest + {from} else rest;
    }
  }

  /** Where in `Measured` a measured run is: so many from the end as were measured after it. */
  lemma {:induction false} MeasuredPlace(history: seq<Option<nat>>, i: nat)
    requires i < |history| && history[i].Some?
    ensures var m := Measured(history);
            var after := |Measured(history[i + 1..])|;
            after < |m| && m[|m| - 1 - after] == history[i].value
  {
    if i > 0 {
      MeasuredPlace(history[1..], i - 1);
      assert history[1..][i..] == history[i + 1..];
    }
  }

  lemma {:induction false} MeasuredRun(history: seq<Option<nat>>, p: nat) returns (i: nat)
    requires p < |Measured(history)|
    ensures i < |history| && history[i] == Some(Measured(history)[p])
    ensures |Measured(history[i + 1..])| == |Measured(history)| - 1 - p
  {
    if history[0].Some? && p == 0 {
      i := 0;
    } else {
      var q := MeasuredRun(history[1..], if history[0].Some? then p - 1 else p);
      assert history[1..][q + 1..] == history[q + 2..];
      i := q + 1;
    }
  }

  /** An escalation looks at the latest measured runs, however many unmeasured ones lie between them. */
  lemma EscalatesOnTheLatestRuns(history: seq<Option<nat>>, window: nat)
    ensures ShouldEscalate(history, window) <==> FiledRecently(history, window)
  {
    var m := Measured(history);
    var first := if window == 0 || window >= |m| then 0 else |m| - window;
    if ShouldEscalate(history, window) {
      var p :| first <= p < |m| && m[p] > 0;
      var i := MeasuredRun(history, p);
      CountMeasured(history, i + 1);
      assert (set k | i < k < |history| && history[k].Some?) == set k | i + 1 <= k < |history| && history[k].Some?;
    }
    if FiledRecently(history, window) {
      var i :| 0 <= i < |history| && history[i].Some? && history[i].value > 0
               && (window == 0 || |set k | i < k < |history| && history[k].Some?| < window);
      MeasuredPlace(history, i);
      CountMeasured(history, i + 1);
      assert (set k | i < k < |history| && history[k].Some?) == set k | i + 1 <= k < |history| && history[k].Some?;
      assert m[|m| - 1 - |Measured(history[i + 1..])|] in m[first..];
    }
  }

  datatype Verdict = Verdict(previous: Cadence, effective: Cadence, escalates: bool)

  /** `cadence_review`. */
  function Review(floor: Cadence, override: Option<Cadence>, history: seq<Option<nat>>, window: nat, excluded: bool): Verdict {
    var previous := Resolve(floor, override);
    if !excluded && previous == Weekly && ShouldEscalate(history, window) then Verdict(previous, Nightly, true)
    else Verdict(previous, previous, false)
  }

  /** A review never lowers a cadence and never goes below the floor, and it raises exactly the weekly
      jurisdictions that are not excluded and whose latest measured runs imported new bills. */
  lemma ReviewOnlyRaises(floor: Cadence, override: Option<Cadence>, history: seq<Option<nat>>, window: nat, excluded: bool)
    ensures var v := Review(floor, override, history, window, excluded);
            && (v.previous == Nightly <==> floor == Nightly || override == Some(Nightly))
            && (v.effective == Nightly <==> v.previous == Nightly || v.escalates)
            && (v.escalates <==> floor == Weekly && override != Some(Nightly) && !excluded && FiledRecently(history, window))
  {
    EscalatesOnTheLatestRuns(history, window);
  }

  /** Every secondary jurisdiction with a nightly job of its own has a nightly floor or a stored override. */
  predicate Justified(config: Config, jobs: Jobs, floors: map<Jurisdiction, Cadence>, overrides: map<Jurisdiction, Cadence>) {
    forall j <- config.secondary :: OwnSecondary(j) in jobs ==>
      (j in floors && floors[j] == Nightly) || (j in overrides && overrides[j] == Nightly)
  }

  /** A jurisdiction whose stored override has become nightly. */
  predicate NewlyNightly(before: map<Jurisdiction, Cadence>, after: map<Jurisdiction, Cadence>, j: Jurisdiction) {
    j in after && after[j] == Nightly && !(j in before && before[j] == Nightly)
  }

  lemma NightlyIsRegistered(config: Config, cadences: map<Jurisdiction, Cadence>, jobs: Jobs, j: Jurisdiction)
    requires j in config.secondary && IsNightly(config, cadences, j)
    ensures OwnSecondary(j) in Registered(config, cadences, jobs)
  {
    assert j in NightlyOnes(config, cadences);
    RegistrationForgets(config, cadences, jobs, OwnSecondary(j));
  }

  /** Cadences that can be applied: each nightly one is stored, or is the floor. */
  predicate Backed(cadences: map<Jurisdiction, Cadence>, floors: map<Jurisdiction, Cadence>, overrides: map<Jurisdiction, Cadence>) {
    forall j <- cadences :: cadences[j] == Nightly ==>
      (j in floors && floors[j] == Nightly) || (j in overrides && overrides[j] == Nightly)
  }

  lemma BackedIsJustified(config: Config, cadences: map<Jurisdiction, Cadence>, jobs: Jobs,
                          floors: map<Jurisdiction, Cadence>, overrides: map<Jurisdiction, Cadence>)
    requires Backed(cadences, floors, overrides)
    ensures Justified(config, Registered(config, cadences, jobs), floors, overrides)
  {
    forall j | j in config.secondary && OwnSecondary(j) in Registered(config, cadences, jobs)
      ensures j in cadences && cadences[j] == Nightly
    {
      RegistrationForgets(config, cadences, jobs, OwnSecondary(j));
    }
  }

  predicate SameOverride(before: map<Jurisdiction, Cadence>, after: map<Jurisdiction, Cadence>, j: Jurisdiction) {
    (j in before <==> j in after) && (j in before ==> before[j] == after[j])
  }

  /** One verdict acted on: an escalation is applied if it was stored, anything else changes nothing. */
  predicate Persisted(before: map<Jurisdiction, Cadence>, after: map<Jurisdiction, Cadence>, j: Jurisdiction, v: Verdict,
                      cadence: Cadence, changed: bool, redisAnswers: bool) {
    if v.escalates && (redisAnswers || cadence == Nightly) then cadence == Nightly && changed && j in after && after[j] == Nightly
    else cadence == v.previous && SameOverride(before, after, j)
  }

  ghost predicate PersistedSoFar(before: map<Jurisdiction, Cadence>, after: map<Jurisdiction, Cadence>,
                                 verdicts: map<Jurisdiction, Verdict>, cadences: map<Jurisdiction, Cadence>,
                                 changed: bool, redisAnswers: bool) {
    && cadences.Keys <= verdicts.Keys
    && (forall j <- cadences :: Persisted(before, after, j, verdicts[j], cadences[j], changed, redisAnswers))
    && (forall j: Jurisdiction {:trigger SameOverride(before, after, j)} :: j !in cadences ==> SameOverride(before, after, j))
    && (changed ==> exists j <- cadences :: verdicts[j].escalates)
    && (!changed ==> after == before)
  }

  lemma PersistedOneMore(before: map<Jurisdiction, Cadence>, after: map<Jurisdiction, Cadence>, verdicts: map<Jurisdiction, Verdict>,
                         cadences: map<Jurisdiction, Cadence>, changed: bool, redisAnswers: bool, j: Jurisdiction,
                         cadence: Cadence, stored: bool)
    requires PersistedSoFar(before, after, verdicts, cadences, changed, redisAnswers)
    requires j in verdicts && j !in cadences && (verdicts[j].escalates ==> verdicts[j].previous == Weekly)
    requires stored ==> verdicts[j].escalates && cadence == Nightly
    requires !stored ==> cadence == verdicts[j].previous && !(verdicts[j].escalates && redisAnswers)
    ensures PersistedSoFar(before, if stored then after[j := Nightly] else after, verdicts, cadences[j := cadence],
                           changed || stored, redisAnswers)
  {
    var after', cadences' := if stored then after[j := Nightly] else after, cadences[j := cadence];
    assert SameOverride(before, after, j);
    forall q: Jurisdiction | q !in cadences'
      ensures SameOverride(before, after', q)
    {
      assert SameOverride(before, after, q);
    }
    forall q <- cadences'
      ensures Persisted(before, after', q, verdicts[q], cadences'[q], changed || stored, redisAnswers)
    {
      assert q != j ==> Persisted(before, after, q, verdicts[q], cadences[q], changed, redisAnswers);
    }
    if changed {
      var q :| q in cadences && verdicts[q].escalates;
      assert q in cadences';
    } else if stored {
      assert j in cadences';
    }
  }

  lemma PersistedMeans(before: map<Jurisdiction, Cadence>, after: map<Jurisdiction, Cadence>, verdicts: map<Jurisdiction, Verdict>,
                       cadences: map<Jurisdiction, Cadence>, changed: bool, redisAnswers: bool, j: Jurisdiction)
    requires PersistedSoFar(before, after, verdicts, cadences, changed, redisAnswers) && verdicts.Keys == cadences.Keys
    requires forall q <- verdicts :: verdicts[q].escalates ==> verdicts[q].previous == Weekly
    ensures j in before ==> j in after && (before[j] == Nightly ==> after[j] == Nightly)
    ensures j in after && NewlyNightly(before, after, j) ==>
              changed && j in verdicts && verdicts[j].escalates && j in cadences && cadences[j] == Nightly
    ensures redisAnswers && j in verdicts && verdicts[j].escalates ==> changed && j in after && after[j] == Nightly
    ensures !(j in verdicts && verdicts[j].escalates) ==> SameOverride(before, after, j)
    ensures j in cadences ==> Persisted(before, after, j, verdicts[j], cadences[j], changed, redisAnswers)
  {
    assert j in cadences || SameOverride(before, after, j);
  }

  /** What a registration with these cadences leaves for a secondary jurisdiction. */
  lemma RegisteredFor(config: Config, cadences: map<Jurisdiction, Cadence>, jobs: Jobs, j: Jurisdiction)
    requires j in config.secondary && j in cadences
    ensures var after := Registered(config, cadences, jobs);
            if cadences[j] == Nightly && j !in config.excluded then OwnSecondary(j) in after && after[OwnSecondary(j)] == Job({j}, Nightly)
            else OwnSecondary(j) !in after && SecondaryBatch in after && j in after[SecondaryBatch].covers && after[SecondaryBatch].cadence == Weekly
  {
    RegistrationForgets(config, cadences, jobs, OwnSecondary(j));
    RegistrationForgets(config, cadences, jobs, SecondaryBatch);
    LayoutHas(config, cadences, j);
    assert j in WeeklyOnes(config, cadences) <==> j !in NightlyOnes(config, cadences);
  }

  datatype ReviewResult = Reviewed | CouldNotRead | CouldNotApply

  class CadenceReview {
    const scheduler: Scheduler
    const floors: map<Jurisdiction, Cadence>
    const window: nat
    /** No call to Redis fails. */
    const redisAnswers: bool
    /** Redis: the runtime overrides, and each jurisdiction's measured runs. */
    var overrides: map<Jurisdiction, Cadence>
    var histories: map<Jurisdiction, seq<Option<nat>>>

    constructor (scheduler: Scheduler, floors: map<Jurisdiction, Cadence>, window: nat, redisAnswers: bool)
      ensures this.scheduler == scheduler && this.floors == floors && this.window == window && this.redisAnswers == redisAnswers
      ensures overrides == map[] && histories == map[]
    {
      this.scheduler, this.floors, this.window, this.redisAnswers := scheduler, floors, window, redisAnswers;
      overrides, histories := map[], map[];
    }

    /** The verdict on a jurisdiction from what Redis holds. */
    function VerdictOn(j: Jurisdiction): Verdict
      requires j in floors
      reads this
    {
      Review(floors[j], if j in overrides then Some(overrides[j]) else None, if j in histories then histories[j] else [],
             window, j in scheduler.config.excluded)
    }

    /** What a verdict means, whatever was read. */
    ghost predicate Sound(j: Jurisdiction, v: Verdict)
      requires j in floors
      reads this
    {
      && (v.previous == Nightly ==> floors[j] == Nightly || (j in overrides && overrides[j] == Nightly))
      && (v.escalates <==> v.previous == Weekly && v.effective == Nightly)
      && (v.escalates ==> j !in scheduler.config.excluded)
      && (!v.escalates ==> v.effective == v.previous)
      && (redisAnswers ==> v == VerdictOn(j))
    }

    /** Something new to raise: weekly until now by floor and override, not excluded, and it filed bills. */
    ghost predicate Raises(j: Jurisdiction)
      reads this
    {
      && j in floors && floors[j] == Weekly && !(j in overrides && overrides[j] == Nightly)
      && j !in scheduler.config.excluded && j in histories && FiledRecently(histories[j], window)
    }

    lemma VerdictIsRaise(j: Jurisdiction)
      requires j in floors
      ensures VerdictOn(j).escalates <==> Raises(j)
      ensures VerdictOn(j).effective == Nightly <==> floors[j] == Nightly || (j in overrides && overrides[j] == Nightly) || Raises(j)
    {
      ReviewOnlyRaises(floors[j], if j in overrides then Some(overrides[j]) else None,
                       if j in histories then histories[j] else [], window, j in scheduler.config.excluded);
    }

    /** `set_scrape_cadence`: true when the override was stored. */
    method SetCadence(j: Jurisdiction, cadence: Cadence) returns (stored: bool)
      modifies this`overrides
      ensures overrides == if stored then old(overrides)[j := cadence] else old(overrides)
      ensures redisAnswers ==> stored
    {
      var failed: bool := *;
      stored := !failed || redisAnswers;
      if stored {
        overrides := overrides[j := cadence];
      }
    }

    /** All reads and decisions, before anything is written; None when a read raised. A read that fails
        quietly gives no override, or no history. */
    method Decide() returns (verdicts: Option<map<Jurisdiction, Verdict>>)
      ensures redisAnswers ==> verdicts.Some?
      ensures verdicts.Some? ==> verdicts.value.Keys == floors.Keys && forall j <- floors :: Sound(j, verdicts.value[j])
    {
      var decided: map<Jurisdiction, Verdict> := map[];
      var left := floors.Keys;
      while left != {}
        invariant left <= floors.Keys && decided.Keys == floors.Keys - left
        invariant forall j <- decided :: Sound(j, decided[j])
        decreases left
      {
        var j :| j in left;
        left := left - {j};
        var raises, noOverride, noHistory: bool := *, *, *;
        if raises && !redisAnswers {
          return None;
        }
        var override := if (noOverride && !redisAnswers) || j !in overrides then None else Some(overrides[j]);
        var history := if (noHistory && !redisAnswers) || j !in histories then [] else histories[j];
        var v := Review(floors[j], override, history, window, j in scheduler.config.excluded);
        decided := decided[j := v];
      }
      verdicts := Some(decided);
    }

    /** One verdict: an escalation that could not be stored is not applied. */
    method PersistOne(j: Jurisdiction, v: Verdict) returns (cadence: Cadence, stored: bool)
      requires v.escalates <==> v.previous == Weekly && v.effective == Nightly
      requires !v.escalates ==> v.effective == v.previous
      modifies this`overrides
      ensures overrides == if stored then old(overrides)[j := Nightly] else old(overrides)
      ensures stored ==> v.escalates && cadence == Nightly
      ensures !stored ==> cadence == v.previous && !(v.escalates && redisAnswers)
    {
      stored, cadence := false, v.effective;
      if v.escalates {
        stored := SetCadence(j, v.effective);
        cadence := if stored then v.effective else v.previous;
      }
    }

    /** The writes. */
    method Persist(verdicts: map<Jurisdiction, Verdict>) returns (cadences: map<Jurisdiction, Cadence>, changed: bool)
      requires verdicts.Keys == floors.Keys && forall j <- floors :: Sound(j, verdicts[j])
      modifies this`overrides
      ensures cadences.Keys == floors.Keys && Backed(cadences, floors, overrides)
      ensures forall j <- old(overrides) :: j in overrides && (old(overrides)[j] == Nightly ==> overrides[j] == Nightly)
      ensures forall j <- overrides :: NewlyNightly(old(overrides), overrides, j) ==>
                changed && j in verdicts && verdicts[j].escalates && j in cadences && cadences[j] == Nightly
      ensures !changed ==> overrides == old(overrides)
      ensures redisAnswers ==> (changed <==> exists j <- floors :: verdicts[j].escalates)
      ensures redisAnswers ==> forall j <- floors :: cadences[j] == verdicts[j].effective
      ensures redisAnswers ==> forall j <- floors | verdicts[j].escalates :: j in overrides && overrides[j] == Nightly
      ensures forall j: Jurisdiction | !(j in floors && verdicts[j].escalates) :: SameOverride(old(overrides), overrides, j)
    {
      cadences, changed := map[], false;
      ghost var before := overrides;
      var left := verdicts.Keys;
      while left != {}
        invariant left <= floors.Keys && cadences.Keys == floors.Keys - left
        invariant PersistedSoFar(before, overrides, verdicts, cadences, changed, redisAnswers)
        decreases left
      {
        var j :| j in left;
        left := left - {j};
        ghost var reached := overrides;
        var cadence, stored := PersistOne(j, verdicts[j]);
        PersistedOneMore(before, reached, verdicts, cadences, changed, redisAnswers, j, cadence, stored);
        cadences, changed := cadences[j := cadence], changed || stored;
      }
      forall j: Jurisdiction
        ensures j in before ==> j in overrides && (before[j] == Nightly ==> overrides[j] == Nightly)
        ensures j in overrides && NewlyNightly(before, overrides, j) ==>
                  changed && j in verdicts && verdicts[j].escalates && j in cadences && cadences[j] == Nightly
        ensures redisAnswers && j in verdicts && verdicts[j].escalates ==> changed && j in overrides && overrides[j] == Nightly
        ensures !(j in verdicts && verdicts[j].escalates) ==> SameOverride(before, overrides, j)
        ensures j in cadences ==> Persisted(before, overrides, j, verdicts[j], cadences[j], changed, redisAnswers)
      {
        PersistedMeans(before, overrides, verdicts, cadences, changed, redisAnswers, j);
      }
    }

    /** Some jurisdiction is to be raised. */
    ghost predicate SomeoneEscalates()
      reads this
    {
      exists j <- floors :: Raises(j)
    }

    /** `_run_cadence_review`: read and decide everything, store the escalations, then apply. Nothing is
        scheduled nightly that is not stored, and a review that cannot read changes nothing. One that
        cannot apply keeps what it stored, and leaves each job as it was or as it was going to be. */
    method RunCadenceReview() returns (result: ReviewResult, ghost cadences: map<Jurisdiction, Cadence>)
      requires scheduler.Valid() && Justified(scheduler.config, scheduler.Jobs(), floors, overrides)
      modifies this`overrides, scheduler`store, scheduler`pending
      ensures scheduler.Valid() && Justified(scheduler.config, scheduler.Jobs(), floors, overrides)
      ensures forall j <- old(overrides) :: j in overrides && (old(overrides)[j] == Nightly ==> overrides[j] == Nightly)
      ensures result.CouldNotRead? ==> scheduler.Jobs() == old(scheduler.Jobs()) && overrides == old(overrides)
      ensures !result.CouldNotRead? ==> Backed(cadences, floors, overrides)
      ensures result.CouldNotApply? ==>
                Between(scheduler.config, old(scheduler.Jobs()), Registered(scheduler.config, cadences, old(scheduler.Jobs())),
                        scheduler.Jobs(), scheduler.running)
      ensures result.Reviewed? ==>
                forall j <- scheduler.config.secondary ::
                  NewlyNightly(old(overrides), overrides, j) ==> OwnSecondary(j) in scheduler.Jobs()
      ensures redisAnswers ==> !result.CouldNotRead? && forall j <- floors :: j in cadences && cadences[j] == old(VerdictOn(j)).effective
      ensures redisAnswers && scheduler.neverRaises ==> result.Reviewed?
      ensures redisAnswers ==> forall j: Jurisdiction :: if old(Raises(j)) then j in overrides && overrides[j] == Nightly
                                                         else SameOverride(old(overrides), overrides, j)
      ensures redisAnswers && result.Reviewed? && old(SomeoneEscalates()) ==>
                scheduler.Jobs() == Registered(scheduler.config, cadences, old(scheduler.Jobs()))
      ensures redisAnswers && result.Reviewed? && old(SomeoneEscalates()) ==>
                forall j <- scheduler.config.secondary | j in floors ::
                  if (floors[j] == Nightly || (j in old(overrides) && old(overrides)[j] == Nightly) || old(Raises(j))) && j !in scheduler.config.excluded
                  then OwnSecondary(j) in scheduler.Jobs() && scheduler.Jobs()[OwnSecondary(j)] == Job({j}, Nightly)
                  else OwnSecondary(j) !in scheduler.Jobs() && SecondaryBatch in scheduler.Jobs()
                       && j in scheduler.Jobs()[SecondaryBatch].covers && scheduler.Jobs()[SecondaryBatch].cadence == Weekly
      ensures redisAnswers && result.Reviewed? && !old(SomeoneEscalates()) ==> scheduler.Jobs() == old(scheduler.Jobs())
    {
      cadences := map[];
      var verdicts := Decide();
      if verdicts == None {
        return CouldNotRead, cadences;
      }
      forall j <- floors
        ensures VerdictOn(j).escalates <==> Raises(j)
        ensures VerdictOn(j).effective == Nightly <==> floors[j] == Nightly || (j in overrides && overrides[j] == Nightly) || Raises(j)
      {
        VerdictIsRaise(j);
      }
      var resolved, changed := Persist(verdicts.value);
      cadences := resolved;
      if changed {
        BackedIsJustified(scheduler.config, resolved, scheduler.Jobs(), floors, overrides);
        forall j | j in scheduler.config.secondary && NewlyNightly(old(overrides), overrides, j)
          ensures OwnSecondary(j) in Registered(scheduler.config, resolved, scheduler.Jobs())
        {
          NightlyIsRegistered(scheduler.config, resolved, scheduler.Jobs(), j);
        }
        ghost var full := Registered(scheduler.config, resolved, scheduler.Jobs());
        forall j <- scheduler.config.secondary | j in floors
          ensures if resolved[j] == Nightly && j !in scheduler.config.excluded then OwnSecondary(j) in full && full[OwnSecondary(j)] == Job({j}, Nightly)
                  else OwnSecondary(j) !in full && SecondaryBatch in full && j in full[SecondaryBatch].covers && full[SecondaryBatch].cadence == Weekly
        {
          RegisteredFor(scheduler.config, resolved, scheduler.Jobs(), j);
        }
        var ok := scheduler.RegisterScrapeJobs(resolved);
        if !ok {
          return CouldNotApply, cadences;
        }
      }
      result := Reviewed;
    }
  }

  /** A restart and the catch-up review after it. A stored override is in force again if and only if the
      review has something new to raise: it re-registers only then. */
  method RestartAndReview(review: CadenceReview) returns (result: Option<ReviewResult>)
    requires review.scheduler.Valid() && !review.scheduler.running && review.scheduler.Jobs() == map[]
    requires review.redisAnswers
    modifies review`overrides, review.scheduler
    ensures review.scheduler.neverRaises ==> result == Some(Reviewed)
    ensures result == Some(Reviewed) && !old(review.SomeoneEscalates()) ==>
              review.scheduler.Jobs() == Registered(review.scheduler.config, map[], map[])
    ensures result == Some(Reviewed) ==>
              forall j <- review.scheduler.config.secondary :: Overridden(review, old(review.overrides), j) ==>
                (OwnSecondary(j) in review.scheduler.Jobs() <==> old(review.SomeoneEscalates()))
  {
    var s := review.scheduler;
    var ok := s.RegisterScrapeJobs(map[]);
    if !ok {
      return None;
    }
    s.Start();
    ghost var booted := s.Jobs();
    forall j <- s.config.secondary
      ensures OwnSecondary(j) !in booted
    {
      RegistrationForgets(s.config, map[], map[], OwnSecondary(j));
    }
    var outcome;
    ghost var cadences;
    outcome, cadences := review.RunCadenceReview();
    forall j <- s.config.secondary | Overridden(review, old(review.overrides), j)
      ensures OwnSecondary(j) in Registered(s.config, cadences, booted)
    {
      NightlyIsRegistered(s.config, cadences, booted, j);
    }
    result := Some(outcome);
  }

  /** A restart that loses one: Virginia's stored override is read, nothing else happens, and its job stays
      in the weekly batch. */
  method RestartLosesAnOverride() returns (result: Option<ReviewResult>, s: Scheduler)
    ensures s.config.secondary == ["va"]
    ensures result == Some(Reviewed) && OwnSecondary("va") !in s.Jobs() && Covering(s.Jobs(), "va") == {SecondaryBatch}
  {
    s := new Scheduler(Config([], false, [], ["va"], {}), true);
    var review := new CadenceReview(s, map["va" := Weekly], 2, true);
    review.overrides := map["va" := Nightly];
    assert !review.SomeoneEscalates();
    assert Overridden(review, review.overrides, "va") && "va" in s.config.secondary;
    result := RestartAndReview(review);
    ghost var floorsOnly: seq<map<Jurisdiction, Cadence>> := [map[]];
    assert RegisteredAll(s.config, floorsOnly, map[]) == Registered(s.config, map[], map[]) by {
      assert floorsOnly[..0] == [];
    }
    ExactlyOneJobAlways(s.config, floorsOnly, map[], "va");
  }

  /** A jurisdiction that a stored override makes nightly. */
  ghost predicate Overridden(review: CadenceReview, overrides: map<Jurisdiction, Cadence>, j: Jurisdiction) {
    j in review.floors && j !in review.scheduler.config.excluded && j in overrides && overrides[j] == Nightly
  }
}
