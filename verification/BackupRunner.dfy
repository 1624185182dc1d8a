/**
 The backup runner: a job loop with a set of processed keys, a pending pass after a stop, the
 preflight shortcut, and the per-job state files that carry the last success from run to run.
 */
module BackupRunner {
  import opened Prelude
  import opened RunnerPolicy
  import opened Text

  /** Time is in ticks of 100 ns. */
  const HOUR: int := 36_000_000_000
  const BLANK_NAME_CODE: int := 20

  datatype Trigger = Startup | Manual | Task | Test

  datatype Settings = Settings(
    trigger: Trigger, force: bool, minimumIntervalHours: int,
    retryCount: nat, retryOnCliError: bool, stopOnFirstFailure: bool)

  /**
   A configured job with what its environment answers: the outcomes of its CLI calls and the
   clock readings when its interval is checked and when its result is recorded.
   */
  datatype ConfiguredJob = ConfiguredJob(name: string, outcomes: seq<Outcome>, checkedAt: int, completedAt: int)

  /** The state file of a job. */
  datatype JobState = JobState(verdict: Verdict, code: int, attempts: nat, lastSuccess: Option<int>)

  /** The readable state files, by the exact name of the job. */
  type Disk = map<string, JobState>

  function Key(name: string): string {
    LowerText(Trim(name))
  }

  predicate IsBlankName(name: string) {
    Trim(name) == []
  }

  predicate Callable(jobs: seq<ConfiguredJob>) {
    forall i :: 0 <= i < |jobs| ==> jobs[i].outcomes != []
  }

  /** The names that pass the validation before the loop: not blank, and distinct up to trimming and case. */
  predicate ValidNames(jobs: seq<ConfiguredJob>) {
    && (forall i :: 0 <= i < |jobs| ==> !IsBlankName(jobs[i].name))
    && (forall i, j :: 0 <= i < j < |jobs| ==> Key(jobs[i].name) != Key(jobs[j].name))
  }

  function PolicyOf(settings: Settings): Policy {
    Policy(settings.retryCount, settings.retryOnCliError, settings.stopOnFirstFailure,
      settings.trigger.Startup?, settings.force)
  }

  // ----- The minimum interval -----

  predicate ShouldRun(lastSuccess: Option<int>, hours: int, now: int) {
    hours <= 0 || lastSuccess.None? || lastSuccess.value + hours * HOUR <= now
  }

  /** Only runs triggered at startup and not forced look at the interval. */
  predicate Guarded(settings: Settings) {
    !settings.force && settings.trigger.Startup?
  }

  predicate Within(disk: Disk, name: string, settings: Settings, now: int) {
    name in disk && !ShouldRun(disk[name].lastSuccess, settings.minimumIntervalHours, now)
  }

  function Stored(disk: Disk, name: string): Option<int> {
    if name in disk then disk[name].lastSuccess else None
  }

  // ----- The job loop -----

  /** One job that was run: when it was checked and recorded, and under which interval rule. */
  datatype Event = Event(name: string, checkedAt: int, completedAt: int, success: bool, guarded: bool, hours: int)

  datatype Progress = Progress(
    results: seq<Result>, calls: seq<string>, processed: set<string>, disk: Disk, log: seq<Event>, stopped: bool)

  function Skip(p: Progress, job: ConfiguredJob): Progress
    requires job.name in p.disk
  {
    p.(results := p.results + [Result(job.name, Skipped, 0, SKIPPED_CODE)],
       disk := p.disk[job.name := JobState(Skipped, SKIPPED_CODE, 0, p.disk[job.name].lastSuccess)])
  }

  function Execute(p: Progress, job: ConfiguredJob, settings: Settings): Progress
    requires job.outcomes != []
  {
    var tried := TryFrom(job.outcomes, 0, PolicyOf(settings));
    var verdict := VerdictOf(tried.success);
    var lastSuccess := if tried.success then Some(job.completedAt) else Stored(p.disk, job.name);
    Progress(
      p.results + [Result(job.name, verdict, tried.attempts, tried.code)],
      p.calls + Calls(job.name, tried.attempts),
      p.processed,
      p.disk[job.name := JobState(verdict, tried.code, tried.attempts, lastSuccess)],
      p.log + [Event(job.name, job.checkedAt, job.completedAt, tried.success,
                     Guarded(settings), settings.minimumIntervalHours)],
      settings.stopOnFirstFailure && !tried.success)
  }

  /** The body of the job loop. */
  function Process(p: Progress, job: ConfiguredJob, settings: Settings): Progress
    requires job.outcomes != []
  {
    if IsBlankName(job.name) then
      p.(results := p.results + [Result("(vazio)", Failed, 0, BLANK_NAME_CODE)],
         stopped := settings.stopOnFirstFailure)
    else
      var q := p.(processed := p.processed + {Key(job.name)});
      if Guarded(settings) && Within(q.disk, job.name, settings, job.checkedAt) then Skip(q, job)
      else Execute(q, job, settings)
  }

  /** The loop over the first `n` jobs; a stop leaves the rest alone. */
  function JobLoop(jobs: seq<ConfiguredJob>, n: nat, settings: Settings, disk: Disk): Progress
    requires Callable(jobs) && n <= |jobs|
  {
    if n == 0 then Progress([], [], {}, disk, [], false)
    else
      var p := JobLoop(jobs, n - 1, settings, disk);
      if p.stopped then p else Process(p, jobs[n - 1], settings)
  }

  /** The results that the pending pass adds for the first `n` jobs. */
  function Pending(jobs: seq<ConfiguredJob>, n: nat, processed: set<string>): seq<Result>
    requires n <= |jobs|
  {
    if n == 0 then []
    else
      var name := Trim(jobs[n - 1].name);
      Pending(jobs, n - 1, processed) +
        if name == [] || LowerText(name) in processed then [] else [Result(name, NotRun, 0, NOT_RUN_CODE)]
  }

  function TwoPhase(jobs: seq<ConfiguredJob>, settings: Settings, disk: Disk): Progress
    requires Callable(jobs)
  {
    var p := JobLoop(jobs, |jobs|, settings, disk);
    if settings.stopOnFirstFailure && Count(p.results, Failed) > 0 then
      p.(results := p.results + Pending(jobs, |jobs|, p.processed))
    else p
  }

  // ----- The preflight shortcut -----

  predicate PreflightFires(jobs: seq<ConfiguredJob>, settings: Settings, disk: Disk, now: int) {
    && Guarded(settings) && settings.minimumIntervalHours > 0
    && forall i :: 0 <= i < |jobs| ==> !IsBlankName(jobs[i].name) && Within(disk, jobs[i].name, settings, now)
  }

  function PreflightResults(jobs: seq<ConfiguredJob>): seq<Result> {
    seq(|jobs|, i requires 0 <= i < |jobs| => Result(jobs[i].name, Skipped, 0, SKIPPED_CODE))
  }

  class Runner {
    var disk: Disk

    constructor (disk: Disk)
      ensures this.disk == disk
    {
      this.disk := disk;
    }

    /** The attempts of one job, each a call of the CLI that may throw. */
    method Attempt(job: ConfiguredJob, settings: Settings) returns (tried: Tried, calls: seq<string>)
      requires job.outcomes != []
      ensures tried == TryFrom(job.outcomes, 0, PolicyOf(settings))
      ensures calls == Calls(job.name, tried.attempts)
    {
      var success, last, attempts := false, THROWN_CODE, 0;
      calls := [];
      assert calls == Calls(job.name, 0);
      var attempt := 1;
      while attempt <= settings.retryCount + 1
        invariant 1 <= attempt <= settings.retryCount + 2 && attempts == attempt - 1 && !success
        invariant calls == Calls(job.name, attempts)
        invariant attempt <= settings.retryCount + 1 ==>
          TryFrom(job.outcomes, attempt - 1, PolicyOf(settings)) == TryFrom(job.outcomes, 0, PolicyOf(settings))
        invariant attempt == settings.retryCount + 2 ==>
          Tried(success, attempts, last) == TryFrom(job.outcomes, 0, PolicyOf(settings))
        decreases settings.retryCount + 2 - attempt
      {
        attempts := attempt;
        calls := calls + [job.name];
        assert Calls(job.name, attempt - 1) + [job.name] == Calls(job.name, attempt);
        match OutcomeAt(job.outcomes, attempt - 1) {
          case Code(code) =>
            last := code;
            if code == 0 {
              success := true;
              break;
            }
            if !settings.retryOnCliError {
              break;
            }
          case Thrown =>
            last := THROWN_CODE;
        }
        attempt := attempt + 1;
      }
      tried := Tried(success, attempts, last);
    }

    /** Finds out whether every job is still within its interval. */
    method Preflight(jobs: seq<ConfiguredJob>, settings: Settings, now: int)
      returns (allWithin: bool, results: seq<Result>)
      ensures allWithin <==> PreflightFires(jobs, settings, disk, now)
      ensures allWithin ==> results == PreflightResults(jobs)
    {
      results := [];
      if settings.force || !settings.trigger.Startup? || settings.minimumIntervalHours <= 0 {
        return false, [];
      }
      for i := 0 to |jobs|
        invariant results == PreflightResults(jobs)[..i]
        invariant forall k :: 0 <= k < i ==>
          !IsBlankName(jobs[k].name) && Within(disk, jobs[k].name, settings, now)
      {
        var name := jobs[i].name;
        if IsBlankName(name) || name !in disk {
          return false, [];
        }
        if ShouldRun(disk[name].lastSuccess, settings.minimumIntervalHours, now) {
          return false, [];
        }
        results := results + [Result(name, Skipped, 0, SKIPPED_CODE)];
      }
      allWithin := true;
    }

    /** The pending pass: every job without a processed key is reported as not run. */
    method AddPending(jobs: seq<ConfiguredJob>, done: seq<Result>, processed: set<string>)
      returns (results: seq<Result>)
      ensures results == done + Pending(jobs, |jobs|, processed)
    {
      results := done;
      for i := 0 to |jobs|
        invariant results == done + Pending(jobs, i, processed)
      {
        var name := Trim(jobs[i].name);
        if name == [] {
          continue;
        }
        if LowerText(name) !in processed {
          results := results + [Result(name, NotRun, 0, NOT_RUN_CODE)];
        }
      }
    }

    /** The body of the job loop; `p` is the progress so far. */
    method ProcessJob(job: ConfiguredJob, settings: Settings, ghost p: Progress)
      returns (result: Result, calls: seq<string>, key: set<string>, stop: bool)
      requires job.outcomes != [] && p.disk == disk
      modifies this
      ensures var q := Process(p, job, settings);
        && q.results == p.results + [result] && q.calls == p.calls + calls && q.processed == p.processed + key
        && q.disk == disk && (!p.stopped ==> q.stopped == stop)
    {
      hide TryFrom, Trim, LowerText;
      calls, key, stop := [], {}, false;
      if IsBlankName(job.name) {
        return Result("(vazio)", Failed, 0, BLANK_NAME_CODE), [], {}, settings.stopOnFirstFailure;
      }
      key := {Key(job.name)};
      if !settings.force && settings.trigger.Startup? && job.name in disk {
        if !ShouldRun(disk[job.name].lastSuccess, settings.minimumIntervalHours, job.checkedAt) {
          result := Result(job.name, Skipped, 0, SKIPPED_CODE);
          disk := disk[job.name := JobState(Skipped, SKIPPED_CODE, 0, disk[job.name].lastSuccess)];
          return;
        }
      }
      var tried, made := Attempt(job, settings);
      calls := made;
      var verdict := VerdictOf(tried.success);
      result := Result(job.name, verdict, tried.attempts, tried.code);
      var lastSuccess :=
        if tried.success then Some(job.completedAt)
        else if job.name in disk then disk[job.name].lastSuccess else None;
      disk := disk[job.name := JobState(verdict, tried.code, tried.attempts, lastSuccess)];
      stop := settings.stopOnFirstFailure && !tried.success;
    }

    /** The job loop and the pending pass. */
    method RunJobs(jobs: seq<ConfiguredJob>, settings: Settings)
      returns (results: seq<Result>, calls: seq<string>, codes: Codes)
      requires Callable(jobs)
      modifies this
      ensures var p := TwoPhase(jobs, settings, old(disk));
        results == p.results && calls == p.calls && disk == p.disk
      ensures codes == ExitCodes(results)
    {
      hide Process;
      results, calls := [], [];
      var processed: set<string> := {};
      var stopped := false;
      ghost var p := JobLoop(jobs, 0, settings, disk);
      for i := 0 to |jobs|
        invariant !stopped ==> p == JobLoop(jobs, i, settings, old(disk))
        invariant stopped ==> p == JobLoop(jobs, |jobs|, settings, old(disk))
        invariant p.results == results && p.calls == calls && p.processed == processed
        invariant p.disk == disk && p.stopped == stopped
      {
        if stopped {
          break;
        }
        var result, made, key, stop := ProcessJob(jobs[i], settings, p);
        p := Process(p, jobs[i], settings);
        if p.stopped {
          StopLasts(jobs, i + 1, settings, old(disk));
        }
        results, calls, processed, stopped := results + [result], calls + made, processed + key, stop;
      }
      assert p == JobLoop(jobs, |jobs|, settings, old(disk));
      if settings.stopOnFirstFailure && Count(results, Failed) > 0 {
        results := AddPending(jobs, results, processed);
      }
      codes := ExitCodes(results);
    }

    /**
     A whole run after the configuration was accepted: the shortcut, or else the two passes. It
     continues every sequence of runs that left the state files as they were before it.
     */
    method Run(jobs: seq<ConfiguredJob>, settings: Settings, now: int)
      returns (results: seq<Result>, calls: seq<string>, codes: Codes)
      requires Callable(jobs)
      modifies this
      ensures PreflightFires(jobs, settings, old(disk), now) ==>
        results == PreflightResults(jobs) && calls == [] && codes == Codes(0, 12) && disk == old(disk)
      ensures !PreflightFires(jobs, settings, old(disk), now) ==>
        var p := TwoPhase(jobs, settings, old(disk));
        results == p.results && calls == p.calls && disk == p.disk && codes == ExitCodes(results)
      ensures forall runs :: AllCallable(runs) && After(runs).disk == old(disk) ==>
        var longer := runs + [RunInput(jobs, settings, now)];
        AllCallable(longer) && After(longer).disk == disk
    {
      forall runs | AllCallable(runs) && After(runs).disk == disk
        ensures AllCallable(runs + [RunInput(jobs, settings, now)])
        ensures After(runs + [RunInput(jobs, settings, now)]).disk
             == if PreflightFires(jobs, settings, disk, now) then disk else TwoPhase(jobs, settings, disk).disk
      {
        AfterOneMore(runs, RunInput(jobs, settings, now));
      }
      hide After, TwoPhase, PreflightFires, ExitCodes;
      var allWithin: bool;
      allWithin, results := Preflight(jobs, settings, now);
      if allWithin {
        return results, [], Codes(0, 12);
      }
      results, calls, codes := RunJobs(jobs, settings);
    }
  }

  lemma {:induction false} StopLasts(jobs: seq<ConfiguredJob>, n: nat, settings: Settings, disk: Disk)
    requires Callable(jobs) && n <= |jobs| && JobLoop(jobs, n, settings, disk).stopped
    ensures JobLoop(jobs, |jobs|, settings, disk) == JobLoop(jobs, n, settings, disk)
    decreases |jobs| - n
  {
    if n < |jobs| {
      StopLasts(jobs, n + 1, settings, disk);
    }
  }

  // ----- The two phases refine the single-pass policy -----

  /** The jobs as the single-pass policy sees them before the run. */
  function JobsOf(jobs: seq<ConfiguredJob>, settings: Settings, disk: Disk): (policyJobs: seq<Job>)
    requires Callable(jobs)
    ensures |policyJobs| == |jobs| && HaveOutcomes(policyJobs)
  {
    seq(|jobs|, i requires 0 <= i < |jobs| =>
      Job(jobs[i].name, Within(disk, jobs[i].name, settings, jobs[i].checkedAt), jobs[i].outcomes))
  }

  /** Not-run results for the jobs from `k` up to `n`. */
  function NotRunFrom(jobs: seq<ConfiguredJob>, k: nat, n: nat): seq<Result>
    requires k <= n <= |jobs|
  {
    seq(n - k, i requires 0 <= i < n - k => Result(jobs[k + i].name, NotRun, 0, NOT_RUN_CODE))
  }

  function KeysUpTo(jobs: seq<ConfiguredJob>, k: nat): set<string>
    requires k <= |jobs|
  {
    set i | 0 <= i < k :: Key(jobs[i].name)
  }

  predicate NoNotRun(results: seq<Result>) {
    forall i :: 0 <= i < |results| ==> results[i].verdict != NotRun
  }

  predicate SameFiles(a: Disk, b: Disk, jobs: seq<ConfiguredJob>, n: nat) {
    forall i :: n <= i < |jobs| ==>
      (jobs[i].name in a <==> jobs[i].name in b) && (jobs[i].name in a ==> a[jobs[i].name] == b[jobs[i].name])
  }

  /** How far the loop has come, compared with the pass over the same jobs. */
  predicate Follows(p: Progress, pass: Pass, jobs: seq<ConfiguredJob>, n: nat, stop: bool, disk: Disk)
    requires n <= |jobs|
  {
    var k := |p.results|;
    && p.stopped == pass.stopped && p.calls == pass.calls
    && k <= n && (p.stopped || k == n)
    && pass.results == p.results + NotRunFrom(jobs, k, n)
    && p.processed == KeysUpTo(jobs, k) && NoNotRun(p.results)
    && (!p.stopped ==> SameFiles(p.disk, disk, jobs, n))
    && (p.stopped <==> stop && Count(p.results, Failed) > 0)
  }

  lemma OneMoreKey(jobs: seq<ConfiguredJob>, k: nat)
    requires k < |jobs|
    ensures KeysUpTo(jobs, k + 1) == KeysUpTo(jobs, k) + {Key(jobs[k].name)}
  {
  }

  lemma OneMoreResult(results: seq<Result>, result: Result)
    ensures Count(results + [result], Failed) == Count(results, Failed) + if result.verdict == Failed then 1 else 0
  {
    assert (results + [result])[..|results|] == results;
  }

  lemma OtherFilesStay(disk: Disk, start: Disk, state: JobState, jobs: seq<ConfiguredJob>, n: nat)
    requires n < |jobs| && ValidNames(jobs) && SameFiles(disk, start, jobs, n)
    ensures SameFiles(disk[jobs[n].name := state], start, jobs, n + 1)
  {
  }

  /** One more job while the loop has not stopped. */
  lemma ProcessFollows(
      p: Progress, pass: Pass, jobs: seq<ConfiguredJob>, n: nat, settings: Settings, disk: Disk, next: Pass)
    requires Callable(jobs) && ValidNames(jobs) && n < |jobs|
    requires Follows(p, pass, jobs, n, settings.stopOnFirstFailure, disk) && !p.stopped
    requires pass == SinglePass(JobsOf(jobs, settings, disk), n, PolicyOf(settings))
    requires next == SinglePass(JobsOf(jobs, settings, disk), n + 1, PolicyOf(settings))
    ensures Follows(Process(p, jobs[n], settings), next, jobs, n + 1, settings.stopOnFirstFailure, disk)
  {
    hide TryFrom, Count, TrimStart, TrimEnd, LowerText;
    var job := jobs[n];
    var q := Process(p, job, settings);
    var result := q.results[n];
    OneMoreKey(jobs, n);
    OneMoreResult(p.results, result);
    OtherFilesStay(p.disk, disk, q.disk[job.name], jobs, n);
    assert Within(p.disk, job.name, settings, job.checkedAt) <==> Within(disk, job.name, settings, job.checkedAt);
    assert pass.results == p.results;
  }

  lemma StartFollows(jobs: seq<ConfiguredJob>, settings: Settings, disk: Disk)
    requires Callable(jobs)
    ensures Follows(JobLoop(jobs, 0, settings, disk), SinglePass(JobsOf(jobs, settings, disk), 0, PolicyOf(settings)),
      jobs, 0, settings.stopOnFirstFailure, disk)
  {
  }

  lemma LoopStepFollows(jobs: seq<ConfiguredJob>, n: nat, settings: Settings, disk: Disk)
    requires Callable(jobs) && ValidNames(jobs) && n < |jobs|
    requires Follows(JobLoop(jobs, n, settings, disk),
      SinglePass(JobsOf(jobs, settings, disk), n, PolicyOf(settings)), jobs, n, settings.stopOnFirstFailure, disk)
    ensures Follows(JobLoop(jobs, n + 1, settings, disk),
      SinglePass(JobsOf(jobs, settings, disk), n + 1, PolicyOf(settings)),
      jobs, n + 1, settings.stopOnFirstFailure, disk)
  {
    hide Follows, Process, SinglePass, ValidNames;
    var p := JobLoop(jobs, n, settings, disk);
    var pass := SinglePass(JobsOf(jobs, settings, disk), n, PolicyOf(settings));
    var next := SinglePass(JobsOf(jobs, settings, disk), n + 1, PolicyOf(settings));
    if p.stopped {
      StoppedFollows(p, pass, jobs, n, settings, disk, next);
    } else {
      ProcessFollows(p, pass, jobs, n, settings, disk, next);
    }
  }

  lemma {:induction false} LoopFollowsPass(jobs: seq<ConfiguredJob>, n: nat, settings: Settings, disk: Disk)
    requires Callable(jobs) && ValidNames(jobs) && n <= |jobs|
    ensures Follows(JobLoop(jobs, n, settings, disk), SinglePass(JobsOf(jobs, settings, disk), n, PolicyOf(settings)),
      jobs, n, settings.stopOnFirstFailure, disk)
  {
    hide Follows, JobLoop, SinglePass, ValidNames;
    if n == 0 {
      StartFollows(jobs, settings, disk);
    } else {
      LoopFollowsPass(jobs, n - 1, settings, disk);
      LoopStepFollows(jobs, n - 1, settings, disk);
    }
  }

  lemma StoppedFollows(
      p: Progress, pass: Pass, jobs: seq<ConfiguredJob>, n: nat, settings: Settings, disk: Disk, next: Pass)
    requires Callable(jobs) && n < |jobs|
    requires Follows(p, pass, jobs, n, settings.stopOnFirstFailure, disk) && p.stopped
    requires pass == SinglePass(JobsOf(jobs, settings, disk), n, PolicyOf(settings))
    requires next == SinglePass(JobsOf(jobs, settings, disk), n + 1, PolicyOf(settings))
    ensures Follows(p, next, jobs, n + 1, settings.stopOnFirstFailure, disk)
  {
    hide Count, KeysUpTo, SameFiles, NoNotRun;
    var k := |p.results|;
    assert NotRunFrom(jobs, k, n + 1) == NotRunFrom(jobs, k, n) + [Result(jobs[n].name, NotRun, 0, NOT_RUN_CODE)];
  }

  // ----- The pending pass -----

  /** The names of not-run results are trimmed, all else stays. */
  function Trimmed(results: seq<Result>): seq<Result> {
    seq(|results|, i requires 0 <= i < |results| =>
      if results[i].verdict == NotRun then results[i].(name := Trim(results[i].name)) else results[i])
  }

  /** Exactly the keys of the first `k` jobs were processed, and no name is blank. */
  predicate ProcessedUpTo(jobs: seq<ConfiguredJob>, processed: set<string>, k: nat) {
    forall i :: 0 <= i < |jobs| ==> !IsBlankName(jobs[i].name) && (Key(jobs[i].name) in processed <==> i < k)
  }

  lemma KeysAreProcessed(jobs: seq<ConfiguredJob>, k: nat)
    requires ValidNames(jobs) && k <= |jobs|
    ensures ProcessedUpTo(jobs, KeysUpTo(jobs, k), k)
  {
    hide Trim, LowerText;
    forall i | 0 <= i < |jobs| ensures Key(jobs[i].name) in KeysUpTo(jobs, k) <==> i < k {
      if Key(jobs[i].name) in KeysUpTo(jobs, k) {
        var j :| 0 <= j < k && Key(jobs[j].name) == Key(jobs[i].name);
        assert j == i;
      }
    }
  }

  lemma PendingGrows(jobs: seq<ConfiguredJob>, n: nat, k: nat, processed: set<string>)
    requires ProcessedUpTo(jobs, processed, k) && n < |jobs|
    ensures Pending(jobs, 0, processed) == []
    ensures Pending(jobs, n + 1, processed) ==
      if n < k then Pending(jobs, n, processed)
      else Pending(jobs, n, processed) + [Result(Trim(jobs[n].name), NotRun, 0, NOT_RUN_CODE)]
  {
    hide Trim, LowerText;
  }

  /** What the pending pass should add once it has seen the first `n` jobs. */
  function RestUpTo(jobs: seq<ConfiguredJob>, k: nat, n: nat): seq<Result>
    requires n <= |jobs|
  {
    if n <= k then [] else Trimmed(NotRunFrom(jobs, k, n))
  }

  lemma RestGrows(jobs: seq<ConfiguredJob>, k: nat, n: nat)
    requires n < |jobs|
    ensures RestUpTo(jobs, k, 0) == []
    ensures RestUpTo(jobs, k, n + 1) ==
      if n < k then RestUpTo(jobs, k, n)
      else RestUpTo(jobs, k, n) + [Result(Trim(jobs[n].name), NotRun, 0, NOT_RUN_CODE)]
  {
    hide Trim;
  }

  lemma {:induction false} PendingIsRest(jobs: seq<ConfiguredJob>, n: nat, k: nat, processed: set<string>)
    requires ProcessedUpTo(jobs, processed, k) && n <= |jobs|
    ensures Pending(jobs, n, processed) == RestUpTo(jobs, k, n)
  {
    hide Pending, Trim, RestUpTo, ProcessedUpTo;
    if n == 0 {
      NothingPending(jobs, k, processed);
    } else {
      PendingGrows(jobs, n - 1, k, processed);
      RestGrows(jobs, k, n - 1);
      PendingIsRest(jobs, n - 1, k, processed);
    }
  }

  lemma NothingPending(jobs: seq<ConfiguredJob>, k: nat, processed: set<string>)
    ensures Pending(jobs, 0, processed) == RestUpTo(jobs, k, 0)
  {
  }

  lemma {:induction false} SameVerdictsSameCounts(a: seq<Result>, b: seq<Result>, verdict: Verdict)
    requires |a| == |b| && forall i :: 0 <= i < |a| ==> a[i].verdict == b[i].verdict
    ensures Count(a, verdict) == Count(b, verdict)
  {
    if a != [] {
      SameVerdictsSameCounts(a[..|a| - 1], b[..|b| - 1], verdict);
    }
  }

  lemma SameVerdictsSameCodes(a: seq<Result>, b: seq<Result>)
    requires |a| == |b| && forall i :: 0 <= i < |a| ==> a[i].verdict == b[i].verdict
    ensures ExitCodes(a) == ExitCodes(b)
  {
    SameVerdictsSameCounts(a, b, Succeeded);
    SameVerdictsSameCounts(a, b, Failed);
    SameVerdictsSameCounts(a, b, Skipped);
  }

  lemma TrimmedSplits(done: seq<Result>, rest: seq<Result>)
    requires NoNotRun(done)
    ensures Trimmed(done + rest) == done + Trimmed(rest)
  {
  }

  /**
   The main result: given valid names, the two phases give what the single-pass policy gives,
   result by result, call by call and code by code; only the names of jobs that were not run
   come out trimmed.
   */
  lemma {:induction false} TwoPhaseRefinesPolicy(jobs: seq<ConfiguredJob>, settings: Settings, disk: Disk)
    requires Callable(jobs) && ValidNames(jobs)
    ensures var pass := SinglePass(JobsOf(jobs, settings, disk), |jobs|, PolicyOf(settings));
      var p := TwoPhase(jobs, settings, disk);
      && p.results == Trimmed(pass.results)
      && p.calls == pass.calls
      && ExitCodes(p.results) == ExitCodes(pass.results)
  {
    var n := |jobs|;
    var pass := SinglePass(JobsOf(jobs, settings, disk), n, PolicyOf(settings));
    var p := JobLoop(jobs, n, settings, disk);
    var k := |p.results|;
    LoopFollowsPass(jobs, n, settings, disk);
    TrimmedSplits(p.results, NotRunFrom(jobs, k, n));
    KeysAreProcessed(jobs, k);
    PendingIsRest(jobs, n, k, KeysUpTo(jobs, k));
    hide JobLoop, SinglePass, KeysUpTo, SameFiles, Pending, Count, NoNotRun;
    assert RestUpTo(jobs, k, n) == Trimmed(NotRunFrom(jobs, k, n));
    assert TwoPhase(jobs, settings, disk).results == Trimmed(pass.results);
    SameVerdictsSameCodes(Trimmed(pass.results), pass.results);
  }

  predicate AllTrimmed(results: seq<Result>) {
    forall i :: 0 <= i < |results| && results[i].verdict == NotRun ==> Trim(results[i].name) == results[i].name
  }

  lemma AgreeWhenTrimmed(jobs: seq<ConfiguredJob>, settings: Settings, disk: Disk)
    requires Callable(jobs) && ValidNames(jobs)
    ensures var pass := SinglePass(JobsOf(jobs, settings, disk), |jobs|, PolicyOf(settings));
      TwoPhase(jobs, settings, disk).results == pass.results <==> AllTrimmed(pass.results)
  {
    TwoPhaseRefinesPolicy(jobs, settings, disk);
    hide TwoPhase, SinglePass, TrimStart, TrimEnd;
    var results := SinglePass(JobsOf(jobs, settings, disk), |jobs|, PolicyOf(settings)).results;
    forall i | 0 <= i < |results|
      ensures Trimmed(results)[i] == results[i] <==>
        (results[i].verdict == NotRun ==> Trim(results[i].name) == results[i].name)
    {
    }
    assert Trimmed(results) == results <==> forall i :: 0 <= i < |results| ==> Trimmed(results)[i] == results[i];
  }

  /** The job is tried in this run, and its attempts fail. */
  predicate FailsIn(job: ConfiguredJob, settings: Settings, disk: Disk)
    requires job.outcomes != []
  {
    && !(Guarded(settings) && Within(disk, job.name, settings, job.checkedAt))
    && !TryFrom(job.outcomes, 0, PolicyOf(settings)).success
  }

  /** With stop-on-failure, no job after one that fails has blanks around its name. */
  predicate NoBlanksAfterFailure(jobs: seq<ConfiguredJob>, settings: Settings, disk: Disk)
    requires Callable(jobs)
  {
    settings.stopOnFirstFailure ==>
      forall i, j :: 0 <= i < j < |jobs| && FailsIn(jobs[i], settings, disk) ==> Trim(jobs[j].name) == jobs[j].name
  }

  lemma FailsAlike(jobs: seq<ConfiguredJob>, settings: Settings, disk: Disk, i: nat)
    requires Callable(jobs) && i < |jobs|
    ensures Fails(JobsOf(jobs, settings, disk)[i], PolicyOf(settings)) <==> FailsIn(jobs[i], settings, disk)
  {
    hide TryFrom;
  }

  /** Some job before the given one fails in this run. */
  predicate FailedBefore(jobs: seq<ConfiguredJob>, j: nat, settings: Settings, disk: Disk)
    requires Callable(jobs) && j <= |jobs|
  {
    exists i :: 0 <= i < j && FailsIn(jobs[i], settings, disk)
  }

  lemma FailedAlike(jobs: seq<ConfiguredJob>, j: nat, settings: Settings, disk: Disk)
    requires Callable(jobs) && j <= |jobs|
    ensures FailsBefore(JobsOf(jobs, settings, disk), j, PolicyOf(settings)) <==> FailedBefore(jobs, j, settings, disk)
  {
    var policyJobs, policy := JobsOf(jobs, settings, disk), PolicyOf(settings);
    hide Fails, FailsIn;
    if FailsBefore(policyJobs, j, policy) {
      var i :| 0 <= i < j && Fails(policyJobs[i], policy);
      FailsAlike(jobs, settings, disk, i);
    }
    if FailedBefore(jobs, j, settings, disk) {
      var i :| 0 <= i < j && FailsIn(jobs[i], settings, disk);
      FailsAlike(jobs, settings, disk, i);
    }
  }

  /** The jobs that are not run, read off the configuration and the outcomes. */
  predicate NotRunAlike(jobs: seq<ConfiguredJob>, results: seq<Result>, j: nat, settings: Settings, disk: Disk)
    requires Callable(jobs) && j < |jobs| == |results|
  {
    && results[j].name == jobs[j].name
    && (results[j].verdict == NotRun <==> settings.stopOnFirstFailure && FailedBefore(jobs, j, settings, disk))
  }

  lemma PassIsAlike(jobs: seq<ConfiguredJob>, settings: Settings, disk: Disk, j: nat)
    requires Callable(jobs) && j < |jobs|
    ensures var pass := SinglePass(JobsOf(jobs, settings, disk), |jobs|, PolicyOf(settings));
      |pass.results| == |jobs| && NotRunAlike(jobs, pass.results, j, settings, disk)
  {
    var policyJobs, policy := JobsOf(jobs, settings, disk), PolicyOf(settings);
    OneResultPerJob(policyJobs, |jobs|, policy);
    NotRunExactlyAfterFailure(policyJobs, |jobs|, j, policy);
    FailedAlike(jobs, j, settings, disk);
    hide SinglePass, TryFrom, FailsBefore, FailedBefore;
  }

  /** A job that is not run keeps its name exactly when no failure before it meets a name with blanks. */
  lemma TrimmedAlike(jobs: seq<ConfiguredJob>, settings: Settings, disk: Disk)
    requires Callable(jobs)
    ensures var pass := SinglePass(JobsOf(jobs, settings, disk), |jobs|, PolicyOf(settings));
      AllTrimmed(pass.results) <==> NoBlanksAfterFailure(jobs, settings, disk)
  {
    OneResultPerJob(JobsOf(jobs, settings, disk), |jobs|, PolicyOf(settings));
    hide SinglePass, NotRunAlike, Trim, AllTrimmed, NoBlanksAfterFailure;
    var results := SinglePass(JobsOf(jobs, settings, disk), |jobs|, PolicyOf(settings)).results;
    forall j | 0 <= j < |jobs| ensures NotRunAlike(jobs, results, j, settings, disk) {
      PassIsAlike(jobs, settings, disk, j);
    }
    NamesAlike(jobs, settings, disk, results);
  }

  lemma NamesAlike(jobs: seq<ConfiguredJob>, settings: Settings, disk: Disk, results: seq<Result>)
    requires Callable(jobs) && |results| == |jobs|
    requires forall j :: 0 <= j < |jobs| ==> NotRunAlike(jobs, results, j, settings, disk)
    ensures AllTrimmed(results) <==> NoBlanksAfterFailure(jobs, settings, disk)
  {
    hide Trim, FailsIn;
    if NoBlanksAfterFailure(jobs, settings, disk) {
      forall j | 0 <= j < |results| && results[j].verdict == NotRun ensures Trim(results[j].name) == results[j].name {
        assert NotRunAlike(jobs, results, j, settings, disk);
      }
    }
    if AllTrimmed(results) && settings.stopOnFirstFailure {
      forall i, j | 0 <= i < j < |jobs| && FailsIn(jobs[i], settings, disk) ensures Trim(jobs[j].name) == jobs[j].name {
        assert NotRunAlike(jobs, results, j, settings, disk);
      }
    }
  }

  /**
   The results agree to the letter if and only if, with stop-on-failure, no job after one that
   fails has blanks around its name.
   */
  lemma {:induction false} RefinesExactly(jobs: seq<ConfiguredJob>, settings: Settings, disk: Disk)
    requires Callable(jobs) && ValidNames(jobs)
    ensures var pass := SinglePass(JobsOf(jobs, settings, disk), |jobs|, PolicyOf(settings));
      TwoPhase(jobs, settings, disk).results == pass.results <==> NoBlanksAfterFailure(jobs, settings, disk)
  {
    hide *;
    AgreeWhenTrimmed(jobs, settings, disk);
    TrimmedAlike(jobs, settings, disk);
  }

  /** A run in which the two disagree: the first job fails, and the second has a blank after its name. */
  lemma {:induction false} TrimmingShows()
    ensures var settings := Settings(Manual, false, 0, 0, false, true);
      var jobs := [ConfiguredJob("a", [Code(7)], 0, 0), ConfiguredJob("b ", [Code(0)], 0, 0)];
      && Callable(jobs) && ValidNames(jobs)
      && TwoPhase(jobs, settings, map[]).results
           != SinglePass(JobsOf(jobs, settings, map[]), |jobs|, PolicyOf(settings)).results
  {
    var settings := Settings(Manual, false, 0, 0, false, true);
    var first, second := ConfiguredJob("a", [Code(7)], 0, 0), ConfiguredJob("b ", [Code(0)], 0, 0);
    var jobs := [first, second];
    assert Trim("a") == "a" && Trim("b ") == "b";
    assert LowerText("a")[0] == 'a' && LowerText("b")[0] == 'b';
    assert FailsIn(first, settings, map[]);
    assert FailsIn(jobs[0], settings, map[]) && Trim(jobs[1].name) != jobs[1].name;
    RefinesExactly(jobs, settings, map[]);
  }

  // ----- The preflight shortcut refines the two phases -----

  predicate AtInstant(jobs: seq<ConfiguredJob>, now: int) {
    forall i :: 0 <= i < |jobs| ==> jobs[i].checkedAt == now
  }

  predicate AllSkipped(results: seq<Result>) {
    forall i :: 0 <= i < |results| ==> results[i].verdict == Skipped
  }

  predicate AllHeldBack(jobs: seq<Job>, n: nat, policy: Policy)
    requires n <= |jobs|
  {
    forall i :: 0 <= i < n ==> policy.startup && !policy.force && jobs[i].within
  }

  /** The pass skips every job exactly when every job is held back by its interval. */
  lemma {:induction false} AllSkippedWhenHeldBack(jobs: seq<Job>, n: nat, policy: Policy)
    requires HaveOutcomes(jobs) && n <= |jobs|
    ensures var pass := SinglePass(jobs, n, policy);
      && (AllSkipped(pass.results) <==> AllHeldBack(jobs, n, policy))
      && (AllSkipped(pass.results) ==> pass.calls == [] && !pass.stopped)
  {
    if n > 0 {
      AllSkippedWhenHeldBack(jobs, n - 1, policy);
      OneMoreSkipped(jobs, n, policy);
      assert AllHeldBack(jobs, n, policy) <==>
        AllHeldBack(jobs, n - 1, policy) && policy.startup && !policy.force && jobs[n - 1].within;
    }
  }

  lemma OneMoreSkipped(jobs: seq<Job>, n: nat, policy: Policy)
    requires HaveOutcomes(jobs) && 0 < n <= |jobs|
    requires AllSkipped(SinglePass(jobs, n - 1, policy).results) ==> !SinglePass(jobs, n - 1, policy).stopped
    ensures var before, pass := SinglePass(jobs, n - 1, policy), SinglePass(jobs, n, policy);
      && (AllSkipped(pass.results) <==>
            AllSkipped(before.results) && policy.startup && !policy.force && jobs[n - 1].within)
      && (AllSkipped(pass.results) ==> pass.calls == before.calls && !pass.stopped)
  {
    hide TryFrom;
    var before, pass := SinglePass(jobs, n - 1, policy), SinglePass(jobs, n, policy);
    var k := |before.results|;
    assert |pass.results| == k + 1 && forall i :: 0 <= i < k ==> pass.results[i] == before.results[i];
    assert AllSkipped(pass.results) <==> AllSkipped(before.results) && pass.results[k].verdict == Skipped;
  }

  lemma {:induction false} CountAllSkipped(results: seq<Result>)
    requires AllSkipped(results)
    ensures Count(results, Skipped) == |results| && Count(results, Failed) == Count(results, Succeeded) == 0
  {
    if results != [] {
      CountAllSkipped(results[..|results| - 1]);
    }
  }

  /**
   At a fixed instant the shortcut fires exactly when the two phases would skip every job, and
   then its results, codes and (missing) CLI calls are those of the two phases.
   */
  lemma {:induction false} PreflightRefinesTwoPhase(jobs: seq<ConfiguredJob>, settings: Settings, disk: Disk, now: int)
    requires Callable(jobs) && ValidNames(jobs) && jobs != [] && AtInstant(jobs, now)
    ensures var p := TwoPhase(jobs, settings, disk);
      && (PreflightFires(jobs, settings, disk, now) <==> AllSkipped(p.results))
      && (PreflightFires(jobs, settings, disk, now) ==>
            p.results == PreflightResults(jobs) && p.calls == [] && ExitCodes(p.results) == Codes(0, 12))
  {
    TwoPhaseRefinesPolicy(jobs, settings, disk);
    OneResultPerJob(JobsOf(jobs, settings, disk), |jobs|, PolicyOf(settings));
    AllSkippedWhenHeldBack(JobsOf(jobs, settings, disk), |jobs|, PolicyOf(settings));
    PreflightHoldsBack(jobs, settings, disk, now);
    hide TwoPhase, SinglePass, Trim, Trimmed, PreflightFires, AllHeldBack, ExitCodes, ValidNames;
    var results := SinglePass(JobsOf(jobs, settings, disk), |jobs|, PolicyOf(settings)).results;
    TrimmedSkips(results);
    if AllSkipped(results) {
      SkippedCodes(results);
      SkippedAreListed(jobs, settings, disk, results);
    }
  }

  lemma SkippedAreListed(jobs: seq<ConfiguredJob>, settings: Settings, disk: Disk, results: seq<Result>)
    requires Callable(jobs) && |results| == |jobs| && AllSkipped(results)
    requires var policyJobs := JobsOf(jobs, settings, disk);
      forall i :: 0 <= i < |jobs| ==> ResultFits(results[i], policyJobs[i], PolicyOf(settings))
    ensures results == PreflightResults(jobs)
  {
    forall i | 0 <= i < |jobs| ensures results[i] == PreflightResults(jobs)[i] {
      assert ResultFits(results[i], JobsOf(jobs, settings, disk)[i], PolicyOf(settings));
    }
  }

  lemma TrimmedSkips(results: seq<Result>)
    ensures AllSkipped(Trimmed(results)) <==> AllSkipped(results)
    ensures AllSkipped(results) ==> Trimmed(results) == results
  {
    assert forall i :: 0 <= i < |results| ==> Trimmed(results)[i].verdict == results[i].verdict;
  }

  lemma SkippedCodes(results: seq<Result>)
    requires AllSkipped(results) && results != []
    ensures ExitCodes(results) == Codes(0, 12)
  {
    CountAllSkipped(results);
  }

  lemma PreflightHoldsBack(jobs: seq<ConfiguredJob>, settings: Settings, disk: Disk, now: int)
    requires Callable(jobs) && ValidNames(jobs) && jobs != [] && AtInstant(jobs, now)
    ensures PreflightFires(jobs, settings, disk, now) <==>
      AllHeldBack(JobsOf(jobs, settings, disk), |jobs|, PolicyOf(settings))
  {
    hide Trim;
    var policyJobs := JobsOf(jobs, settings, disk);
    forall i | 0 <= i < |jobs|
      ensures policyJobs[i].within <==> Within(disk, jobs[i].name, settings, now)
    {
    }
    assert policyJobs[0].within ==> settings.minimumIntervalHours > 0;
    if AllHeldBack(policyJobs, |jobs|, PolicyOf(settings)) {
      forall i | 0 <= i < |jobs| ensures Within(disk, jobs[i].name, settings, now) {
        assert policyJobs[i].within;
      }
    }
  }

  /** The two phases then leave every recorded last success as it was, like the shortcut does. */
  lemma {:induction false} SkippingKeepsLastSuccess(
      jobs: seq<ConfiguredJob>, n: nat, settings: Settings, disk: Disk, name: string)
    requires Callable(jobs) && n <= |jobs| && AllSkipped(JobLoop(jobs, n, settings, disk).results)
    ensures Stored(JobLoop(jobs, n, settings, disk).disk, name) == Stored(disk, name)
  {
    if n > 0 {
      hide TryFrom;
      var p, q := JobLoop(jobs, n - 1, settings, disk), JobLoop(jobs, n, settings, disk);
      assert forall i :: 0 <= i < |p.results| ==> p.results[i] == q.results[i];
      SkippingKeepsLastSuccess(jobs, n - 1, settings, disk, name);
      if !p.stopped {
        assert q.results[|p.results|].verdict == Skipped;
      }
    }
  }

  // ----- Sequences of runs -----

  /** The jobs and settings of one run, which may change between runs, and the moment of its preflight. */
  datatype RunInput = RunInput(jobs: seq<ConfiguredJob>, settings: Settings, now: int)

  predicate AllCallable(runs: seq<RunInput>) {
    forall i :: 0 <= i < |runs| ==> Callable(runs[i].jobs)
  }

  /** The state files and everything that was run, after a sequence of runs; a shortcut changes neither. */
  datatype World = World(disk: Disk, log: seq<Event>)

  function After(runs: seq<RunInput>): World
    requires AllCallable(runs)
  {
    if runs == [] then World(map[], [])
    else
      var before := After(runs[..|runs| - 1]);
      var last := runs[|runs| - 1];
      if PreflightFires(last.jobs, last.settings, before.disk, last.now) then before
      else
        var p := TwoPhase(last.jobs, last.settings, before.disk);
        World(p.disk, before.log + p.log)
  }

  lemma AfterOneMore(runs: seq<RunInput>, input: RunInput)
    requires AllCallable(runs) && Callable(input.jobs)
    ensures AllCallable(runs + [input])
    ensures var before := After(runs);
      var p := TwoPhase(input.jobs, input.settings, before.disk);
      After(runs + [input])
        == if PreflightFires(input.jobs, input.settings, before.disk, input.now) then before
           else World(p.disk, before.log + p.log)
  {
    assert (runs + [input])[..|runs + [input]| - 1] == runs;
    hide TwoPhase, PreflightFires;
  }

  /** The moment of the latest recorded success of a job. */
  function LastSuccess(log: seq<Event>, name: string): Option<int> {
    if log == [] then None
    else
      var last := log[|log| - 1];
      if last.name == name && last.success then Some(last.completedAt)
      else LastSuccess(log[..|log| - 1], name)
  }

  lemma LastSuccessGrows(log: seq<Event>, event: Event, name: string)
    ensures LastSuccess(log + [event], name) ==
      if event.name == name && event.success then Some(event.completedAt) else LastSuccess(log, name)
  {
    assert (log + [event])[..|log|] == log;
  }

  /** Through skips, failures and successes the state file keeps the latest success. */
  lemma {:induction false} LoopKeepsLastSuccess(
      jobs: seq<ConfiguredJob>, n: nat, settings: Settings, disk: Disk, log: seq<Event>, name: string)
    requires Callable(jobs) && n <= |jobs|
    requires Stored(disk, name) == LastSuccess(log, name)
    ensures Stored(JobLoop(jobs, n, settings, disk).disk, name)
         == LastSuccess(log + JobLoop(jobs, n, settings, disk).log, name)
  {
    if n == 0 {
      assert log + [] == log;
    } else {
      LoopKeepsLastSuccess(jobs, n - 1, settings, disk, log, name);
      var p := JobLoop(jobs, n - 1, settings, disk);
      if !p.stopped {
        ProcessKeepsLastSuccess(p, jobs[n - 1], settings, log, name);
      }
    }
  }

  lemma ProcessKeepsLastSuccess(p: Progress, job: ConfiguredJob, settings: Settings, log: seq<Event>, name: string)
    requires job.outcomes != [] && Stored(p.disk, name) == LastSuccess(log + p.log, name)
    ensures var q := Process(p, job, settings); Stored(q.disk, name) == LastSuccess(log + q.log, name)
  {
    hide TryFrom, Trim, LowerText, LastSuccess;
    var q := Process(p, job, settings);
    if |q.log| > |p.log| {
      var event := q.log[|p.log|];
      assert log + q.log == log + p.log + [event];
      LastSuccessGrows(log + p.log, event, name);
    }
  }

  /** Over any sequence of runs, the stored last success is the latest success that happened. */
  lemma {:induction false} StoredIsLastSuccess(runs: seq<RunInput>, name: string)
    requires AllCallable(runs)
    ensures Stored(After(runs).disk, name) == LastSuccess(After(runs).log, name)
  {
    if runs != [] {
      var before, last := runs[..|runs| - 1], runs[|runs| - 1];
      StoredIsLastSuccess(before, name);
      LoopKeepsLastSuccess(last.jobs, |last.jobs|, last.settings, After(before).disk, After(before).log, name);
    }
  }

  // ----- The spacing of guarded runs -----

  /** Jobs are checked and recorded one after the other on a clock that does not go back. */
  predicate Timed(log: seq<Event>) {
    && (forall i :: 0 <= i < |log| ==> log[i].checkedAt <= log[i].completedAt)
    && (forall i, j :: 0 <= i < j < |log| ==> log[i].completedAt <= log[j].checkedAt)
  }

  /** A guarded run of a job was checked no earlier than its interval after the last success before it. */
  predicate RespectsInterval(log: seq<Event>, j: nat)
    requires j < |log|
  {
    log[j].guarded ==> ShouldRun(LastSuccess(log[..j], log[j].name), log[j].hours, log[j].checkedAt)
  }

  predicate AllRespect(log: seq<Event>) {
    forall j :: 0 <= j < |log| ==> RespectsInterval(log, j)
  }

  lemma OneMoreRespects(log: seq<Event>, event: Event)
    requires AllRespect(log)
    requires event.guarded ==> ShouldRun(LastSuccess(log, event.name), event.hours, event.checkedAt)
    ensures AllRespect(log + [event])
  {
    var more := log + [event];
    forall j | 0 <= j < |more| ensures RespectsInterval(more, j) {
      if j < |log| {
        assert more[..j] == log[..j] && RespectsInterval(log, j);
      } else {
        assert more[..j] == log;
      }
    }
  }

  lemma {:induction false} LoopRespectsInterval(
      jobs: seq<ConfiguredJob>, n: nat, settings: Settings, disk: Disk, log: seq<Event>)
    requires Callable(jobs) && n <= |jobs| && AllRespect(log)
    requires forall name :: Stored(disk, name) == LastSuccess(log, name)
    ensures AllRespect(log + JobLoop(jobs, n, settings, disk).log)
  {
    if n == 0 {
      assert log + [] == log;
    } else {
      LoopRespectsInterval(jobs, n - 1, settings, disk, log);
      var p := JobLoop(jobs, n - 1, settings, disk);
      LoopKeepsLastSuccess(jobs, n - 1, settings, disk, log, jobs[n - 1].name);
      if !p.stopped {
        ProcessRespectsInterval(p, jobs[n - 1], settings, log);
      }
    }
  }

  lemma ProcessRespectsInterval(p: Progress, job: ConfiguredJob, settings: Settings, log: seq<Event>)
    requires job.outcomes != [] && AllRespect(log + p.log)
    requires Stored(p.disk, job.name) == LastSuccess(log + p.log, job.name)
    ensures AllRespect(log + Process(p, job, settings).log)
  {
    hide TryFrom, Trim, LowerText, LastSuccess, AllRespect;
    var q := Process(p, job, settings);
    if |q.log| > |p.log| {
      var event := q.log[|p.log|];
      assert log + q.log == log + p.log + [event];
      OneMoreRespects(log + p.log, event);
    }
  }

  lemma {:induction false} RunsRespectInterval(runs: seq<RunInput>)
    requires AllCallable(runs)
    ensures AllRespect(After(runs).log)
  {
    if runs != [] {
      var before, last := runs[..|runs| - 1], runs[|runs| - 1];
      RunsRespectInterval(before);
      forall name ensures Stored(After(before).disk, name) == LastSuccess(After(before).log, name) {
        StoredIsLastSuccess(before, name);
      }
      LoopRespectsInterval(last.jobs, |last.jobs|, last.settings, After(before).disk, After(before).log);
    }
  }

  lemma {:induction false} LastSuccessIsLatest(log: seq<Event>, i: nat)
    requires Timed(log) && i < |log| && log[i].success
    ensures var latest := LastSuccess(log, log[i].name);
      latest.Some? && log[i].completedAt <= latest.value
  {
    var n := |log| - 1;
    if i < n {
      assert log[..n][i] == log[i];
      if !(log[n].name == log[i].name && log[n].success) {
        LastSuccessIsLatest(log[..n], i);
      }
    }
  }

  /**
   The main result over many runs: whenever a startup run that is not forced calls the CLI for
   a job, at least the minimum interval has passed since every earlier success of that job.
   */
  lemma {:induction false} GuardedRunsAreSpaced(runs: seq<RunInput>, i: nat, j: nat)
    requires AllCallable(runs) && Timed(After(runs).log)
    requires i < j < |After(runs).log|
    requires var log := After(runs).log;
      log[i].name == log[j].name && log[i].success && log[j].guarded
    ensures var log := After(runs).log;
      log[j].checkedAt >= log[i].completedAt + log[j].hours * HOUR
  {
    var log := After(runs).log;
    RunsRespectInterval(runs);
    hide After;
    assert RespectsInterval(log, j);
    assert Timed(log[..j]) && log[..j][i] == log[i];
    LastSuccessIsLatest(log[..j], i);
  }

  // ----- Exactly when a job is skipped, over sequences of runs -----

  /** The latest success lies less than the interval before the given moment. */
  predicate TooSoon(lastSuccess: Option<int>, settings: Settings, now: int) {
    && settings.trigger == Startup && !settings.force && settings.minimumIntervalHours > 0
    && lastSuccess.Some? && now < lastSuccess.value + settings.minimumIntervalHours * 36_000_000_000
  }

  lemma WithinIsTooSoon(disk: Disk, name: string, settings: Settings, now: int)
    ensures Guarded(settings) && Within(disk, name, settings, now) <==> TooSoon(Stored(disk, name), settings, now)
  {
  }

  /** What the loop makes of one job: skipped without a call, or called at least once and recorded. */
  predicate Skips(p: Progress, q: Progress, job: ConfiguredJob) {
    q.results == p.results + [Result(job.name, Skipped, 0, 12)] && q.calls == p.calls && q.log == p.log && !q.stopped
  }

  predicate Tries(p: Progress, q: Progress, job: ConfiguredJob, settings: Settings)
    requires job.outcomes != []
  {
    var tried := TryFrom(job.outcomes, 0, PolicyOf(settings));
    && tried.attempts >= 1 && q.calls == p.calls + Calls(job.name, tried.attempts)
    && q.results == p.results + [Result(job.name, VerdictOf(tried.success), tried.attempts, tried.code)]
    && q.log == p.log + [Event(job.name, job.checkedAt, job.completedAt, tried.success,
         settings.trigger == Startup && !settings.force, settings.minimumIntervalHours)]
    && q.stopped == (settings.stopOnFirstFailure && !tried.success)
  }

  lemma ProcessSkipsOrTries(p: Progress, job: ConfiguredJob, settings: Settings)
    requires job.outcomes != [] && Trim(job.name) != [] && !p.stopped
    ensures var q := Process(p, job, settings);
      if TooSoon(Stored(p.disk, job.name), settings, job.checkedAt) then Skips(p, q, job)
      else Tries(p, q, job, settings)
  {
    LastAttemptDecides(job.outcomes, 0, PolicyOf(settings));
    WithinIsTooSoon(p.disk, job.name, settings, job.checkedAt);
    hide TryFrom, Trim, LowerText, Within, TooSoon, Stored;
  }

  /**
   After any sequence of runs, a job with a name that the loop reaches is skipped if and only if
   the run was triggered at startup, is not forced, has an interval, and the latest success of
   the job lies less than the interval back; otherwise its CLI is called.
   */
  lemma {:induction false} SkippedExactlyWhenTooSoon(runs: seq<RunInput>, input: RunInput, n: nat)
    requires AllCallable(runs) && Callable(input.jobs) && n < |input.jobs| && Trim(input.jobs[n].name) != []
    requires !JobLoop(input.jobs, n, input.settings, After(runs).disk).stopped
    ensures var before, job := After(runs), input.jobs[n];
      var p := JobLoop(input.jobs, n, input.settings, before.disk);
      var q := JobLoop(input.jobs, n + 1, input.settings, before.disk);
      if TooSoon(LastSuccess(before.log + p.log, job.name), input.settings, job.checkedAt) then Skips(p, q, job)
      else Tries(p, q, job, input.settings)
  {
    var before, job := After(runs), input.jobs[n];
    var p := JobLoop(input.jobs, n, input.settings, before.disk);
    StoredIsLastSuccess(runs, job.name);
    LoopKeepsLastSuccess(input.jobs, n, input.settings, before.disk, before.log, job.name);
    ProcessSkipsOrTries(p, job, input.settings);
    assert JobLoop(input.jobs, n + 1, input.settings, before.disk) == Process(p, job, input.settings);
    hide JobLoop, Process, After, TooSoon, Tries, Skips, LastSuccess;
  }

  /** The preflight fires if and only if, at its moment, it is too soon for every job. */
  lemma {:induction false} PreflightFiresExactlyWhenTooSoon(runs: seq<RunInput>, input: RunInput)
    requires AllCallable(runs)
    ensures PreflightFires(input.jobs, input.settings, After(runs).disk, input.now) <==>
      && input.settings.trigger == Startup && !input.settings.force && input.settings.minimumIntervalHours > 0
      && forall i :: 0 <= i < |input.jobs| ==>
           && Trim(input.jobs[i].name) != []
           && TooSoon(LastSuccess(After(runs).log, input.jobs[i].name), input.settings, input.now)
  {
    forall i | 0 <= i < |input.jobs|
      ensures Guarded(input.settings) && Within(After(runs).disk, input.jobs[i].name, input.settings, input.now)
         <==> TooSoon(LastSuccess(After(runs).log, input.jobs[i].name), input.settings, input.now)
    {
      StoredIsLastSuccess(runs, input.jobs[i].name);
      WithinIsTooSoon(After(runs).disk, input.jobs[i].name, input.settings, input.now);
    }
    hide After, Trim, TooSoon, Within, LastSuccess;
  }

  /** A job without a name fails with code 20 and no call, and ends the loop only with stop-on-failure. */
  lemma {:induction false} BlankNamesFail(p: Progress, job: ConfiguredJob, settings: Settings)
    requires job.outcomes != [] && Trim(job.name) == []
    ensures Process(p, job, settings)
         == p.(results := p.results + [Result("(vazio)", Failed, 0, 20)], stopped := settings.stopOnFirstFailure)
  {
  }
}
