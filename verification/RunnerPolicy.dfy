/**
 The execution policy of the backup runner as its own single-pass model states it: one pass
 over the jobs with a `stopped` flag, retries per job, and aggregate exit codes.
 */
module RunnerPolicy {

  const THROWN_CODE: int := 98
  const SKIPPED_CODE: int := 12
  const NOT_RUN_CODE: int := 14

  /** What one call of the backup CLI does: it returns a code, or starting it throws. */
  datatype Outcome = Code(code: int) | Thrown

  datatype Verdict = Succeeded | Failed | Skipped | NotRun

  datatype Result = Result(name: string, verdict: Verdict, attempts: nat, code: int)

  /** A job; its `n`-th call has outcome `n`, and further calls repeat the last outcome. */
  datatype Job = Job(name: string, within: bool, outcomes: seq<Outcome>)

  datatype Policy = Policy(retryCount: nat, retryCli: bool, stop: bool, startup: bool, force: bool)

  predicate HaveOutcomes(jobs: seq<Job>) {
    forall i :: 0 <= i < |jobs| ==> jobs[i].outcomes != []
  }

  function OutcomeAt(outcomes: seq<Outcome>, n: nat): Outcome
    requires outcomes != []
  {
    if n < |outcomes| then outcomes[n] else outcomes[|outcomes| - 1]
  }

  // ----- The attempts of one job -----

  datatype Tried = Tried(success: bool, attempts: nat, code: int)

  predicate Retried(outcome: Outcome, retryCli: bool) {
    outcome.Thrown? || (outcome.code != 0 && retryCli)
  }

  function CodeOf(outcome: Outcome): int {
    if outcome.Thrown? then THROWN_CODE else outcome.code
  }

  /** The attempts from number `n` on (counted from 0), when all before it were retried. */
  function TryFrom(outcomes: seq<Outcome>, n: nat, policy: Policy): (tried: Tried)
    requires outcomes != [] && n <= policy.retryCount
    ensures n < tried.attempts <= policy.retryCount + 1
    decreases policy.retryCount - n
  {
    var outcome := OutcomeAt(outcomes, n);
    if Retried(outcome, policy.retryCli) && n < policy.retryCount then TryFrom(outcomes, n + 1, policy)
    else Tried(outcome == Code(0), n + 1, CodeOf(outcome))
  }

  /** Attempts go on exactly while they may, and the last one decides. */
  lemma {:induction false} LastAttemptDecides(outcomes: seq<Outcome>, n: nat, policy: Policy)
    requires outcomes != [] && n <= policy.retryCount
    ensures var tried := TryFrom(outcomes, n, policy);
      var last := OutcomeAt(outcomes, tried.attempts - 1);
      && n < tried.attempts <= policy.retryCount + 1
      && (forall k: nat :: n <= k < tried.attempts - 1 ==> Retried(OutcomeAt(outcomes, k), policy.retryCli))
      && (Retried(last, policy.retryCli) ==> tried.attempts == policy.retryCount + 1)
      && tried.success == (last == Code(0)) && tried.code == CodeOf(last)
    decreases policy.retryCount - n
  {
    if Retried(OutcomeAt(outcomes, n), policy.retryCli) && n < policy.retryCount {
      LastAttemptDecides(outcomes, n + 1, policy);
    }
  }

  // ----- The pass over the jobs -----

  datatype Pass = Pass(results: seq<Result>, calls: seq<string>, stopped: bool)

  function Calls(name: string, n: nat): seq<string> {
    seq(n, i => name)
  }

  /** The job is within its interval and the run respects it. */
  predicate HeldBack(job: Job, policy: Policy) {
    policy.startup && !policy.force && job.within
  }

  function VerdictOf(success: bool): Verdict {
    if success then Succeeded else Failed
  }

  function SinglePass(jobs: seq<Job>, n: nat, policy: Policy): Pass
    requires HaveOutcomes(jobs) && n <= |jobs|
  {
    if n == 0 then Pass([], [], false)
    else
      var pass := SinglePass(jobs, n - 1, policy);
      var job := jobs[n - 1];
      if pass.stopped then
        pass.(results := pass.results + [Result(job.name, NotRun, 0, NOT_RUN_CODE)])
      else if HeldBack(job, policy) then
        pass.(results := pass.results + [Result(job.name, Skipped, 0, SKIPPED_CODE)])
      else
        var tried := TryFrom(job.outcomes, 0, policy);
        Pass(pass.results + [Result(job.name, VerdictOf(tried.success), tried.attempts, tried.code)],
             pass.calls + Calls(job.name, tried.attempts), policy.stop && !tried.success)
  }

  // ----- Exit codes -----

  function Count(results: seq<Result>, verdict: Verdict): nat {
    if results == [] then 0
    else
      var n := |results| - 1;
      Count(results[..n], verdict) + if results[n].verdict == verdict then 1 else 0
  }

  /** The process exit code and the code written to the state file. */
  datatype Codes = Codes(process: int, state: int)

  function ExitCodes(results: seq<Result>): Codes {
    var ok, fail, skip := Count(results, Succeeded), Count(results, Failed), Count(results, Skipped);
    if fail == 0 && ok > 0 then Codes(0, 0)
    else if fail == 0 && ok == 0 && skip > 0 then Codes(0, 12)
    else if ok > 0 && fail > 0 then Codes(10, 10)
    else Codes(11, 11)
  }

  method Run(jobs: seq<Job>, policy: Policy) returns (results: seq<Result>, calls: seq<string>, codes: Codes)
    requires HaveOutcomes(jobs)
    ensures var pass := SinglePass(jobs, |jobs|, policy); results == pass.results && calls == pass.calls
    ensures codes == ExitCodes(results)
  {
    results, calls := [], [];
    var stopped := false;
    for i := 0 to |jobs|
      invariant Pass(results, calls, stopped) == SinglePass(jobs, i, policy)
    {
      var job := jobs[i];
      if stopped {
        results := results + [Result(job.name, NotRun, 0, NOT_RUN_CODE)];
        continue;
      }
      if policy.startup && !policy.force && job.within {
        results := results + [Result(job.name, Skipped, 0, SKIPPED_CODE)];
        continue;
      }
      var success := false;
      var last := THROWN_CODE;
      var attempts := 0;
      ghost var callsBefore := calls;
      assert calls == callsBefore + Calls(job.name, 0);
      var n := 0;
      while n <= policy.retryCount
        invariant n == attempts <= policy.retryCount + 1 && !success
        invariant calls == callsBefore + Calls(job.name, attempts)
        invariant n <= policy.retryCount ==>
          TryFrom(job.outcomes, n, policy) == TryFrom(job.outcomes, 0, policy)
        invariant n == policy.retryCount + 1 ==>
          Tried(success, attempts, last) == TryFrom(job.outcomes, 0, policy)
        decreases policy.retryCount + 1 - n
      {
        attempts := n + 1;
        calls := calls + [job.name];
        assert Calls(job.name, n) + [job.name] == Calls(job.name, n + 1);
        match OutcomeAt(job.outcomes, n) {
          case Thrown =>
            last := THROWN_CODE;
          case Code(code) =>
            last := code;
            if code == 0 {
              success := true;
              break;
            }
            if !policy.retryCli {
              break;
            }
        }
        n := n + 1;
      }
      results := results + [Result(job.name, VerdictOf(success), attempts, last)];
      if !success && policy.stop {
        stopped := true;
      }
    }
    var ok, fail, skip := Count(results, Succeeded), Count(results, Failed), Count(results, Skipped);
    if fail == 0 && ok > 0 {
      codes := Codes(0, 0);
    } else if fail == 0 && ok == 0 && skip > 0 {
      codes := Codes(0, 12);
    } else if ok > 0 && fail > 0 {
      codes := Codes(10, 10);
    } else {
      codes := Codes(11, 11);
    }
  }

  // ----- What the policy promises -----

  /** Each job called as often as it was attempted, in the order of the results. */
  function CallsOf(results: seq<Result>): seq<string> {
    if results == [] then []
    else
      var last := results[|results| - 1];
      CallsOf(results[..|results| - 1]) + Calls(last.name, last.attempts)
  }

  /** A result is what its job deserves: skipped within its interval, held back, or fully tried. */
  predicate ResultFits(result: Result, job: Job, policy: Policy)
    requires job.outcomes != []
  {
    match result.verdict
    case Skipped => HeldBack(job, policy) && result == Result(job.name, Skipped, 0, SKIPPED_CODE)
    case NotRun => policy.stop && result == Result(job.name, NotRun, 0, NOT_RUN_CODE)
    case _ =>
      var tried := TryFrom(job.outcomes, 0, policy);
      !HeldBack(job, policy) && result == Result(job.name, VerdictOf(tried.success), tried.attempts, tried.code)
  }

  /** The result for one more job. */
  lemma PassGrows(jobs: seq<Job>, n: nat, policy: Policy)
    requires HaveOutcomes(jobs) && 0 < n <= |jobs|
    requires SinglePass(jobs, n - 1, policy).stopped ==> policy.stop
    ensures var before, pass := SinglePass(jobs, n - 1, policy), SinglePass(jobs, n, policy);
      && |pass.results| == |before.results| + 1 && pass.results[..|before.results|] == before.results
      && ResultFits(pass.results[|before.results|], jobs[n - 1], policy)
      && pass.results[|before.results|].name == jobs[n - 1].name
      && pass.calls == before.calls + Calls(jobs[n - 1].name, pass.results[|before.results|].attempts)
      && (pass.stopped ==> policy.stop)
      && (before.stopped ==> pass.stopped && pass.results[|before.results|].verdict == NotRun)
      && (!before.stopped ==>
            (pass.stopped <==> policy.stop && pass.results[|before.results|].verdict == Failed))
  {
    LastAttemptDecides(jobs[n - 1].outcomes, 0, policy);
    hide TryFrom;
  }

  lemma {:induction false} OneResultPerJob(jobs: seq<Job>, n: nat, policy: Policy)
    requires HaveOutcomes(jobs) && n <= |jobs|
    ensures var pass := SinglePass(jobs, n, policy);
      && |pass.results| == n && (pass.stopped ==> policy.stop)
      && forall i :: 0 <= i < n ==> ResultFits(pass.results[i], jobs[i], policy)
  {
    if n > 0 {
      OneResultPerJob(jobs, n - 1, policy);
      PassGrows(jobs, n, policy);
      hide SinglePass, ResultFits;
      var before, pass := SinglePass(jobs, n - 1, policy), SinglePass(jobs, n, policy);
      assert forall i :: 0 <= i < n - 1 ==> pass.results[i] == before.results[i];
    }
  }

  lemma CallsGrow(before: Pass, pass: Pass)
    requires |pass.results| == |before.results| + 1 && pass.results[..|before.results|] == before.results
    requires var last := pass.results[|before.results|];
      pass.calls == before.calls + Calls(last.name, last.attempts)
    requires before.calls == CallsOf(before.results)
    ensures pass.calls == CallsOf(pass.results)
  {
    hide Calls;
  }

  lemma {:induction false} CallsAreAttempts(jobs: seq<Job>, n: nat, policy: Policy)
    requires HaveOutcomes(jobs) && n <= |jobs|
    ensures SinglePass(jobs, n, policy).calls == CallsOf(SinglePass(jobs, n, policy).results)
  {
    if n > 0 {
      hide SinglePass, ResultFits, CallsOf, Calls;
      CallsAreAttempts(jobs, n - 1, policy);
      OneResultPerJob(jobs, n - 1, policy);
      PassGrows(jobs, n, policy);
      CallsGrow(SinglePass(jobs, n - 1, policy), SinglePass(jobs, n, policy));
    }
  }

  predicate AnyFailed(results: seq<Result>) {
    exists i :: 0 <= i < |results| && results[i].verdict == Failed
  }

  lemma {:induction false} NothingRunsAfterFailure(jobs: seq<Job>, n: nat, policy: Policy)
    requires HaveOutcomes(jobs) && n <= |jobs|
    ensures var pass := SinglePass(jobs, n, policy);
      && (pass.stopped <==> policy.stop && AnyFailed(pass.results))
      && (policy.stop ==> forall i, j :: 0 <= i < j < |pass.results| && pass.results[i].verdict == Failed ==>
            pass.results[j].verdict == NotRun)
  {
    if n > 0 {
      hide SinglePass, ResultFits;
      NothingRunsAfterFailure(jobs, n - 1, policy);
      PassGrows(jobs, n, policy);
      var before, pass := SinglePass(jobs, n - 1, policy).results, SinglePass(jobs, n, policy).results;
      assert forall i :: 0 <= i < |before| ==> pass[i] == before[i];
      if AnyFailed(before) {
        var i :| 0 <= i < |before| && before[i].verdict == Failed;
        assert pass[i].verdict == Failed;
      }
    }
  }

  /**
   One result per job and in the order of the jobs, CLI calls that are exactly the attempts, and
   with stop-on-failure nothing runs after the first failure.
   */
  lemma {:induction false} PassKeepsPromises(jobs: seq<Job>, policy: Policy)
    requires HaveOutcomes(jobs)
    ensures var pass := SinglePass(jobs, |jobs|, policy);
      && |pass.results| == |jobs|
      && (forall i :: 0 <= i < |jobs| ==> ResultFits(pass.results[i], jobs[i], policy))
      && pass.calls == CallsOf(pass.results)
      && (policy.stop ==> forall i, j :: 0 <= i < j < |jobs| && pass.results[i].verdict == Failed ==>
            pass.results[j].verdict == NotRun)
      && (!policy.stop ==> forall i :: 0 <= i < |jobs| ==> pass.results[i].verdict != NotRun)
  {
    OneResultPerJob(jobs, |jobs|, policy);
    CallsAreAttempts(jobs, |jobs|, policy);
    NothingRunsAfterFailure(jobs, |jobs|, policy);
    if !policy.stop {
      NothingHeldBack(jobs, |jobs|, policy);
    }
  }

  lemma {:induction false} NothingHeldBack(jobs: seq<Job>, n: nat, policy: Policy)
    requires HaveOutcomes(jobs) && n <= |jobs| && !policy.stop
    ensures forall i :: 0 <= i < |SinglePass(jobs, n, policy).results| ==>
      SinglePass(jobs, n, policy).results[i].verdict != NotRun
  {
    if n > 0 {
      NothingHeldBack(jobs, n - 1, policy);
      NothingRunsAfterFailure(jobs, n - 1, policy);
    }
  }

  /** The job would be tried, and its attempts would fail. */
  predicate Fails(job: Job, policy: Policy)
    requires job.outcomes != []
  {
    !HeldBack(job, policy) && !TryFrom(job.outcomes, 0, policy).success
  }

  /** Some job before the given one would fail. */
  predicate FailsBefore(jobs: seq<Job>, n: nat, policy: Policy)
    requires HaveOutcomes(jobs) && n <= |jobs|
  {
    exists i :: 0 <= i < n && Fails(jobs[i], policy)
  }

  lemma {:induction false} StopsAtFirstFailure(jobs: seq<Job>, n: nat, policy: Policy)
    requires HaveOutcomes(jobs) && n <= |jobs|
    ensures SinglePass(jobs, n, policy).stopped <==> policy.stop && FailsBefore(jobs, n, policy)
  {
    if n > 0 {
      StopsAtFirstFailure(jobs, n - 1, policy);
      assert FailsBefore(jobs, n, policy) <==> FailsBefore(jobs, n - 1, policy) || Fails(jobs[n - 1], policy);
      hide TryFrom;
    }
  }

  lemma LastNotRun(jobs: seq<Job>, n: nat, policy: Policy)
    requires HaveOutcomes(jobs) && 0 < n <= |jobs| && |SinglePass(jobs, n, policy).results| == n
    requires |SinglePass(jobs, n - 1, policy).results| == n - 1
    ensures SinglePass(jobs, n, policy).results[n - 1].verdict == NotRun <==> SinglePass(jobs, n - 1, policy).stopped
  {
    hide TryFrom;
  }

  /** Which jobs are not run, read off the jobs: with stop-on-failure, those after one that fails. */
  lemma {:induction false} NotRunExactlyAfterFailure(jobs: seq<Job>, n: nat, j: nat, policy: Policy)
    requires HaveOutcomes(jobs) && j < n <= |jobs|
    ensures |SinglePass(jobs, n, policy).results| == n
    ensures SinglePass(jobs, n, policy).results[j].verdict == NotRun <==> policy.stop && FailsBefore(jobs, j, policy)
    decreases n
  {
    hide SinglePass, ResultFits, TryFrom, FailsBefore;
    var before, pass := SinglePass(jobs, n - 1, policy).results, SinglePass(jobs, n, policy).results;
    OneResultPerJob(jobs, n, policy);
    OneResultPerJob(jobs, n - 1, policy);
    PassGrows(jobs, n, policy);
    if j < n - 1 {
      NotRunExactlyAfterFailure(jobs, n - 1, j, policy);
      assert pass[..n - 1][j] == before[j];
    } else {
      StopsAtFirstFailure(jobs, n - 1, policy);
      LastNotRun(jobs, n, policy);
    }
  }

  lemma {:induction false} CountIsThere(results: seq<Result>, verdict: Verdict)
    ensures Count(results, verdict) > 0 <==> exists i :: 0 <= i < |results| && results[i].verdict == verdict
  {
    if results != [] {
      var n := |results| - 1;
      CountIsThere(results[..n], verdict);
      if exists i :: 0 <= i < |results| && results[i].verdict == verdict {
        var i :| 0 <= i < |results| && results[i].verdict == verdict;
        assert i < n ==> results[..n][i].verdict == verdict;
      }
    }
  }

  /** What the exit codes say: the process code is zero exactly when no job failed and one was not held back. */
  lemma {:induction false} ExitCodesSay(results: seq<Result>)
    ensures var failed := exists i :: 0 <= i < |results| && results[i].verdict == Failed;
      var succeeded := exists i :: 0 <= i < |results| && results[i].verdict == Succeeded;
      var skipped := exists i :: 0 <= i < |results| && results[i].verdict == Skipped;
      && (ExitCodes(results).process == 0 <==> !failed && (succeeded || skipped))
      && (ExitCodes(results).state == 12 <==> !failed && !succeeded && skipped)
      && (ExitCodes(results).process == 10 <==> failed && succeeded)
      && (ExitCodes(results).process == 11 <==> !succeeded && (failed || !skipped))
  {
    CountIsThere(results, Failed);
    CountIsThere(results, Succeeded);
    CountIsThere(results, Skipped);
  }

  /**
   The codes of the results: 14 for a job not run, 12 for one skipped, 98 if the last call threw,
   else what it returned.
   */
  lemma {:induction false} ResultCodes(jobs: seq<Job>, policy: Policy, i: nat)
    requires HaveOutcomes(jobs) && i < |jobs|
    ensures var results := SinglePass(jobs, |jobs|, policy).results;
      && |results| == |jobs| && results[i].name == jobs[i].name
      && (results[i].verdict == NotRun ==> results[i].code == 14 && results[i].attempts == 0)
      && (results[i].verdict == Skipped ==> results[i].code == 12 && results[i].attempts == 0)
      && (results[i].verdict == Succeeded || results[i].verdict == Failed ==>
            && 1 <= results[i].attempts <= policy.retryCount + 1
            && match OutcomeAt(jobs[i].outcomes, results[i].attempts - 1)
               case Thrown => results[i].verdict == Failed && results[i].code == 98
               case Code(code) => results[i].code == code && (results[i].verdict == Succeeded <==> code == 0))
  {
    OneResultPerJob(jobs, |jobs|, policy);
    LastAttemptDecides(jobs[i].outcomes, 0, policy);
    hide SinglePass, TryFrom;
  }

  /** A call is followed by another one exactly while retries are left and it threw, or failed with CLI retries on. */
  lemma {:induction false} RetriesExactly(outcomes: seq<Outcome>, policy: Policy, k: nat)
    requires outcomes != [] && k < TryFrom(outcomes, 0, policy).attempts
    ensures var outcome := if k < |outcomes| then outcomes[k] else outcomes[|outcomes| - 1];
      k + 1 < TryFrom(outcomes, 0, policy).attempts <==>
        k < policy.retryCount && (outcome == Thrown || (outcome != Code(0) && policy.retryCli))
  {
    LastAttemptDecides(outcomes, 0, policy);
    hide TryFrom;
    var outcome := OutcomeAt(outcomes, k);
    assert Retried(outcome, policy.retryCli) <==> outcome == Thrown || (outcome != Code(0) && policy.retryCli);
    assert k + 1 == TryFrom(outcomes, 0, policy).attempts || Retried(OutcomeAt(outcomes, k), policy.retryCli);
  }
}
