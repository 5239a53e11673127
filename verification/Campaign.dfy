/** The mutation campaign: a baseline over every test and seed, then each mutant until its
first detected failure, under job, copy and time budgets.

Everything outside the campaign's own logic (clocks, ledger answers, copies, tools) is an
`Attempt`, one per case the campaign tries, so a statement about `Run` holds of every run. */
module Campaign {
  import opened Wrappers

  datatype Case = Case(test: string, seed: int)

  datatype Status = Passed | Detected | CompileError | TimedOut | Failed | Inconclusive

  datatype CaseResult = CaseResult(case_: Case, status: Status)

  // ---- classifying one finished job ---------------------------------------------------

  datatype StepLog = StepLog(rc: int, timedOut: bool)

  datatype JobStatus = JobPassed | JobFailed | JobError | JobTimeout

  datatype Verdict = VerdictPass | VerdictFail | VerdictOther

  /** A job record: its steps, the adapter's verdict, and whether a check was seen to fail. */
  datatype Record = Record(
    status: JobStatus, steps: seq<StepLog>, compilePhase: bool, verdict: Verdict, assertionFailed: bool)

  /** The steps before the last planned one; a plan of no steps drops the last one run. */
  function BuildSteps(steps: seq<StepLog>, planned: nat): seq<StepLog> {
    if planned == 0 then (if steps == [] then [] else steps[..|steps| - 1])
    else if planned - 1 <= |steps| then steps[..planned - 1] else steps
  }

  predicate Launchable(rc: int) {
    rc != 126 && rc != 127
  }

  function Classify(r: Record, planned: nat): Status {
    if r.status.JobTimeout? || exists s :: s in r.steps && s.timedOut then TimedOut
    else if r.compilePhase || exists s :: s in BuildSteps(r.steps, planned) && s.rc != 0 then
      if forall s :: s in r.steps ==> Launchable(s.rc) then CompileError else Inconclusive
    else if |r.steps| != planned || r.steps == [] then Inconclusive
    else if r.verdict.VerdictFail? && r.assertionFailed then Detected
    else if r.status.JobPassed? && r.verdict.VerdictPass? && forall s :: s in r.steps ==> s.rc == 0 then Passed
    else Inconclusive
  }

  /** The job, or one of its steps, ran out of time. */
  ghost predicate Late(r: Record) {
    r.status.JobTimeout? || exists k :: 0 <= k < |r.steps| && r.steps[k].timedOut
  }

  /** A step failed before the last planned one, or before the last one run of an empty plan. */
  ghost predicate FailedEarly(r: Record, planned: nat) {
    r.compilePhase ||
    exists k :: 0 <= k < |r.steps| && r.steps[k].rc != 0 && k < (if planned == 0 then |r.steps| else planned) - 1
  }

  /** Every planned step ran, in time, and all but the last ended cleanly. */
  ghost predicate RanToTheEnd(r: Record, planned: nat) {
    && |r.steps| == planned > 0 && !r.status.JobTimeout? && !r.compilePhase
    && forall k :: 0 <= k < planned ==> !r.steps[k].timedOut && (k < planned - 1 ==> r.steps[k].rc == 0)
  }

  /** Detection is a run to the last step with a failed check there; a timeout, a failed build
      or a tool that could not be launched before it is never detection. */
  lemma DetectedExactlyWhen(r: Record, planned: nat)
    ensures Classify(r, planned) == Detected <==>
      RanToTheEnd(r, planned) && r.verdict.VerdictFail? && r.assertionFailed
  {
    hide RanToTheEnd;
    EarlyMeans(r, planned);
    RanToTheEndMeans(r, planned);
  }

  /** A pass is a run of every planned step, each ending cleanly and in time. */
  lemma PassedExactlyWhen(r: Record, planned: nat)
    ensures Classify(r, planned) == Passed <==>
      && RanToTheEnd(r, planned) && r.steps[planned - 1].rc == 0 && r.status.JobPassed? && r.verdict.VerdictPass?
  {
    hide RanToTheEnd;
    EarlyMeans(r, planned);
    RanToTheEndMeans(r, planned);
    if RanToTheEnd(r, planned) { AllCleanMeans(r, planned); }
  }

  /** Any timeout comes first. */
  lemma TimedOutExactlyWhen(r: Record, planned: nat)
    ensures Classify(r, planned) == TimedOut <==> Late(r)
  {
    EarlyMeans(r, planned);
  }

  /** A failed build needs tools that could be launched: exit codes 126 and 127 say otherwise. */
  lemma CompileErrorExactlyWhen(r: Record, planned: nat)
    ensures Classify(r, planned) == CompileError <==>
      && !Late(r) && FailedEarly(r, planned)
      && forall k :: 0 <= k < |r.steps| ==> r.steps[k].rc != 126 && r.steps[k].rc != 127
  {
    EarlyMeans(r, planned);
    LaunchableMeans(r);
  }

  /** Inconclusive are launch errors of a build, runs that are short of the plan, and full runs
      that neither fail a check nor pass cleanly. */
  lemma InconclusiveExactlyWhen(r: Record, planned: nat)
    ensures Classify(r, planned) == Inconclusive <==>
      && !Late(r)
      && if FailedEarly(r, planned) then exists k :: 0 <= k < |r.steps| && r.steps[k].rc in {126, 127}
         else
           || !RanToTheEnd(r, planned)
           || (!(r.verdict.VerdictFail? && r.assertionFailed) &&
               !(r.verdict.VerdictPass? && r.status.JobPassed? && r.steps[planned - 1].rc == 0))
  {
    hide Late, FailedEarly, RanToTheEnd;
    EarlyMeans(r, planned);
    LaunchableMeans(r);
    RanToTheEndMeans(r, planned);
    if RanToTheEnd(r, planned) { AllCleanMeans(r, planned); }
  }

  lemma EarlyMeans(r: Record, planned: nat)
    ensures Late(r) <==> r.status.JobTimeout? || exists s :: s in r.steps && s.timedOut
    ensures FailedEarly(r, planned) <==> r.compilePhase || exists s :: s in BuildSteps(r.steps, planned) && s.rc != 0
  {
    var build := BuildSteps(r.steps, planned);
    assert build <= r.steps;
    assert forall k :: 0 <= k < |build| ==> build[k] == r.steps[k] && r.steps[k] in build;
  }

  lemma RanToTheEndMeans(r: Record, planned: nat)
    ensures RanToTheEnd(r, planned) <==> !Late(r) && !FailedEarly(r, planned) && |r.steps| == planned && r.steps != []
  {
  }

  lemma AllCleanMeans(r: Record, planned: nat)
    requires RanToTheEnd(r, planned)
    ensures r.steps[planned - 1].rc == 0 <==> forall s :: s in r.steps ==> s.rc == 0
  {
    assert r.steps[planned - 1] in r.steps;
  }

  lemma LaunchableMeans(r: Record)
    ensures (forall s :: s in r.steps ==> Launchable(s.rc)) <==>
      forall k :: 0 <= k < |r.steps| ==> r.steps[k].rc != 126 && r.steps[k].rc != 127
  {
    assert forall k :: 0 <= k < |r.steps| ==> r.steps[k] in r.steps;
  }

  /** A launch error can be taken for detection exactly where nothing follows it: in the final
      step, when the adapter reports a failure and a check is seen to fail. */
  lemma LaunchErrorIsDetectionOnlyAtTheEnd(r: Record, planned: nat, k: nat)
    requires k < |r.steps| && !Launchable(r.steps[k].rc)
    ensures Classify(r, planned) == Detected <==>
      && k == planned - 1 == |r.steps| - 1 && r.verdict.VerdictFail? && r.assertionFailed
      && !r.status.JobTimeout? && !r.compilePhase
      && (forall i :: 0 <= i <= k ==> !r.steps[i].timedOut) && forall i :: 0 <= i < k ==> r.steps[i].rc == 0
  {
    DetectedExactlyWhen(r, planned);
  }

  lemma LaunchErrorCanBeDetection()
    ensures Classify(Record(JobFailed, [StepLog(127, false)], false, VerdictFail, true), 1) == Detected
  {
  }

  // ---- running one plan's steps under a deadline -------------------------------------------

  /** One planned step: the clock when it is reached, how it ends if it is launched, and
      whether its failure is allowed. */
  datatype StepRun = StepRun(now: real, rc: int, timedOut: bool, allowFail: bool)

  datatype Launch = Launch(at: real, timeout: real)

  ghost predicate Within(l: Launch, deadline: real) {
    l.at < deadline && l.at + l.timeout <= deadline
  }

  /** How one job's steps end: it stops at a step that timed out or failed. */
  function StepLogs(steps: seq<StepRun>, deadline: real): seq<StepLog> {
    if steps == [] then []
    else if steps[0].now >= deadline then [StepLog(-1, true)]
    else
      [StepLog(steps[0].rc, steps[0].timedOut)] +
      if steps[0].timedOut || (steps[0].rc != 0 && !steps[0].allowFail) then [] else StepLogs(steps[1..], deadline)
  }

  /** A job runs on exactly while its steps succeed in time: a step reached too late counts
      as timed out, and nothing follows a timeout or a failure that is not allowed. */
  lemma {:induction false} StepLogsMean(steps: seq<StepRun>, deadline: real)
    ensures var logs := StepLogs(steps, deadline);
      && |logs| <= |steps|
      && (forall k :: 0 <= k < |logs| ==>
          logs[k] == if steps[k].now >= deadline then StepLog(-1, true) else StepLog(steps[k].rc, steps[k].timedOut))
      && (forall k :: 0 <= k < |logs| - 1 ==> !logs[k].timedOut && (logs[k].rc == 0 || steps[k].allowFail))
      && (|logs| < |steps| ==>
          logs != [] && var last := |logs| - 1; logs[last].timedOut || (logs[last].rc != 0 && !steps[last].allowFail))
  {
    if steps != [] {
      StepLogsMean(steps[1..], deadline);
      var logs, rest := StepLogs(steps, deadline), StepLogs(steps[1..], deadline);
      assert forall k :: 1 <= k < |logs| ==> logs[k] == rest[k - 1] && steps[k] == steps[1..][k - 1];
    }
  }

  /** How the logs so far go on at step `i`. */
  lemma StepLogsAt(steps: seq<StepRun>, deadline: real, i: nat, logs: seq<StepLog>)
    requires i < |steps| && StepLogs(steps, deadline) == logs + StepLogs(steps[i..], deadline)
    ensures var step := steps[i];
      if step.now >= deadline then StepLogs(steps, deadline) == logs + [StepLog(-1, true)]
      else
        var more := logs + [StepLog(step.rc, step.timedOut)];
        StepLogs(steps, deadline) ==
        if step.timedOut || (step.rc != 0 && !step.allowFail) then more
        else more + StepLogs(steps[i + 1..], deadline)
  {
    assert steps[i..][1..] == steps[i + 1..];
  }

  lemma StepLogsEnd(steps: seq<StepRun>, deadline: real)
    ensures StepLogs(steps[|steps|..], deadline) == []
  {
  }

  lemma GrantedWithin(now: real, granted: real, deadline: real)
    requires now < deadline && granted <= deadline - now
    ensures Within(Launch(now, granted), deadline)
  {
  }

  /** The launches follow the steps, and each is given its timeout or, if less, the time that is
      left to the deadline. */
  ghost predicate Launched(launches: seq<Launch>, steps: seq<StepRun>, timeout: real, deadline: real) {
    && |launches| <= |steps|
    && (forall l :: l in launches ==> Within(l, deadline) && l.timeout <= timeout)
    && (forall l :: l in launches ==> l.timeout == timeout || l.at + l.timeout == deadline)
    && forall k :: 0 <= k < |launches| ==> launches[k].at == steps[k].now
  }

  lemma NoneLaunched(steps: seq<StepRun>, timeout: real, deadline: real)
    ensures Launched([], steps, timeout, deadline)
  {
  }

  lemma OneMoreLaunched(launches: seq<Launch>, steps: seq<StepRun>, timeout: real, deadline: real, granted: real)
    requires Launched(launches, steps, timeout, deadline) && |launches| < |steps|
    requires Within(Launch(steps[|launches|].now, granted), deadline) && granted <= timeout
    requires granted == timeout || steps[|launches|].now + granted == deadline
    ensures Launched(launches + [Launch(steps[|launches|].now, granted)], steps, timeout, deadline)
  {
    hide Within;
  }

  /** The steps of one job.  A step reached at or after the deadline is not launched and
      counts as timed out; a launched one is given no time past it. */
  method RunSteps(steps: seq<StepRun>, timeout: real, deadline: real)
    returns (logs: seq<StepLog>, launches: seq<Launch>)
    ensures logs == StepLogs(steps, deadline)
    ensures Launched(launches, steps, timeout, deadline) && |launches| <= |logs| <= |steps|
    ensures |launches| < |logs| ==> |logs| == |launches| + 1 && steps[|launches|].now >= deadline
  {
    hide StepLogs, Within, Launched;
    logs, launches := [], [];
    NoneLaunched(steps, timeout, deadline);
    assert steps[0..] == steps;
    StepLogsEnd(steps, deadline);
    for i := 0 to |steps|
      invariant |logs| == i && |launches| == i
      invariant StepLogs(steps, deadline) == logs + StepLogs(steps[i..], deadline)
      invariant Launched(launches, steps, timeout, deadline)
    {
      StepLogsAt(steps, deadline, i, logs);
      var remaining := deadline - steps[i].now;
      if remaining <= 0.0 {
        logs := logs + [StepLog(-1, true)];
        return;
      }
      var granted := if timeout < remaining then timeout else remaining;
      GrantedWithin(steps[i].now, granted, deadline);
      OneMoreLaunched(launches, steps, timeout, deadline, granted);
      launches := launches + [Launch(steps[i].now, granted)];
      logs := logs + [StepLog(steps[i].rc, steps[i].timedOut)];
      if steps[i].timedOut || (steps[i].rc != 0 && !steps[i].allowFail) {
        return;
      }
    }
  }

  // ---- the report's shape ----------------------------------------------------------------------

  datatype ItemStatus = NotRun | Incomplete | Caught | Survived | Unresolved(worst: Status)

  /** One mutant in the report. */
  datatype Item = Item(status: ItemStatus, cases: seq<CaseResult>, detectedBy: Option<Case>)

  const UNTOUCHED := Item(NotRun, [], None)

  /** The cases tried so far are the head of the matrix. */
  ghost predicate Follows(cases: seq<CaseResult>, matrix: seq<Case>) {
    |cases| <= |matrix| && forall i :: 0 <= i < |cases| ==> cases[i].case_ == matrix[i]
  }

  ghost predicate NoneDetected(cases: seq<CaseResult>) {
    forall r :: r in cases ==> !r.status.Detected?
  }

  function StatusIn(cases: seq<CaseResult>, s: Status): bool {
    exists r :: r in cases && r.status == s
  }

  /** The status of a mutant that no case detected. */
  function Settled(cases: seq<CaseResult>): ItemStatus {
    if StatusIn(cases, CompileError) then Unresolved(CompileError)
    else if StatusIn(cases, TimedOut) then Unresolved(TimedOut)
    else if StatusIn(cases, Inconclusive) then Unresolved(Inconclusive)
    else Survived
  }

  /** A finished mutant: detected by its last case, which is the first detecting one; or not
      detected by any case of the whole matrix, surviving exactly when all of them passed. */
  ghost predicate Finished(it: Item, matrix: seq<Case>) {
    && Follows(it.cases, matrix) && it.cases != []
    && (it.status == Caught || |it.cases| == |matrix|)
    && (it.status == Caught <==> it.cases[|it.cases| - 1].status.Detected?)
    && NoneDetected(it.cases[..|it.cases| - 1])
    && it.detectedBy == (if it.status == Caught then Some(it.cases[|it.cases| - 1].case_) else None)
    && (it.status == Survived <==> |it.cases| == |matrix| && forall r :: r in it.cases ==> r.status == Passed)
    && it.status != NotRun && it.status != Incomplete
    && (it.status.Unresolved? ==> WorstOf(it.cases, it.status.worst))
  }

  /** A failed build outranks a timeout, and a timeout an inconclusive case. */
  ghost predicate WorstOf(cases: seq<CaseResult>, worst: Status) {
    && StatusIn(cases, worst)
    && forall r :: r in cases ==>
      && (r.status.CompileError? ==> worst == CompileError)
      && (r.status.TimedOut? ==> worst in {CompileError, TimedOut})
  }

  /** The mutant the campaign stopped in. */
  ghost predicate Underway(it: Item, matrix: seq<Case>) {
    Follows(it.cases, matrix) && NoneDetected(it.cases) && it.detectedBy == None
    && it.status == (if it.cases == [] then NotRun else Incomplete)
    && forall r :: r in it.cases ==> r.status != Failed
  }

  /** Finished mutants, then at most one underway, then mutants never run. */
  ghost predicate ItemsShape(items: seq<Item>, matrix: seq<Case>, at: nat) {
    && at <= |items|
    && (forall i :: 0 <= i < at ==> Finished(items[i], matrix))
    && (at < |items| ==> Underway(items[at], matrix))
    && (forall i :: at < i < |items| ==> items[i] == UNTOUCHED)
  }

  /** Baseline cases follow the matrix and stop at the first that did not pass. */
  ghost predicate BaselineShape(baseline: seq<CaseResult>, matrix: seq<Case>) {
    && Follows(baseline, matrix) && NoneDetected(baseline)
    && forall i :: 0 <= i < |baseline| - 1 ==> baseline[i].status == Passed
  }

  ghost predicate BaselinePassed(baseline: seq<CaseResult>, matrix: seq<Case>) {
    |baseline| == |matrix| && forall r :: r in baseline ==> r.status == Passed
  }

  datatype CampaignStatus = Running | NoMutations | BaselineFailed | Completed | BudgetExhausted | Errored

  datatype Report = Report(
    status: CampaignStatus, baseline: seq<CaseResult>, items: seq<Item>, jobs: nat, copiedBytes: nat)

  const COPY_LIMIT := 0x4000_0000

  datatype Limits = Limits(maxJobs: nat, deadline: real, copyBytes: nat)

  function Min(a: nat, b: nat): nat {
    if a <= b then a else b
  }

  /** The cases of a full campaign: the matrix once as a baseline and once for each mutant. */
  function MostCases(matrix: seq<Case>, mutants: nat): nat {
    Mul(|matrix|, 1 + mutants)
  }

  function Mul(a: nat, b: nat): nat {
    a * b
  }

  /** What holds of every report a campaign writes. */
  ghost predicate Sound(r: Report, matrix: seq<Case>, mutants: nat, limits: Limits) {
    && |r.items| == mutants
    && BaselineShape(r.baseline, matrix)
    && (exists at :: ItemsShape(r.items, matrix, at))
    && ((exists it :: it in r.items && it.cases != []) ==> BaselinePassed(r.baseline, matrix))
    && r.jobs <= Min(limits.maxJobs, MostCases(matrix, mutants))
    && r.copiedBytes <= COPY_LIMIT
    && (r.status == Completed ==> ItemsShape(r.items, matrix, mutants) && BaselinePassed(r.baseline, matrix))
  }

  lemma StatusesSettle(cases: seq<CaseResult>)
    requires NoneDetected(cases) && forall r :: r in cases ==> r.status != Failed
    ensures Settled(cases) == Survived <==> forall r :: r in cases ==> r.status == Passed
    ensures Settled(cases) != Caught && Settled(cases) != NotRun && Settled(cases) != Incomplete
    ensures Settled(cases).Unresolved? ==> WorstOf(cases, Settled(cases).worst)
  {
  }

  lemma FollowsOneMore(cases: seq<CaseResult>, matrix: seq<Case>, r: CaseResult)
    requires Follows(cases, matrix) && |cases| < |matrix| && r.case_ == matrix[|cases|]
    ensures Follows(cases + [r], matrix)
  {
  }

  lemma CaughtIsFinished(it: Item, matrix: seq<Case>, r: CaseResult)
    requires Underway(it, matrix) && |it.cases| < |matrix| && r.case_ == matrix[|it.cases|] && r.status == Detected
    ensures Finished(Item(Caught, it.cases + [r], Some(r.case_)), matrix)
  {
    assert (it.cases + [r])[..|it.cases|] == it.cases;
    assert r in it.cases + [r];
  }

  lemma StillUnderway(it: Item, matrix: seq<Case>, r: CaseResult)
    requires Underway(it, matrix) && |it.cases| < |matrix| && r.case_ == matrix[|it.cases|]
    requires r.status != Detected && r.status != Failed
    ensures Underway(Item(Incomplete, it.cases + [r], None), matrix)
  {
  }

  lemma AllTriedIsFinished(it: Item, matrix: seq<Case>)
    requires Underway(it, matrix) && |it.cases| == |matrix| > 0
    ensures Finished(it.(status := Settled(it.cases)), matrix)
  {
    StatusesSettle(it.cases);
    assert it.cases[|it.cases| - 1] in it.cases;
  }

  lemma ItemsStep(items: seq<Item>, matrix: seq<Case>, at: nat, it: Item)
    requires ItemsShape(items, matrix, at) && at < |items|
    ensures Underway(it, matrix) ==> ItemsShape(items[at := it], matrix, at)
    ensures Finished(it, matrix) ==> ItemsShape(items[at := it], matrix, at + 1)
  {
  }

  // ---- the campaign --------------------------------------------------------------------------------

  /** What the world does during one attempted case.  `ledgerN` and `cpuLeftN` are the ledger's
      answers at the two stop checks; the rest are the outcomes of the steps between. */
  datatype Attempt = Attempt(
    now1: real, ledger1: bool, cpuLeft1: bool,
    copied: bool, prepared: bool, planned: bool, inputsValid: bool,
    now2: real, ledger2: bool, cpuLeft2: bool,
    licensed: bool, licenseLeft: real, now3: real, cpuSeconds: real, reserved: bool,
    seated: bool, steps: seq<StepRun>, timeout: real, submitted: bool,
    status: JobStatus, compilePhase: bool, verdict: Verdict, assertionFailed: bool)

  /** What an attempt that is planned and submitted leaves on record. */
  function RecordOf(limits: Limits, a: Attempt): Record {
    var logs := if a.seated then StepLogs(a.steps, JobDeadline(limits, a)) else [];
    Record(a.status, logs, a.compilePhase, a.verdict, a.assertionFailed)
  }

  function CaseStatus(limits: Limits, a: Attempt): Status {
    if a.planned then Classify(RecordOf(limits, a), |a.steps|) else Inconclusive
  }

  /** What the report says of case `k` of a round; round 0 is the baseline, where a detected
      failure is a failed case. */
  function Expected(limits: Limits, env: (nat, nat) -> Attempt, round: nat, k: nat): Status {
    var s := CaseStatus(limits, env(round, k));
    if round == 0 && s.Detected? then Failed else s
  }

  /** The cases reported of a round are what its attempts came to. */
  ghost predicate Told(cases: seq<CaseResult>, limits: Limits, env: (nat, nat) -> Attempt, round: nat) {
    forall k :: 0 <= k < |cases| ==> cases[k].status == Expected(limits, env, round, k)
  }

  lemma NothingTold(limits: Limits, env: (nat, nat) -> Attempt, round: nat)
    ensures Told([], limits, env, round)
  {
  }

  lemma ToldMore(cases: seq<CaseResult>, limits: Limits, env: (nat, nat) -> Attempt, round: nat, r: CaseResult)
    requires Told(cases, limits, env, round) && r.status == Expected(limits, env, round, |cases|)
    ensures Told(cases + [r], limits, env, round)
  {
    hide Expected;
  }

  /** The limits leave room for every case of a full campaign. */
  ghost predicate Roomy(limits: Limits, cases: nat) {
    cases <= limits.maxJobs && limits.copyBytes * cases <= COPY_LIMIT
  }

  /** Nothing outside the campaign's own limits stops the case. */
  ghost predicate Unhindered(limits: Limits, a: Attempt) {
    && a.now1 < limits.deadline && a.ledger1 && a.cpuLeft1 && a.copied && a.prepared
    && (a.planned ==>
        && a.inputsValid && a.now2 < limits.deadline && a.ledger2 && a.cpuLeft2
        && !(a.licensed && a.licenseLeft < 0.0) && a.reserved && a.submitted)
  }

  ghost predicate Smooth(limits: Limits, matrix: seq<Case>, mutants: nat, env: (nat, nat) -> Attempt) {
    && Roomy(limits, MostCases(matrix, mutants))
    && (forall k :: 0 <= k < |matrix| ==> Passes(limits, env(0, k)))
    && forall round :: 0 <= round <= mutants ==> SmoothRound(limits, matrix, env, round)
  }

  ghost predicate SmoothRound(limits: Limits, matrix: seq<Case>, env: (nat, nat) -> Attempt, round: nat) {
    forall k: nat :: k < |matrix| ==> Unhindered(limits, env(round, k))
  }

  /** A limit stands against the case, with this many jobs run and bytes copied. */
  ghost predicate Meets(limits: Limits, a: Attempt, jobs: nat, copied: nat) {
    || a.now1 >= limits.deadline || a.now2 >= limits.deadline || jobs >= limits.maxJobs
    || copied + limits.copyBytes > COPY_LIMIT || !a.ledger1 || !a.ledger2 || !a.cpuLeft1 || !a.cpuLeft2
    || (a.licensed && a.licenseLeft < 0.0) || !a.reserved
  }

  /** Something outside the campaign fails. */
  ghost predicate Breaks(a: Attempt) {
    !a.copied || !a.prepared || (a.planned && (!a.inputsValid || !a.submitted))
  }

  /** Why a campaign that tried this case in vain stopped. */
  ghost predicate StoppedBy(status: CampaignStatus, limits: Limits, a: Attempt, jobs: nat, copied: nat) {
    || (status == BudgetExhausted && Meets(limits, a, jobs, copied))
    || (status == Errored && Breaks(a))
  }

  lemma CopiesFit(limits: Limits, copies: nat, cases: nat)
    ensures Roomy(limits, cases) && copies < cases ==> limits.copyBytes * copies + limits.copyBytes <= COPY_LIMIT
  {
    if copies < cases {
      assert limits.copyBytes * (cases - copies - 1) >= 0;
      assert limits.copyBytes * cases == limits.copyBytes * (copies + 1) + limits.copyBytes * (cases - copies - 1);
    }
  }

  lemma ToldMutant(cases: seq<CaseResult>, limits: Limits, env: (nat, nat) -> Attempt, round: nat, r: CaseResult)
    requires Told(cases, limits, env, round) && round > 0 && r.status == CaseStatus(limits, env(round, |cases|))
    ensures Told(cases + [r], limits, env, round)
  {
    ToldMore(cases, limits, env, round, r);
  }

  /** Every planned step is reached and ends in time, all but possibly the last with success. */
  ghost predicate RunsThrough(limits: Limits, a: Attempt) {
    && a.planned && a.seated && a.steps != [] && !a.status.JobTimeout? && !a.compilePhase
    && forall k :: 0 <= k < |a.steps| ==>
      && a.steps[k].now < JobDeadline(limits, a) && !a.steps[k].timedOut
      && (k < |a.steps| - 1 ==> a.steps[k].rc == 0)
  }

  /** The last step shows a failed check. */
  ghost predicate Detects(limits: Limits, a: Attempt) {
    RunsThrough(limits, a) && a.verdict.VerdictFail? && a.assertionFailed
  }

  ghost predicate Passes(limits: Limits, a: Attempt) {
    && RunsThrough(limits, a) && a.steps[|a.steps| - 1].rc == 0
    && a.status.JobPassed? && a.verdict.VerdictPass?
  }

  lemma RecordRan(limits: Limits, a: Attempt)
    requires a.planned
    ensures var r := RecordOf(limits, a);
      && (RanToTheEnd(r, |a.steps|) <==> RunsThrough(limits, a))
      && (RunsThrough(limits, a) ==> r.steps[|a.steps| - 1].rc == a.steps[|a.steps| - 1].rc)
  {
    hide StepLogs, JobDeadline;
    StepLogsMean(a.steps, JobDeadline(limits, a));
  }

  /** An attempt is reported as detecting, or as passing, exactly when it does. */
  lemma AttemptMeans(limits: Limits, a: Attempt)
    ensures CaseStatus(limits, a) == Detected <==> Detects(limits, a)
    ensures CaseStatus(limits, a) == Passed <==> Passes(limits, a)
  {
    hide StepLogs, JobDeadline, Classify, RanToTheEnd;
    if a.planned {
      DetectedExactlyWhen(RecordOf(limits, a), |a.steps|);
      PassedExactlyWhen(RecordOf(limits, a), |a.steps|);
      RecordRan(limits, a);
    }
  }

  /** A finished mutant is caught exactly when the attempt of some case detects it, and its cases
      end at the first such; it survives exactly when every attempt passes. */
  ghost predicate Judged(it: Item, limits: Limits, matrix: seq<Case>, env: (nat, nat) -> Attempt, round: nat) {
    && (it.status == Caught <==> exists k :: 0 <= k < |matrix| && Detects(limits, env(round, k)))
    && (it.status == Caught ==>
        && it.cases != [] && Detects(limits, env(round, |it.cases| - 1))
        && forall k :: 0 <= k < |it.cases| - 1 ==> !Detects(limits, env(round, k)))
    && (it.status == Survived <==> forall k :: 0 <= k < |matrix| ==> Passes(limits, env(round, k)))
  }

  lemma FinishedIsJudged(it: Item, limits: Limits, matrix: seq<Case>, env: (nat, nat) -> Attempt, round: nat)
    requires Finished(it, matrix) && Told(it.cases, limits, env, round) && round > 0
    ensures Judged(it, limits, matrix, env, round)
  {
    hide CaseStatus, Detects, Passes;
    forall k | 0 <= k < |it.cases|
      ensures it.cases[k] in it.cases && (it.cases[k].status == Detected <==> Detects(limits, env(round, k)))
      ensures it.cases[k].status == Passed <==> Passes(limits, env(round, k))
      ensures k < |it.cases| - 1 ==> it.cases[k].status != Detected
    {
      AttemptMeans(limits, env(round, k));
      if k < |it.cases| - 1 { assert it.cases[..|it.cases| - 1][k] in it.cases[..|it.cases| - 1]; }
    }
    if |it.cases| == |matrix| {
      assert forall r :: r in it.cases ==> exists k :: 0 <= k < |matrix| && it.cases[k] == r;
    }
  }

  datatype Outcome = Done(result: CaseResult) | LimitReached | Broken

  function RealMin(a: real, b: real): real {
    if a <= b then a else b
  }

  class Campaign {
    const matrix: seq<Case>
    const mutants: nat
    const limits: Limits
    var jobs: nat
    var copiedBytes: nat
    var baseline: seq<CaseResult>
    var items: seq<Item>
    var status: CampaignStatus
    ghost var at: nat                // the mutant under way
    ghost var attempts: nat          // cases tried
    ghost var reservations: nat      // granted by the ledger
    ghost var copies: nat            // workspaces copied
    ghost var launches: seq<Launch>  // every tool step launched
    ghost var saves: seq<Report>     // every report written

    ghost predicate Budgets()
      reads this`jobs, this`reservations, this`attempts, this`copiedBytes, this`copies, this`launches
    {
      && jobs == reservations && jobs <= attempts && jobs <= limits.maxJobs
      && copiedBytes == limits.copyBytes * copies && copiedBytes <= COPY_LIMIT
      && forall l :: l in launches ==> Within(l, limits.deadline)
    }

    ghost predicate Shape()
      reads this`baseline, this`items, this`status, this`at
    {
      && matrix != [] && |items| == mutants
      && BaselineShape(baseline, matrix) && ItemsShape(items, matrix, at)
      && (!BaselinePassed(baseline, matrix) ==> forall it :: it in items ==> it == UNTOUCHED)
      && (status == Completed ==> at == mutants && BaselinePassed(baseline, matrix))
    }

    /** Cases tried: the baseline's, then each mutant's, never more than the matrix each. */
    ghost predicate Counted()
      reads this`attempts, this`copies
    {
      copies <= attempts <= MostCases(matrix, mutants)
    }

    ghost predicate Valid()
      reads this
    {
      Budgets() && Shape() && Counted() && forall r :: r in saves ==> Sound(r, matrix, mutants, limits)
    }

    constructor (matrix: seq<Case>, mutants: nat, limits: Limits)
      requires matrix != []
      ensures Valid() && this.matrix == matrix && this.mutants == mutants && this.limits == limits
      ensures baseline == [] && items == seq(mutants, _ => UNTOUCHED) && status == Running
      ensures jobs == copiedBytes == attempts == 0 && at == 0 && saves == [] && launches == []
    {
      this.matrix, this.mutants, this.limits := matrix, mutants, limits;
      jobs, copiedBytes, baseline, items, status := 0, 0, [], seq(mutants, _ => UNTOUCHED), Running;
      at, attempts, reservations, copies, launches, saves := 0, 0, 0, 0, [], [];
    }

    method Save()
      requires Valid()
      modifies this`saves
      ensures Valid() && saves == old(saves) + [Report(status, baseline, items, jobs, copiedBytes)]
    {
      if !BaselinePassed(baseline, matrix) {
        assert forall it :: it in items ==> it.cases == [];
      }
      saves := saves + [Report(status, baseline, items, jobs, copiedBytes)];
    }

    /** End the campaign early. */
    method Stop(why: CampaignStatus)
      requires Valid() && why in {NoMutations, BaselineFailed, BudgetExhausted, Errored}
      modifies this`status
      ensures Valid() && status == why
    {
      hide Sound, BaselineShape, ItemsShape, BaselinePassed, Budgets, Counted;
      status := why;
    }

    /** How a campaign that is not completed stopped: at a baseline case that did not pass, or at
        a case that could not be tried. */
    ghost predicate Early(env: (nat, nat) -> Attempt)
      reads this`baseline, this`items, this`at, this`status, this`jobs, this`copiedBytes
    {
      if BaselinePassed(baseline, matrix) then
        && at < |items| && |items[at].cases| < |matrix|
        && StoppedBy(status, limits, env(1 + at, |items[at].cases|), jobs, copiedBytes)
      else if baseline != [] && baseline[|baseline| - 1].status != Passed then status == BaselineFailed
      else |baseline| < |matrix| && StoppedBy(status, limits, env(0, |baseline|), jobs, copiedBytes)
    }

    /** A reason to stop before another case is tried. */
    predicate Stops(now: real, ledger: bool, cpuLeft: bool)
      reads this
    {
      now >= limits.deadline || jobs >= limits.maxJobs || !ledger || !cpuLeft
    }

    /** Try one case: check the budgets, copy, plan, check again, reserve, submit, classify. */
    method RunCase(c: Case, a: Attempt) returns (o: Outcome)
      requires Valid() && attempts < MostCases(matrix, mutants)
      modifies this`jobs, this`copiedBytes, this`attempts, this`reservations, this`copies, this`launches, this`saves
      ensures Valid() && attempts == old(attempts) + 1
      ensures o.Done? ==> o.result == CaseResult(c, CaseStatus(limits, a)) && o.result.status != Failed
      ensures o.Done? ==>
        && (o.result.status == Detected <==> Detects(limits, a)) && (o.result.status == Passed <==> Passes(limits, a))
      ensures o.Done? && a.planned ==> jobs == old(jobs) + 1
      ensures o.LimitReached? ==> jobs == old(jobs)
      // a limit is met before the copy, or before the job of a planned case
      ensures
        var early := a.now1 >= limits.deadline || old(jobs) >= limits.maxJobs || !a.ledger1 || !a.cpuLeft1;
        var full := old(copiedBytes) + limits.copyBytes > COPY_LIMIT;
        var late := a.now2 >= limits.deadline || !a.ledger2 || !a.cpuLeft2
          || (a.licensed && a.licenseLeft < 0.0) || !a.reserved;
        && (o.LimitReached? <==> early || full || (a.copied && a.prepared && a.planned && a.inputsValid && late))
        && (o.Done? <==>
            && !early && !full && a.copied && a.prepared
            && (a.planned ==> a.inputsValid && !late && a.submitted))
      ensures Roomy(limits, MostCases(matrix, mutants)) && Unhindered(limits, a) ==> o.Done?
      ensures (o.LimitReached? ==> Meets(limits, a, jobs, copiedBytes)) && (o.Broken? ==> Breaks(a))
    {
      hide Sound, Shape, Within, Classify, RecordOf, MostCases, Detects, Passes;
      AttemptMeans(limits, a);
      CopiesFit(limits, copies, MostCases(matrix, mutants));
      attempts := attempts + 1;
      if Stops(a.now1, a.ledger1, a.cpuLeft1) { return LimitReached; }
      if copiedBytes + limits.copyBytes > COPY_LIMIT { return LimitReached; }
      if !a.copied { return Broken; }
      CopiedOneMore(limits.copyBytes, copies);
      copiedBytes, copies := copiedBytes + limits.copyBytes, copies + 1;
      if !a.prepared { return Broken; }
      if !a.planned { return Done(CaseResult(c, Inconclusive)); }
      if !a.inputsValid { return Broken; }
      if Stops(a.now2, a.ledger2, a.cpuLeft2) { return LimitReached; }
      if a.licensed && a.licenseLeft < 0.0 { return LimitReached; }
      if !a.reserved { return LimitReached; }
      o := Submit(c, a);
    }

    /** Try one case; when it cannot be tried, the campaign ends. */
    method TryCase(c: Case, a: Attempt) returns (r: Option<CaseResult>)
      requires Valid() && attempts < MostCases(matrix, mutants)
      modifies this`jobs, this`copiedBytes, this`attempts, this`reservations, this`copies, this`launches, this`saves,
               this`status
      ensures Valid() && attempts == old(attempts) + 1
      ensures r.Some? ==>
        status == old(status) && r.value == CaseResult(c, CaseStatus(limits, a)) && r.value.status != Failed
      ensures r.None? ==> status in {BudgetExhausted, Errored} && StoppedBy(status, limits, a, jobs, copiedBytes)
      ensures Roomy(limits, MostCases(matrix, mutants)) && Unhindered(limits, a) ==> r.Some?
    {
      hide Sound, Shape, Budgets, Counted, Within, CaseStatus, Detects, Passes, Meets, Breaks, MostCases, Roomy,
        Unhindered;
      var o := RunCase(c, a);
      match o {
        case Done(result) => r := Some(result);
        case LimitReached => Stop(BudgetExhausted); r := None;
        case Broken => Stop(Errored); r := None;
      }
    }

    /** Spend a reservation: no step of the job outlives the campaign's deadline. */
    method Submit(c: Case, a: Attempt) returns (o: Outcome)
      requires Valid() && jobs < limits.maxJobs && jobs < attempts
      modifies this`jobs, this`reservations, this`launches, this`saves
      ensures Valid() && jobs == old(jobs) + 1
      ensures o == if a.submitted then Done(CaseResult(c, Classify(RecordOf(limits, a), |a.steps|))) else Broken
      ensures o.Done? ==> o.result.status != Failed
    {
      hide Sound, Shape, Within, Classify, StepLogs;
      var deadline := JobDeadline(limits, a);
      jobs, reservations := jobs + 1, reservations + 1;
      Save();
      var logs, launched := [], [];
      if a.seated { logs, launched := RunSteps(a.steps, a.timeout, deadline); }
      WithinEarlier(launched, deadline, limits.deadline);
      launches := launches + launched;
      if !a.submitted { return Broken; }
      var record := Record(a.status, logs, a.compilePhase, a.verdict, a.assertionFailed);
      ClassifiedMeans(record, |a.steps|);
      o := Done(CaseResult(c, Classify(record, |a.steps|)));
    }

    /** Run every baseline case; stop at the first that does not pass. */
    method RunBaseline(env: (nat, nat) -> Attempt) returns (goOn: bool)
      requires Valid() && status == Running && baseline == [] && attempts == 0 && at == 0
      requires forall it :: it in items ==> it == UNTOUCHED
      modifies this
      ensures Valid() && at == 0 && items == old(items) && Told(baseline, limits, env, 0)
      ensures goOn ==> status == Running && BaselinePassed(baseline, matrix) && attempts == |matrix|
      ensures !goOn ==> Early(env) && !BaselinePassed(baseline, matrix)
      ensures !goOn ==> status in {BaselineFailed, BudgetExhausted, Errored}
      ensures
        && Roomy(limits, MostCases(matrix, mutants)) && SmoothRound(limits, matrix, env, 0)
        && (forall k :: 0 <= k < |matrix| ==> Passes(limits, env(0, k))) ==>
        goOn
    {
      hide Sound, Within, ItemsShape, Told, CaseStatus, MostCases, Passes, Unhindered, Roomy, StoppedBy;
      NothingTold(limits, env, 0);
      for i := 0 to |matrix|
        invariant Valid() && status == Running && attempts == i == |baseline| && at == 0 && items == old(items)
        invariant Told(baseline, limits, env, 0) && forall r :: r in baseline ==> r.status == Passed
      {
        Room(matrix, mutants, 0, i);
        var result := TryCase(matrix[i], env(0, i));
        if result.None? { return false; }
        AttemptMeans(limits, env(0, i));
        var r := if result.value.status.Detected? then result.value.(status := Failed) else result.value;
        FollowsOneMore(baseline, matrix, r);
        ToldMore(baseline, limits, env, 0, r);
        baseline := baseline + [r];
        Save();
        if r.status != Passed {
          Stop(BaselineFailed);
          return false;
        }
      }
      goOn := true;
    }

    /** Run one mutant until a case detects it or the matrix is exhausted. */
    method RunMutant(m: nat, env: (nat, nat) -> Attempt) returns (goOn: bool)
      requires Valid() && status == Running && BaselinePassed(baseline, matrix)
      requires m == at < mutants && items[m] == UNTOUCHED && attempts <= MostCases(matrix, m)
      modifies this`jobs, this`copiedBytes, this`attempts, this`reservations, this`copies, this`launches, this`saves,
               this`items, this`status, this`at
      ensures Valid() && baseline == old(baseline) && Told(items[m].cases, limits, env, 1 + m)
      ensures |items| == |old(items)| && forall i :: 0 <= i < |items| && i != m ==> items[i] == old(items)[i]
      ensures goOn ==> status == Running && at == m + 1 && attempts <= MostCases(matrix, at)
      ensures !goOn ==>
        && at == m && |items[m].cases| < |matrix| && status in {BudgetExhausted, Errored}
        && StoppedBy(status, limits, env(1 + m, |items[m].cases|), jobs, copiedBytes)
      ensures goOn ==> Judged(items[m], limits, matrix, env, 1 + m)
      ensures Roomy(limits, MostCases(matrix, mutants)) && SmoothRound(limits, matrix, env, 1 + m) ==> goOn
    {
      hide Sound, Within, ItemsShape, Finished, Underway, BaselineShape, BaselinePassed, Budgets, Counted, MostCases;
      hide Settled, Follows, Told, CaseStatus, Roomy, Unhindered, Judged, Expected, StoppedBy;
      UntouchedIsUnderway(matrix);
      NothingTold(limits, env, 1 + m);
      ghost var start := attempts;
      for k := 0 to |matrix|
        invariant Valid() && status == Running && baseline == old(baseline) && at == m
        invariant |items| == |old(items)| && forall i :: 0 <= i < |items| && i != m ==> items[i] == old(items)[i]
        invariant attempts == start + k && |items[m].cases| == k && Underway(items[m], matrix)
        invariant Told(items[m].cases, limits, env, 1 + m)
      {
        Room(matrix, mutants, 1 + m, k);
        var result := TryCase(matrix[k], env(1 + m, k));
        if result.None? { return false; }
        var r := result.value;
        ToldMutant(items[m].cases, limits, env, 1 + m, r);
        if r.status.Detected? {
          CaughtIsFinished(items[m], matrix, r);
          Place(m, Item(Caught, items[m].cases + [r], Some(r.case_)), true);
          Room(matrix, mutants, 1 + m, k);
          FinishedIsJudged(items[m], limits, matrix, env, 1 + m);
          return true;
        }
        StillUnderway(items[m], matrix, r);
        Place(m, Item(Incomplete, items[m].cases + [r], None), false);
      }
      Room(matrix, mutants, 1 + m, |matrix| - 1);
      AllTriedIsFinished(items[m], matrix);
      Place(m, items[m].(status := Settled(items[m].cases)), true);
      FinishedIsJudged(items[m], limits, matrix, env, 1 + m);
      goOn := true;
    }

    /** Update the mutant under way in the report, and save. */
    method Place(m: nat, it: Item, done: bool)
      requires Valid() && status == Running && m == at < mutants && BaselinePassed(baseline, matrix)
      requires if done then Finished(it, matrix) else Underway(it, matrix)
      modifies this`items, this`at, this`saves
      ensures Valid() && items == old(items)[m := it] && at == if done then m + 1 else m
    {
      hide Sound, Within, ItemsShape, Finished, Underway, BaselineShape, Budgets, Counted;
      ItemsStep(items, matrix, at, it);
      items := items[m := it];
      at := if done then m + 1 else m;
      Save();
    }

    /** The whole campaign.  Every report it writes is sound, and the last one is final. */
    method Run(snapshot: CampaignStatus, env: (nat, nat) -> Attempt)
      requires Valid() && status == Running && baseline == [] && attempts == 0 && at == 0
      requires items == seq(mutants, _ => UNTOUCHED)
      // `Running` when the inputs were copied, else why they were not
      requires snapshot in {Running, BudgetExhausted, Errored}
      modifies this
      ensures Valid() && status != Running
      ensures saves != [] && saves[|saves| - 1] == Report(status, baseline, items, jobs, copiedBytes)
      ensures forall r :: r in saves ==> Sound(r, matrix, mutants, limits)
      // how it ended
      ensures mutants == 0 ==> status == NoMutations
      ensures mutants > 0 && snapshot != Running ==> status == snapshot
      ensures mutants > 0 && snapshot == Running && status != Completed ==> Early(env)
      ensures status == Completed <==> (mutants > 0 && BaselinePassed(baseline, matrix) && at == mutants)
      ensures jobs == reservations && copiedBytes == limits.copyBytes * copies
      // each reported case is what its attempt came to, whenever the campaign stopped
      ensures Told(baseline, limits, env, 0)
      ensures forall m :: 0 <= m < mutants ==> Told(items[m].cases, limits, env, 1 + m)
      // and each finished mutant is caught or survives by what its attempts did
      ensures at <= mutants && forall m :: 0 <= m < at ==> Judged(items[m], limits, matrix, env, 1 + m)
      ensures forall l :: l in launches ==> Within(l, limits.deadline)
      // a campaign whose baseline passes and that nothing hinders is completed
      ensures mutants > 0 && snapshot == Running && Smooth(limits, matrix, mutants, env) ==> status == Completed
    {
      hide Sound, Within, ItemsShape, Finished, Underway, BaselineShape, BaselinePassed, Judged, Roomy;
      hide Unhindered, Passes, MostCases, Early;
      Save();
      NotPassedYet(matrix);
      if mutants == 0 {
        Stop(NoMutations);
      } else if snapshot != Running {
        Stop(snapshot);
      } else {
        var goOn := RunBaseline(env);
        if goOn {
          goOn := RunMutants(env);
        }
      }
      Save();
    }

    method RunMutants(env: (nat, nat) -> Attempt) returns (goOn: bool)
      requires Valid() && status == Running && BaselinePassed(baseline, matrix) && attempts == |matrix| && at == 0
      requires items == seq(mutants, _ => UNTOUCHED)
      modifies this`jobs, this`copiedBytes, this`attempts, this`reservations, this`copies, this`launches, this`saves,
               this`items, this`status, this`at
      ensures Valid() && baseline == old(baseline)
      ensures forall i :: 0 <= i < mutants ==> Told(items[i].cases, limits, env, 1 + i)
      ensures goOn ==> status == Completed && at == mutants
      ensures !goOn ==> at < mutants && Early(env) && status in {BudgetExhausted, Errored}
      ensures forall i :: 0 <= i < at ==> Judged(items[i], limits, matrix, env, 1 + i)
      ensures Smooth(limits, matrix, mutants, env) ==> goOn
    {
      hide Sound, Within, Finished, Underway, BaselineShape, BaselinePassed, Told, Budgets, MostCases;
      hide Judged, Roomy, Unhindered, StoppedBy;
      forall i | 0 <= i < mutants ensures Told(items[i].cases, limits, env, 1 + i) { NothingTold(limits, env, 1 + i); }
      AllCases(matrix);
      for m := 0 to mutants
        invariant Valid() && status == Running && baseline == old(baseline) && at == m
        invariant attempts <= MostCases(matrix, m)
        invariant m < mutants ==> items[m] == UNTOUCHED
        invariant forall i :: m < i < mutants ==> items[i] == UNTOUCHED
        invariant forall i :: 0 <= i < mutants ==> Told(items[i].cases, limits, env, 1 + i)
        invariant forall i :: 0 <= i < m ==> Judged(items[i], limits, matrix, env, 1 + i)
      {
        goOn := RunMutant(m, env);
        if !goOn { return; }
      }
      status := Completed;
      goOn := true;
    }
  }

  /** There is room for another attempt while some case of some round is left. */
  lemma Room(matrix: seq<Case>, mutants: nat, round: nat, k: nat)
    requires k < |matrix| && round <= mutants
    ensures MostCases(matrix, 0) == |matrix|
    ensures k < MostCases(matrix, mutants)
    ensures round > 0 ==> MostCases(matrix, round - 1) + k < MostCases(matrix, mutants)
    ensures round > 0 ==> MostCases(matrix, round - 1) + k + 1 <= MostCases(matrix, round)
  {
    var n := |matrix|;
    assert n * (round + 1) == n * round + n;
    assert n * (mutants - round) >= 0;
    assert n * (1 + mutants) == n * (round + 1) + n * (mutants - round);
  }

  lemma AllCases(matrix: seq<Case>)
    ensures MostCases(matrix, 0) == |matrix|
  {
  }

  lemma UntouchedIsUnderway(matrix: seq<Case>)
    ensures Underway(UNTOUCHED, matrix)
  {
  }

  lemma NotPassedYet(matrix: seq<Case>)
    requires matrix != []
    ensures !BaselinePassed([], matrix)
  {
  }

  lemma CopiedOneMore(bytes: nat, copies: nat)
    ensures bytes * (copies + 1) == bytes * copies + bytes
  {
  }

  /** When a job must end: no later than the campaign's deadline, the job's timeout and the
      processor and license time left to spend, and as late as the earliest of them allows. */
  function JobDeadline(limits: Limits, a: Attempt): (d: real)
    ensures d <= limits.deadline && d <= a.now3 + a.timeout && d <= a.now3 + AtLeastZero(a.cpuSeconds)
    ensures a.licensed ==> d <= a.now3 + AtLeastZero(a.licenseLeft)
    ensures
      || d == limits.deadline || d == a.now3 + a.timeout || d == a.now3 + AtLeastZero(a.cpuSeconds)
      || (a.licensed && d == a.now3 + AtLeastZero(a.licenseLeft))
  {
    var d := RealMin(RealMin(limits.deadline, a.now3 + a.timeout), a.now3 + AtLeastZero(a.cpuSeconds));
    if a.licensed then RealMin(d, a.now3 + AtLeastZero(a.licenseLeft)) else d
  }

  function AtLeastZero(x: real): real {
    if x > 0.0 then x else 0.0
  }

  lemma WithinEarlier(ls: seq<Launch>, early: real, late: real)
    requires early <= late && forall l :: l in ls ==> Within(l, early)
    ensures forall l :: l in ls ==> Within(l, late)
  {
  }

  lemma ClassifiedMeans(r: Record, planned: nat)
    ensures Classify(r, planned) != Failed
    ensures Classify(r, planned) == Detected ==> r.assertionFailed && r.verdict.VerdictFail?
  {
  }
}
