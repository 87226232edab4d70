/**
 * The timing configuration of the KEV worker: integer arithmetic checked against the safe range, the
 * cross-field rules, and what a configuration that passes them guarantees about one job's lease.
 */
module LeaseBudget {
  import opened Numbers
  import opened Wrappers

  function CheckedAdd(left: int, right: int): Option<int> {
    if !Safe(left) || !Safe(right) || !Safe(left + right) then None else Some(left + right)
  }

  function CheckedMultiply(left: int, right: int): Option<int> {
    if !Safe(left) || !Safe(right) || !Safe(left * right) then None else Some(left * right)
  }

  const STAGING_TRANSACTION_BUDGET_MS := 2_000
  const HTTP_REDIRECT_MAX := 0

  datatype Config = Config(
    osvEnabled: bool,
    kevSyncIntervalSeconds: int, kevStaleThresholdSeconds: int,
    httpConnectTimeoutMs: int, httpTotalTimeoutMs: int, httpRetryCount: int,
    httpBackoffFloorMs: int, httpBackoffCeilingMs: int, httpRedirectMax: int,
    kevMaxTextFieldBytes: int, kevJsonMaxStringBytes: int,
    kevParserTimeoutMs: int, kevJobLeaseMs: int, objectStorageTimeoutMs: int,
    orphanGraceSeconds: int, stagingGenerationMaxAgeSeconds: int,
    syncRetryWaitFloorMs: int, syncRetryWaitCeilingMs: int, jobLeaseRenewalIntervalMs: int,
    kevSchedulerPollIntervalMs: int, kevSchedulerStartupDelayMs: int, retryReconcileMinAgeMs: int)

  predicate InBounds(c: Config) {
    && 3_600 <= c.kevSyncIntervalSeconds <= 604_800 && 7_200 <= c.kevStaleThresholdSeconds <= 1_209_600
    && 250 <= c.httpConnectTimeoutMs <= 15_000 && 5_000 <= c.httpTotalTimeoutMs <= 180_000
    && 0 <= c.httpRetryCount <= 5 && 250 <= c.httpBackoffFloorMs <= 10_000
    && 1_000 <= c.httpBackoffCeilingMs <= 120_000
    && 256 <= c.kevMaxTextFieldBytes <= 16_384 && 256 <= c.kevJsonMaxStringBytes <= 16_384
    && 1_000 <= c.kevParserTimeoutMs <= 30_000 && 120_000 <= c.kevJobLeaseMs <= 1_800_000
    && 1_000 <= c.objectStorageTimeoutMs <= 120_000 && 7_200 <= c.orphanGraceSeconds <= 2_592_000
    && 3_600 <= c.stagingGenerationMaxAgeSeconds <= 604_800
    && 1_000 <= c.syncRetryWaitFloorMs <= 300_000 && 10_000 <= c.syncRetryWaitCeilingMs <= 1_800_000
    && 5_000 <= c.jobLeaseRenewalIntervalMs <= 300_000
    && 5_000 <= c.kevSchedulerPollIntervalMs <= 300_000 && 0 <= c.kevSchedulerStartupDelayMs <= 60_000
    && 1_000 <= c.retryReconcileMinAgeMs <= 120_000
  }

  // ---- the budget and the rules ----

  function HttpWorstCaseBudgetMs(c: Config): Option<int> {
    var attempts := CheckedAdd(c.httpRetryCount, 1);
    if attempts.None? then None
    else
      var timeouts := CheckedMultiply(attempts.value, c.httpTotalTimeoutMs);
      var backoffs := CheckedMultiply(c.httpRetryCount, c.httpBackoffCeilingMs);
      if timeouts.None? || backoffs.None? then None else CheckedAdd(timeouts.value, backoffs.value)
  }

  /** The budget in unbounded arithmetic. */
  function HttpBudget(c: Config): int {
    (c.httpRetryCount + 1) * c.httpTotalTimeoutMs + c.httpRetryCount * c.httpBackoffCeilingMs
  }

  function JobBudget(c: Config): int { HttpBudget(c) + (c.kevParserTimeoutMs + c.objectStorageTimeoutMs) }

  lemma ProductBound(n: int, x: int, maxN: int, maxX: int)
    requires 0 <= n <= maxN && 0 <= x <= maxX
    ensures 0 <= n * x <= maxN * maxX
  {}

  /** Within the numeric bounds none of the checked operations overflows. */
  lemma NothingOverflows(c: Config)
    requires InBounds(c)
    ensures HttpWorstCaseBudgetMs(c) == Some(HttpBudget(c))
    ensures CheckedAdd(c.kevParserTimeoutMs, c.objectStorageTimeoutMs)
        == Some(c.kevParserTimeoutMs + c.objectStorageTimeoutMs)
    ensures CheckedAdd(HttpBudget(c), c.kevParserTimeoutMs + c.objectStorageTimeoutMs) == Some(JobBudget(c))
    ensures CheckedMultiply(c.orphanGraceSeconds, 1_000) == Some(c.orphanGraceSeconds * 1_000)
    ensures CheckedMultiply(c.stagingGenerationMaxAgeSeconds, 1_000) == Some(c.stagingGenerationMaxAgeSeconds * 1_000)
  {
    ProductBound(c.httpRetryCount + 1, c.httpTotalTimeoutMs, 6, 180_000);
    ProductBound(c.httpRetryCount, c.httpBackoffCeilingMs, 5, 120_000);
  }

  /** The field an issue is reported against. */
  datatype Path =
    | OsvEnabled | HttpConnectTimeoutMs | HttpBackoffFloorMs | KevStaleThresholdSeconds | KevParserTimeoutMs
    | ObjectStorageTimeoutMs | SyncRetryWaitFloorMs | JobLeaseRenewalIntervalMs | KevSchedulerStartupDelayMs
    | RetryReconcileMinAgeMs | OrphanGraceSeconds | StagingGenerationMaxAgeSeconds | KevJsonMaxStringBytes
    | HttpRetryCount | KevJobLeaseMs | HttpRedirectMax

  const FIRST_PATHS :=
    {OsvEnabled, HttpConnectTimeoutMs, HttpBackoffFloorMs, KevStaleThresholdSeconds, KevParserTimeoutMs,
     ObjectStorageTimeoutMs, SyncRetryWaitFloorMs}
  const LEASE_PATHS :=
    {JobLeaseRenewalIntervalMs, KevSchedulerStartupDelayMs, RetryReconcileMinAgeMs, OrphanGraceSeconds,
     StagingGenerationMaxAgeSeconds}
  const LAST_PATHS := {KevJsonMaxStringBytes, HttpRetryCount, KevJobLeaseMs, HttpRedirectMax}

  /** What each field's rule forbids, in unbounded arithmetic. */
  predicate Broken(c: Config, p: Path) {
    match p
    case OsvEnabled => c.osvEnabled
    case HttpConnectTimeoutMs => c.httpConnectTimeoutMs >= c.httpTotalTimeoutMs
    case HttpBackoffFloorMs => c.httpBackoffFloorMs > c.httpBackoffCeilingMs
    case KevStaleThresholdSeconds => c.kevStaleThresholdSeconds <= c.kevSyncIntervalSeconds
    case KevParserTimeoutMs => c.kevParserTimeoutMs >= c.kevJobLeaseMs
    case ObjectStorageTimeoutMs => c.objectStorageTimeoutMs >= c.kevJobLeaseMs
    case SyncRetryWaitFloorMs => c.syncRetryWaitFloorMs > c.syncRetryWaitCeilingMs
    case JobLeaseRenewalIntervalMs =>
      // the interval and its three renewals fill the lease, or a staging transaction outlasts it
      3 * (c.jobLeaseRenewalIntervalMs + 1) > c.kevJobLeaseMs
          || c.jobLeaseRenewalIntervalMs <= STAGING_TRANSACTION_BUDGET_MS
    case KevSchedulerStartupDelayMs => c.kevSchedulerStartupDelayMs > c.kevSchedulerPollIntervalMs
    case RetryReconcileMinAgeMs => c.retryReconcileMinAgeMs >= c.kevJobLeaseMs
    case OrphanGraceSeconds => c.orphanGraceSeconds * 1_000 <= c.kevJobLeaseMs
    case StagingGenerationMaxAgeSeconds => c.stagingGenerationMaxAgeSeconds * 1_000 <= c.kevJobLeaseMs
    case KevJsonMaxStringBytes => c.kevJsonMaxStringBytes < c.kevMaxTextFieldBytes
    case HttpRetryCount => HttpBudget(c) >= c.kevJobLeaseMs
    case KevJobLeaseMs => JobBudget(c) >= c.kevJobLeaseMs
    case HttpRedirectMax => c.httpRedirectMax != HTTP_REDIRECT_MAX
  }

  ghost predicate Sound(c: Config) { forall p :: !Broken(c, p) }

  /** The rules as the bounds they promise. */
  predicate RulesKept(c: Config) {
    && !c.osvEnabled && c.httpRedirectMax == 0
    && c.httpConnectTimeoutMs < c.httpTotalTimeoutMs && c.httpBackoffFloorMs <= c.httpBackoffCeilingMs
    && c.kevSyncIntervalSeconds < c.kevStaleThresholdSeconds
    && c.kevParserTimeoutMs < c.kevJobLeaseMs && c.objectStorageTimeoutMs < c.kevJobLeaseMs
    && c.syncRetryWaitFloorMs <= c.syncRetryWaitCeilingMs
    && 2_000 < c.jobLeaseRenewalIntervalMs < c.kevJobLeaseMs / 3
    && c.kevSchedulerStartupDelayMs <= c.kevSchedulerPollIntervalMs && c.retryReconcileMinAgeMs < c.kevJobLeaseMs
    && c.kevJobLeaseMs < c.orphanGraceSeconds * 1_000 && c.kevJobLeaseMs < c.stagingGenerationMaxAgeSeconds * 1_000
    && c.kevMaxTextFieldBytes <= c.kevJsonMaxStringBytes
    && HttpBudget(c) < c.kevJobLeaseMs && JobBudget(c) < c.kevJobLeaseMs
  }

  /** A configuration without issues is one within all those bounds. */
  lemma SoundMeans(c: Config)
    ensures Sound(c) <==> RulesKept(c)
  {
    hide HttpBudget, JobBudget;
    if RulesKept(c) {
      forall p ensures !Broken(c, p) { EveryPath(p); }
    } else {
      var p := BrokenRule(c);
      assert Broken(c, p);
    }
  }

  lemma BrokenRule(c: Config) returns (p: Path)
    requires !RulesKept(c)
    ensures Broken(c, p)
  {
    hide HttpBudget, JobBudget;
    if c.osvEnabled { return OsvEnabled; }
    if c.httpRedirectMax != 0 { return HttpRedirectMax; }
    if c.httpConnectTimeoutMs >= c.httpTotalTimeoutMs { return HttpConnectTimeoutMs; }
    if c.httpBackoffFloorMs > c.httpBackoffCeilingMs { return HttpBackoffFloorMs; }
    if c.kevSyncIntervalSeconds >= c.kevStaleThresholdSeconds { return KevStaleThresholdSeconds; }
    if c.kevParserTimeoutMs >= c.kevJobLeaseMs { return KevParserTimeoutMs; }
    if c.objectStorageTimeoutMs >= c.kevJobLeaseMs { return ObjectStorageTimeoutMs; }
    if c.syncRetryWaitFloorMs > c.syncRetryWaitCeilingMs { return SyncRetryWaitFloorMs; }
    if !(2_000 < c.jobLeaseRenewalIntervalMs < c.kevJobLeaseMs / 3) { return JobLeaseRenewalIntervalMs; }
    if c.kevSchedulerStartupDelayMs > c.kevSchedulerPollIntervalMs { return KevSchedulerStartupDelayMs; }
    if c.retryReconcileMinAgeMs >= c.kevJobLeaseMs { return RetryReconcileMinAgeMs; }
    if c.kevJobLeaseMs >= c.orphanGraceSeconds * 1_000 { return OrphanGraceSeconds; }
    if c.kevJobLeaseMs >= c.stagingGenerationMaxAgeSeconds * 1_000 { return StagingGenerationMaxAgeSeconds; }
    if c.kevMaxTextFieldBytes > c.kevJsonMaxStringBytes { return KevJsonMaxStringBytes; }
    if HttpBudget(c) >= c.kevJobLeaseMs { return HttpRetryCount; }
    p := KevJobLeaseMs;
  }

  lemma EveryPath(p: Path)
    ensures p in FIRST_PATHS || p in LEASE_PATHS || p in LAST_PATHS
  {
    match p
    case OsvEnabled => case HttpConnectTimeoutMs => case HttpBackoffFloorMs => case KevStaleThresholdSeconds =>
    case KevParserTimeoutMs => case ObjectStorageTimeoutMs => case SyncRetryWaitFloorMs =>
    case JobLeaseRenewalIntervalMs =>
    case KevSchedulerStartupDelayMs => case RetryReconcileMinAgeMs => case OrphanGraceSeconds => case HttpRetryCount =>
    case StagingGenerationMaxAgeSeconds => case KevJsonMaxStringBytes => case KevJobLeaseMs => case HttpRedirectMax =>
  }

  /** Pushes an issue when its rule is broken. */
  function Report(issues: seq<Path>, broken: bool, p: Path): (r: seq<Path>)
    ensures forall q :: q in r <==> q in issues || (broken && q == p)
  {
    if broken then issues + [p] else issues
  }

  /** The rules up to the retry wait. */
  method FirstIssues(c: Config) returns (issues: seq<Path>)
    ensures forall p :: p in issues <==> Broken(c, p) && p in FIRST_PATHS
  {
    hide Report, JobBudget, HttpBudget;
    issues := Report([], c.osvEnabled, OsvEnabled);
    issues := Report(issues, c.httpConnectTimeoutMs >= c.httpTotalTimeoutMs, HttpConnectTimeoutMs);
    issues := Report(issues, c.httpBackoffFloorMs > c.httpBackoffCeilingMs, HttpBackoffFloorMs);
    issues := Report(issues, c.kevStaleThresholdSeconds <= c.kevSyncIntervalSeconds, KevStaleThresholdSeconds);
    issues := Report(issues, c.kevParserTimeoutMs >= c.kevJobLeaseMs, KevParserTimeoutMs);
    issues := Report(issues, c.objectStorageTimeoutMs >= c.kevJobLeaseMs, ObjectStorageTimeoutMs);
    issues := Report(issues, c.syncRetryWaitFloorMs > c.syncRetryWaitCeilingMs, SyncRetryWaitFloorMs);
  }

  /** The rules on the lease and what must be longer or shorter than it. */
  method LeaseIssues(c: Config) returns (issues: seq<Path>)
    ensures InBounds(c) ==> forall p :: p in issues <==> Broken(c, p) && p in LEASE_PATHS
  {
    hide Report, HttpBudget, HttpWorstCaseBudgetMs, CheckedAdd, CheckedMultiply, InBounds;
    var oneThirdLease := c.kevJobLeaseMs / 3;
    issues := Report([], c.jobLeaseRenewalIntervalMs >= oneThirdLease, JobLeaseRenewalIntervalMs);
    issues := Report(issues, c.jobLeaseRenewalIntervalMs <= STAGING_TRANSACTION_BUDGET_MS, JobLeaseRenewalIntervalMs);
    issues := Report(issues, c.kevSchedulerStartupDelayMs > c.kevSchedulerPollIntervalMs, KevSchedulerStartupDelayMs);
    issues := Report(issues, c.retryReconcileMinAgeMs >= c.kevJobLeaseMs, RetryReconcileMinAgeMs);
    var orphanGraceMs := CheckedMultiply(c.orphanGraceSeconds, 1_000);
    issues := Report(issues, orphanGraceMs.None? || orphanGraceMs.value <= c.kevJobLeaseMs, OrphanGraceSeconds);
    var maxAgeMs := CheckedMultiply(c.stagingGenerationMaxAgeSeconds, 1_000);
    issues := Report(issues, maxAgeMs.None? || maxAgeMs.value <= c.kevJobLeaseMs, StagingGenerationMaxAgeSeconds);
    if InBounds(c) { NothingOverflows(c); }
  }

  /** The rules on sizes, the budget and redirects. */
  method LastIssues(c: Config) returns (issues: seq<Path>)
    ensures InBounds(c) ==> forall p :: p in issues <==> Broken(c, p) && p in LAST_PATHS
  {
    hide Report, HttpBudget, HttpWorstCaseBudgetMs, CheckedAdd, CheckedMultiply, InBounds;
    issues := Report([], c.kevJsonMaxStringBytes < c.kevMaxTextFieldBytes, KevJsonMaxStringBytes);
    var httpBudget := HttpWorstCaseBudgetMs(c);
    issues := Report(issues, httpBudget.None? || httpBudget.value >= c.kevJobLeaseMs, HttpRetryCount);
    if httpBudget.Some? {
      var parserAndStorage := CheckedAdd(c.kevParserTimeoutMs, c.objectStorageTimeoutMs);
      var fullBudget := if parserAndStorage.None? then None else CheckedAdd(httpBudget.value, parserAndStorage.value);
      issues := Report(issues, fullBudget.None? || fullBudget.value >= c.kevJobLeaseMs, KevJobLeaseMs);
    }
    issues := Report(issues, c.httpRedirectMax != HTTP_REDIRECT_MAX, HttpRedirectMax);
    if InBounds(c) { NothingOverflows(c); }
  }

  /** Reports exactly the broken rules: the checked arithmetic gives the unbounded answer within bounds. */
  method RelationshipIssues(c: Config) returns (issues: seq<Path>)
    ensures InBounds(c) ==> forall p :: p in issues <==> Broken(c, p)
    ensures InBounds(c) ==> (issues == [] <==> Sound(c))
  {
    hide Broken, InBounds;
    var first := FirstIssues(c);
    var lease := LeaseIssues(c);
    var last := LastIssues(c);
    issues := first + lease + last;
    forall p: Path ensures p in FIRST_PATHS || p in LEASE_PATHS || p in LAST_PATHS { EveryPath(p); }
    assert issues != [] ==> issues[0] in issues;
  }

  // ---- what a sound configuration guarantees ----

  /** What a job spends its time on. */
  datatype Phase = Attempt(ms: nat) | Backoff(ms: nat) | Parse(ms: nat) | Store(ms: nat)

  /** Time spent in a schedule. */
  function Elapsed(phases: seq<Phase>): nat {
    if phases == [] then 0 else phases[0].ms + Elapsed(phases[1..])
  }

  /** What may still happen: numbers of attempts, backoffs, parses and stores. */
  datatype Allowance = Allowance(attempts: nat, backoffs: nat, parses: nat, stores: nat)

  /** The limit on a phase of its kind. */
  function Limit(c: Config, phase: Phase): int {
    match phase
    case Attempt(_) => c.httpTotalTimeoutMs
    case Backoff(_) => c.httpBackoffCeilingMs
    case Parse(_) => c.kevParserTimeoutMs
    case Store(_) => c.objectStorageTimeoutMs
  }

  predicate Allows(left: Allowance, phase: Phase) {
    match phase
    case Attempt(_) => left.attempts > 0
    case Backoff(_) => left.backoffs > 0
    case Parse(_) => left.parses > 0
    case Store(_) => left.stores > 0
  }

  function Without(left: Allowance, phase: Phase): Allowance
    requires Allows(left, phase)
  {
    match phase
    case Attempt(_) => left.(attempts := left.attempts - 1)
    case Backoff(_) => left.(backoffs := left.backoffs - 1)
    case Parse(_) => left.(parses := left.parses - 1)
    case Store(_) => left.(stores := left.stores - 1)
  }

  /** Every phase keeps its own limit, and there are no more of each kind than allowed, in any order. */
  predicate Permitted(c: Config, left: Allowance, phases: seq<Phase>)
    decreases |phases|
  {
    phases == [] ||
    (phases[0].ms <= Limit(c, phases[0]) && Allows(left, phases[0])
     && Permitted(c, Without(left, phases[0]), phases[1..]))
  }

  /** One job: the first attempt and its retries, a backoff before each retry, one parse, one store. */
  function JobAllowance(c: Config): Allowance
    requires InBounds(c)
  {
    Allowance(c.httpRetryCount + 1, c.httpRetryCount, 1, 1)
  }

  function Worth(c: Config, a: Allowance): int {
    a.attempts * c.httpTotalTimeoutMs + a.backoffs * c.httpBackoffCeilingMs
    + a.parses * c.kevParserTimeoutMs + a.stores * c.objectStorageTimeoutMs
  }

  lemma Spend(n: nat, limit: int)
    requires n > 0
    ensures n * limit == (n - 1) * limit + limit
  {}

  /** Using a phase costs exactly its limit. */
  lemma SpendPhase(c: Config, left: Allowance, phase: Phase)
    requires Allows(left, phase)
    ensures Worth(c, left) == Limit(c, phase) + Worth(c, Without(left, phase))
  {
    match phase
    case Attempt(_) => Spend(left.attempts, c.httpTotalTimeoutMs);
    case Backoff(_) => Spend(left.backoffs, c.httpBackoffCeilingMs);
    case Parse(_) => Spend(left.parses, c.kevParserTimeoutMs);
    case Store(_) => Spend(left.stores, c.objectStorageTimeoutMs);
  }

  lemma WorthIsPositive(c: Config, a: Allowance)
    requires InBounds(c)
    ensures Worth(c, a) >= 0
  {
    assert a.attempts * c.httpTotalTimeoutMs >= 0 && a.backoffs * c.httpBackoffCeilingMs >= 0;
    assert a.parses * c.kevParserTimeoutMs >= 0 && a.stores * c.objectStorageTimeoutMs >= 0;
  }

  lemma {:induction false} ElapsedWithinWorth(c: Config, left: Allowance, phases: seq<Phase>)
    requires InBounds(c) && Permitted(c, left, phases)
    ensures Elapsed(phases) <= Worth(c, left)
    decreases |phases|
  {
    if phases == [] {
      WorthIsPositive(c, left);
    } else {
      hide Worth, Limit, Without;
      SpendPhase(c, left, phases[0]);
      ElapsedWithinWorth(c, Without(left, phases[0]), phases[1..]);
    }
  }

  /** A phase of a kind that is left, as long as it may be, or nothing when all is used up. */
  function Next(c: Config, left: Allowance): (next: Option<Phase>)
    requires InBounds(c)
    ensures next.Some? ==> Allows(left, next.value) && next.value.ms == Limit(c, next.value)
    ensures next.None? ==> left == Allowance(0, 0, 0, 0)
  {
    if left.attempts > 0 then Some(Attempt(c.httpTotalTimeoutMs))
    else if left.backoffs > 0 then Some(Backoff(c.httpBackoffCeilingMs))
    else if left.parses > 0 then Some(Parse(c.kevParserTimeoutMs))
    else if left.stores > 0 then Some(Store(c.objectStorageTimeoutMs))
    else None
  }

  /** The schedule that uses up everything. */
  function Longest(c: Config, left: Allowance): seq<Phase>
    requires InBounds(c)
    decreases left.attempts + left.backoffs + left.parses + left.stores
  {
    var next := Next(c, left);
    if next.None? then [] else [next.value] + Longest(c, Without(left, next.value))
  }

  lemma {:induction false} LongestUsesAll(c: Config, left: Allowance)
    requires InBounds(c)
    ensures Permitted(c, left, Longest(c, left)) && Elapsed(Longest(c, left)) == Worth(c, left)
    decreases |Longest(c, left)|
  {
    hide InBounds, Next, Limit, Without;
    var next := Next(c, left);
    if next.Some? {
      hide Worth;
      var rest := Without(left, next.value);
      LongestUsesAll(c, rest);
      SpendPhase(c, left, next.value);
      assert Longest(c, left)[1..] == Longest(c, rest);
    }
  }

  /**
   * Every schedule of a job ends strictly inside the lease if and only if the rule on the lease holds:
   * the rule is what the guarantee needs and no more.
   */
  lemma JobFitsLeaseIffRule(c: Config)
    requires InBounds(c)
    ensures !Broken(c, KevJobLeaseMs)
       <==> forall phases | Permitted(c, JobAllowance(c), phases) :: Elapsed(phases) < c.kevJobLeaseMs
  {
    var all := JobAllowance(c);
    assert Worth(c, all) == JobBudget(c);
    LongestUsesAll(c, all);
    assert Permitted(c, all, Longest(c, all));
    forall phases | Permitted(c, all, phases) ensures Elapsed(phases) <= JobBudget(c) {
      ElapsedWithinWorth(c, all, phases);
    }
  }

  // ---- renewals ----

  /** When the lease runs out after some renewal attempts, one every interval from the claim at time 0. */
  function ExpiresAt(c: Config, outcomes: seq<bool>): int {
    if outcomes == [] then c.kevJobLeaseMs
    else if outcomes[|outcomes| - 1] then |outcomes| * c.jobLeaseRenewalIntervalMs + c.kevJobLeaseMs
    else ExpiresAt(c, outcomes[..|outcomes| - 1])
  }

  /** How many attempts failed since the last success, or since the claim. */
  function Missed(outcomes: seq<bool>): nat {
    if outcomes == [] || outcomes[|outcomes| - 1] then 0 else 1 + Missed(outcomes[..|outcomes| - 1])
  }

  lemma {:induction false} ExpiryFollowsLastRenewal(c: Config, outcomes: seq<bool>)
    ensures Missed(outcomes) <= |outcomes|
    ensures ExpiresAt(c, outcomes) == (|outcomes| - Missed(outcomes)) * c.jobLeaseRenewalIntervalMs + c.kevJobLeaseMs
  {
    if outcomes != [] && !outcomes[|outcomes| - 1] { ExpiryFollowsLastRenewal(c, outcomes[..|outcomes| - 1]); }
  }

  /** After at most two missed renewals in a row, the next attempt still comes before the lease runs out. */
  lemma TwoMissedRenewalsAreSafe(c: Config, outcomes: seq<bool>)
    requires InBounds(c) && !Broken(c, JobLeaseRenewalIntervalMs) && Missed(outcomes) <= 2
    ensures (|outcomes| + 1) * c.jobLeaseRenewalIntervalMs < ExpiresAt(c, outcomes)
  {
    ExpiryFollowsLastRenewal(c, outcomes);
    var n, k, i := |outcomes|, Missed(outcomes), c.jobLeaseRenewalIntervalMs;
    assert (n + 1) * i == (n - k) * i + (k + 1) * i;
    ProductBound(k + 1, i, 3, i);
  }

  // ---- the queue's own lock ----

  function LockDurationMs(sbomProcessingLeaseMs: int, kevJobLeaseMs: int): int {
    if sbomProcessingLeaseMs > kevJobLeaseMs then sbomProcessingLeaseMs else kevJobLeaseMs
  }

  function LockRenewTimeMs(lockDurationMs: int, jobLeaseRenewalIntervalMs: int): int {
    var half := lockDurationMs / 2;
    var cap := if half - 1 > 1 then half - 1 else 1;
    if jobLeaseRenewalIntervalMs < cap then jobLeaseRenewalIntervalMs else cap
  }

  /** Whatever the interval, a lock is renewed before half of it has run; a short enough interval is kept. */
  lemma LockRenewsBeforeHalf(lockDurationMs: int, intervalMs: int)
    requires lockDurationMs >= 4
    ensures LockRenewTimeMs(lockDurationMs, intervalMs) < lockDurationMs / 2
    ensures intervalMs < lockDurationMs / 2 ==> LockRenewTimeMs(lockDurationMs, intervalMs) == intervalMs
    ensures intervalMs >= 1 ==> LockRenewTimeMs(lockDurationMs, intervalMs) >= 1
  {}

  /** With a sound configuration the cap never bites: the lock is renewed at the configured interval. */
  lemma LockRenewsAtTheInterval(c: Config, sbomProcessingLeaseMs: int)
    requires InBounds(c) && !Broken(c, JobLeaseRenewalIntervalMs)
    ensures var duration := LockDurationMs(sbomProcessingLeaseMs, c.kevJobLeaseMs);
      && LockRenewTimeMs(duration, c.jobLeaseRenewalIntervalMs) == c.jobLeaseRenewalIntervalMs
      && 3 * LockRenewTimeMs(duration, c.jobLeaseRenewalIntervalMs) < duration
  {}
}
