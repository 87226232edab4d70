/**
 * Deliveries of one KEV job to any number of workers, interleaved await by await with each other, with
 * lease renewals and with the clock. The job row is changed by single conditional UPDATE statements. A
 * worker is known to the row by its identifier only, which is one per process.
 */
module JobOwnership {
  import opened Wrappers

  datatype Worker = Worker(identifier: string)

  datatype Status = Queued | Running | Succeeded | Failed | DeadLettered | Cancelled

  predicate Terminal(status: Status) {
    status.Succeeded? || status.Failed? || status.DeadLettered? || status.Cancelled?
  }

  datatype Row = Row(status: Status, worker: Option<Worker>, leaseExpiresAt: Option<int>, attempt: nat)

  /** Where one delivery is in the processor. */
  datatype Pc =
    | Reading              // before it has read the row
    | Preparing            // past the check for a terminal status
    | Claiming(now: int)   // has read the clock for its claim
    | Executing(expiresAt: int)
    | Refetching           // the work completed; reading the row again
    | Marking              // the row said it was still running under this identifier
    | Done

  datatype Delivery = Delivery(worker: Worker, pc: Pc)

  /** lastClaim is the delivery whose claim succeeded last. */
  datatype State = State(now: int, leaseMs: nat, row: Row, deliveries: seq<Delivery>, lastClaim: Option<nat>)

  datatype Step =
    | Tick(now: int)
    | Deliver(worker: Worker)
    | Read(i: nat)
    | Postpone(i: nat)           // the sync run waits for its next attempt
    | ReadClock(i: nat)
    | Claim(i: nat)
    | Renew(i: nat, at: int)     // with the clock as the heartbeat read it
    | Complete(i: nat)           // the work reports a completed outcome
    | MarkRetry(i: nat)
    | MarkFailed(i: nat)
    | Refetch(i: nat)
    | MarkSucceeded(i: nat)
    | Crash(i: nat)              // the delivery ends without a further word
    | Cancel(status: Status)     // an operator ends the job

  ghost predicate At(s: State, i: nat, pc: Pc) { i < |s.deliveries| && s.deliveries[i].pc == pc }

  ghost predicate Enabled(s: State, step: Step) {
    match step
    case Tick(now) => s.now <= now
    case Deliver(worker) => true
    case Read(i) => At(s, i, Reading)
    case Postpone(i) => At(s, i, Preparing)
    case ReadClock(i) => At(s, i, Preparing)
    case Claim(i) => i < |s.deliveries| && s.deliveries[i].pc.Claiming?
    case Renew(i, at) => i < |s.deliveries| && s.deliveries[i].pc.Executing? && at <= s.now
    case Complete(i) => i < |s.deliveries| && s.deliveries[i].pc.Executing?
    case MarkRetry(i) => i < |s.deliveries| && s.deliveries[i].pc.Executing?
    case MarkFailed(i) => i < |s.deliveries| && s.deliveries[i].pc.Executing?
    case Refetch(i) => At(s, i, Refetching)
    case MarkSucceeded(i) => At(s, i, Marking)
    case Crash(i) => i < |s.deliveries|
    case Cancel(status) => Terminal(status) && !Terminal(s.row.status)
  }

  /** The WHERE clause of a claim. */
  predicate Claimable(row: Row, now: int) {
    row.status == Queued || (row.status == Running && row.leaseExpiresAt.Some? && row.leaseExpiresAt.value < now)
  }

  /** The WHERE clause of every other statement. */
  predicate Owned(row: Row, worker: Worker) { row.status == Running && row.worker == Some(worker) }

  ghost predicate ClaimSucceeds(s: State, i: nat) {
    i < |s.deliveries| && s.deliveries[i].pc.Claiming? && Claimable(s.row, s.deliveries[i].pc.now)
  }

  function Goto(s: State, i: nat, pc: Pc): State
    requires i < |s.deliveries|
  {
    s.(deliveries := s.deliveries[i := s.deliveries[i].(pc := pc)])
  }

  /** A conditional UPDATE on behalf of a delivery. */
  function Update(s: State, i: nat, row: Row): State
    requires i < |s.deliveries|
  {
    if Owned(s.row, s.deliveries[i].worker) then s.(row := row) else s
  }

  ghost function Apply(s: State, step: Step): State
    requires Enabled(s, step)
  {
    match step
    case Tick(now) => s.(now := now)
    case Deliver(worker) => s.(deliveries := s.deliveries + [Delivery(worker, Reading)])
    case Read(i) => Goto(s, i, if Terminal(s.row.status) then Done else Preparing)
    case Postpone(i) => Goto(s, i, Done)
    case ReadClock(i) => Goto(s, i, Claiming(s.now))
    case Claim(i) =>
      var d := s.deliveries[i];
      if !Claimable(s.row, d.pc.now) then Goto(s, i, Done)
      else
        var expiresAt := d.pc.now + s.leaseMs;
        Goto(s, i, Executing(expiresAt))
          .(row := Row(Running, Some(d.worker), Some(expiresAt), s.row.attempt + 1), lastClaim := Some(i))
    case Renew(i, at) =>
      if !Owned(s.row, s.deliveries[i].worker) then s
      else Goto(s, i, Executing(at + s.leaseMs)).(row := s.row.(leaseExpiresAt := Some(at + s.leaseMs)))
    case Complete(i) => Goto(s, i, Refetching)
    case MarkRetry(i) => Goto(Update(s, i, s.row.(status := Queued, worker := None, leaseExpiresAt := None)), i, Done)
    case MarkFailed(i) => Goto(Update(s, i, s.row.(status := Failed, leaseExpiresAt := None)), i, Done)
    case Refetch(i) => Goto(s, i, if Owned(s.row, s.deliveries[i].worker) then Marking else Done)
    case MarkSucceeded(i) => Goto(Update(s, i, s.row.(status := Succeeded, leaseExpiresAt := None)), i, Done)
    case Crash(i) => Goto(s, i, Done)
    case Cancel(status) => s.(row := s.row.(status := status, leaseExpiresAt := None))
  }

  ghost predicate Legal(s: State, steps: seq<Step>)
    decreases |steps|
  {
    steps == [] || (Enabled(s, steps[0]) && Legal(Apply(s, steps[0]), steps[1..]))
  }

  ghost function Execute(s: State, steps: seq<Step>): State
    requires Legal(s, steps)
    decreases |steps|
  {
    if steps == [] then s else Execute(Apply(s, steps[0]), steps[1..])
  }

  function Initial(now: int, leaseMs: nat): State { State(now, leaseMs, Row(Queued, None, None, 0), [], None) }

  /** From a successful claim to the last statement that could still change the row. */
  predicate Engaged(pc: Pc) { pc.Executing? || pc.Refetching? || pc.Marking? }

  /** Executing under a lease that has not run out. */
  ghost predicate Unexpired(s: State, i: nat) {
    i < |s.deliveries| && s.deliveries[i].pc.Executing? && s.now <= s.deliveries[i].pc.expiresAt
  }

  /** What another delivery must not be doing under the identifier of a claim: executing, or anything engaged. */
  datatype Concern = Leases | Acts

  predicate Busy(concern: Concern, pc: Pc) { if concern.Leases? then pc.Executing? else Engaged(pc) }

  /** No other delivery under the same identifier is busy when delivery i claims. */
  ghost predicate Clean(concern: Concern, s: State, i: nat) {
    i < |s.deliveries|
    && forall j | 0 <= j < |s.deliveries| && j != i && Busy(concern, s.deliveries[j].pc) ::
         s.deliveries[j].worker != s.deliveries[i].worker
  }

  ghost predicate AllClean(concern: Concern, s: State, steps: seq<Step>)
    requires Legal(s, steps)
    decreases |steps|
  {
    steps == [] ||
    (&& (steps[0].Claim? && ClaimSucceeds(s, steps[0].i) ==> Clean(concern, s, steps[0].i))
     && AllClean(concern, Apply(s, steps[0]), steps[1..]))
  }

  // ---- the invariant of clean runs ----

  /** The row is held by the last claimant, under its identifier and its lease. */
  ghost predicate HeldByLast(concern: Concern, s: State) {
    && (s.lastClaim.Some? ==> s.lastClaim.value < |s.deliveries|)
    && (s.row.status == Running ==>
          && s.lastClaim.Some? && s.row.worker == Some(s.deliveries[s.lastClaim.value].worker)
          && (s.deliveries[s.lastClaim.value].pc.Executing? ==>
                s.row.leaseExpiresAt == Some(s.deliveries[s.lastClaim.value].pc.expiresAt)))
    && (s.row.status == Queued && s.lastClaim.Some? ==> !Busy(concern, s.deliveries[s.lastClaim.value].pc))
  }

  /** Whoever is still busy without being the last claimant has another identifier and an expired lease. */
  ghost predicate OthersExpired(concern: Concern, s: State) {
    forall i | 0 <= i < |s.deliveries| && Busy(concern, s.deliveries[i].pc) && s.lastClaim != Some(i) ::
      && s.lastClaim.Some? && s.lastClaim.value < |s.deliveries|
      && s.deliveries[i].worker != s.deliveries[s.lastClaim.value].worker
      && (s.deliveries[i].pc.Executing? ==> s.deliveries[i].pc.expiresAt < s.now)
  }

  ghost predicate ClocksBehind(s: State) {
    forall i | 0 <= i < |s.deliveries| && s.deliveries[i].pc.Claiming? :: s.deliveries[i].pc.now <= s.now
  }

  ghost predicate Inv(concern: Concern, s: State) {
    HeldByLast(concern, s) && OthersExpired(concern, s) && ClocksBehind(s)
  }

  lemma ClaimKeeps(concern: Concern, s: State, i: nat)
    requires Inv(concern, s) && Enabled(s, Claim(i)) && (ClaimSucceeds(s, i) ==> Clean(concern, s, i))
    ensures Inv(concern, Apply(s, Claim(i)))
  {}

  lemma RenewKeeps(concern: Concern, s: State, i: nat, at: int)
    requires Inv(concern, s) && Enabled(s, Renew(i, at))
    ensures Inv(concern, Apply(s, Renew(i, at)))
  {}

  /** A delivery moves on without becoming busy, and the row stays. */
  lemma GotoKeeps(concern: Concern, s: State, i: nat, pc: Pc)
    requires Inv(concern, s) && i < |s.deliveries| && (pc.Claiming? ==> pc.now <= s.now)
    requires !pc.Executing? && (Engaged(pc) ==> Engaged(s.deliveries[i].pc))
    ensures Inv(concern, Goto(s, i, pc))
  {}

  /** The row stops running at the hands of a delivery that is done with it. */
  lemma ReleaseKeeps(concern: Concern, s: State, i: nat, row: Row)
    requires Inv(concern, s) && i < |s.deliveries| && row.status != Running
    requires if Terminal(row.status) then Engaged(s.deliveries[i].pc) else s.deliveries[i].pc.Executing?
    ensures Inv(concern, Goto(Update(s, i, row), i, Done))
  {}

  lemma TickKeeps(concern: Concern, s: State, now: int)
    requires Inv(concern, s) && s.now <= now
    ensures Inv(concern, s.(now := now))
  {}

  lemma DeliverKeeps(concern: Concern, s: State, worker: Worker)
    requires Inv(concern, s)
    ensures Inv(concern, s.(deliveries := s.deliveries + [Delivery(worker, Reading)]))
  {}

  lemma CancelKeeps(concern: Concern, s: State, status: Status)
    requires Inv(concern, s) && Terminal(status)
    ensures Inv(concern, s.(row := s.row.(status := status, leaseExpiresAt := None)))
  {}

  lemma ApplyKeeps(concern: Concern, s: State, step: Step)
    requires Inv(concern, s) && Enabled(s, step)
    requires step.Claim? && ClaimSucceeds(s, step.i) ==> Clean(concern, s, step.i)
    ensures Inv(concern, Apply(s, step))
  {
    hide Goto, Update, HeldByLast, OthersExpired, ClocksBehind;
    match step
    case Tick(now) => TickKeeps(concern, s, now);
    case Deliver(worker) => DeliverKeeps(concern, s, worker);
    case Read(i) => GotoKeeps(concern, s, i, if Terminal(s.row.status) then Done else Preparing);
    case Postpone(i) => GotoKeeps(concern, s, i, Done);
    case ReadClock(i) => GotoKeeps(concern, s, i, Claiming(s.now));
    case Claim(i) => ClaimKeeps(concern, s, i);
    case Renew(i, at) => RenewKeeps(concern, s, i, at);
    case Complete(i) => GotoKeeps(concern, s, i, Refetching);
    case MarkRetry(i) => ReleaseKeeps(concern, s, i, s.row.(status := Queued, worker := None, leaseExpiresAt := None));
    case MarkFailed(i) => ReleaseKeeps(concern, s, i, s.row.(status := Failed, leaseExpiresAt := None));
    case Refetch(i) => GotoKeeps(concern, s, i, if Owned(s.row, s.deliveries[i].worker) then Marking else Done);
    case MarkSucceeded(i) => ReleaseKeeps(concern, s, i, s.row.(status := Succeeded, leaseExpiresAt := None));
    case Crash(i) => GotoKeeps(concern, s, i, Done);
    case Cancel(status) => CancelKeeps(concern, s, status);
  }

  lemma {:induction false} ExecuteKeeps(concern: Concern, s: State, steps: seq<Step>)
    requires Inv(concern, s) && Legal(s, steps) && AllClean(concern, s, steps)
    ensures Inv(concern, Execute(s, steps))
    decreases |steps|
  {
    hide Inv, Apply;
    if steps != [] {
      ApplyKeeps(concern, s, steps[0]);
      ExecuteKeeps(concern, Apply(s, steps[0]), steps[1..]);
    }
  }

  // ---- leases ----

  ghost predicate OneUnexpired(s: State) { forall i, j | Unexpired(s, i) && Unexpired(s, j) :: i == j }

  /** While no claim succeeds beside an executing delivery of its identifier, one lease at most is unexpired. */
  lemma OneUnexpiredClaimant(now: int, leaseMs: nat, steps: seq<Step>)
    requires Legal(Initial(now, leaseMs), steps) && AllClean(Leases, Initial(now, leaseMs), steps)
    ensures OneUnexpired(Execute(Initial(now, leaseMs), steps))
  {
    ExecuteKeeps(Leases, Initial(now, leaseMs), steps);
  }

  ghost predicate NoClaims(steps: seq<Step>) { forall i | 0 <= i < |steps| :: !steps[i].Claim? }

  lemma {:induction false} NoClaimsIsClean(concern: Concern, s: State, steps: seq<Step>)
    requires Legal(s, steps) && NoClaims(steps)
    ensures AllClean(concern, s, steps)
    decreases |steps|
  {
    hide Apply;
    if steps != [] {
      assert NoClaims(steps[1..]) by { assert forall i | 0 <= i < |steps| - 1 :: steps[1..][i] == steps[i + 1]; }
      NoClaimsIsClean(concern, Apply(s, steps[0]), steps[1..]);
    }
  }

  lemma StepBefore(s: State, step: Step, rest: seq<Step>)
    requires Enabled(s, step) && Legal(Apply(s, step), rest)
    ensures Legal(s, [step] + rest) && Execute(s, [step] + rest) == Execute(Apply(s, step), rest)
  {
    hide Apply;
    assert ([step] + rest)[1..] == rest;
  }

  lemma Nothing(s: State)
    ensures Legal(s, []) && Execute(s, []) == s
  {}

  lemma OneStep(s: State, step: Step)
    requires Enabled(s, step)
    ensures Legal(s, [step]) && Execute(s, [step]) == Apply(s, step)
  {
    hide Apply, Enabled;
    Nothing(Apply(s, step));
    StepBefore(s, step, []);
    assert [step] + [] == [step];
  }

  /** From a clean claim on, as long as nobody else claims, one lease at most is unexpired. */
  lemma CleanClaimIsSafe(s: State, i: nat, later: seq<Step>)
    requires Inv(Leases, s) && ClaimSucceeds(s, i) && Clean(Leases, s, i)
    requires Legal(Apply(s, Claim(i)), later) && NoClaims(later)
    ensures OneUnexpired(Execute(Apply(s, Claim(i)), later))
  {
    ClaimKeeps(Leases, s, i);
    NoClaimsIsClean(Leases, Apply(s, Claim(i)), later);
    ExecuteKeeps(Leases, Apply(s, Claim(i)), later);
  }

  /** A claim beside an executing delivery of its identifier: two renewals and both leases are unexpired. */
  lemma UncleanClaimBreaks(s: State, i: nat, j: nat) returns (later: seq<Step>)
    requires ClaimSucceeds(s, i) && j < |s.deliveries| && j != i
    requires s.deliveries[j].pc.Executing? && s.deliveries[j].worker == s.deliveries[i].worker
    ensures Legal(Apply(s, Claim(i)), later) && NoClaims(later)
    ensures !OneUnexpired(Execute(Apply(s, Claim(i)), later))
  {
    var t := Apply(s, Claim(i));
    assert t.deliveries[j] == s.deliveries[j] && Owned(t.row, t.deliveries[i].worker) && t.now == s.now;
    var first, second := Renew(i, s.now), Renew(j, s.now);
    assert Enabled(t, first);
    var u := Apply(t, first);
    assert u.deliveries[j] == s.deliveries[j] && Owned(u.row, u.deliveries[j].worker);
    assert Enabled(u, second);
    var v := Apply(u, second);
    assert v.deliveries[i] == u.deliveries[i] && Unexpired(v, i) && Unexpired(v, j);
    OneStep(u, second);
    StepBefore(t, first, [second]);
    later := [first] + [second];
  }

  /**
   * The exact condition for leases. When a claim succeeds after a clean run, one lease at most stays unexpired in every
   * continuation without another claim if and only if no other delivery of its identifier is executing.
   */
  lemma LeasesSafeIffClean(now: int, leaseMs: nat, steps: seq<Step>, i: nat)
    requires Legal(Initial(now, leaseMs), steps) && AllClean(Leases, Initial(now, leaseMs), steps)
    requires ClaimSucceeds(Execute(Initial(now, leaseMs), steps), i)
    ensures var s := Execute(Initial(now, leaseMs), steps);
      Clean(Leases, s, i) <==> forall later | Legal(Apply(s, Claim(i)), later) && NoClaims(later) ::
                             OneUnexpired(Execute(Apply(s, Claim(i)), later))
  {
    var s := Execute(Initial(now, leaseMs), steps);
    ExecuteKeeps(Leases, Initial(now, leaseMs), steps);
    if Clean(Leases, s, i) {
      forall later | Legal(Apply(s, Claim(i)), later) && NoClaims(later)
        ensures OneUnexpired(Execute(Apply(s, Claim(i)), later))
      {
        CleanClaimIsSafe(s, i, later);
      }
    } else {
      var j :| 0 <= j < |s.deliveries| && j != i && s.deliveries[j].pc.Executing?
          && s.deliveries[j].worker == s.deliveries[i].worker;
      var later := UncleanClaimBreaks(s, i, j);
    }
  }

  // ---- acting on the row ----

  /** The statement a step runs against the row finds the row in its delivery's hands. */
  ghost predicate Effective(s: State, step: Step) {
    (step.Renew? || step.MarkRetry? || step.MarkFailed? || step.MarkSucceeded?)
    && step.i < |s.deliveries| && Owned(s.row, s.deliveries[step.i].worker)
  }

  /** Whatever takes effect on the row is done by the last claimant. */
  ghost predicate OnlyLastActs(s: State) {
    forall step | Enabled(s, step) && Effective(s, step) :: s.lastClaim == Some(step.i)
  }

  lemma InvMeansOnlyLastActs(s: State)
    requires Inv(Acts, s)
    ensures OnlyLastActs(s)
  {}

  /**
   * While no claim succeeds beside an engaged delivery of its identifier, only the last claimant renews,
   * retries, fails or completes the job: a worker that lost the job does not mark it succeeded.
   */
  lemma OnlyTheLastClaimantActs(now: int, leaseMs: nat, steps: seq<Step>)
    requires Legal(Initial(now, leaseMs), steps) && AllClean(Acts, Initial(now, leaseMs), steps)
    ensures OnlyLastActs(Execute(Initial(now, leaseMs), steps))
  {
    ExecuteKeeps(Acts, Initial(now, leaseMs), steps);
    InvMeansOnlyLastActs(Execute(Initial(now, leaseMs), steps));
  }

  /** A claim beside an engaged delivery of its identifier: that delivery's next statement takes effect. */
  lemma UncleanClaimActs(s: State, i: nat, j: nat) returns (later: seq<Step>)
    requires ClaimSucceeds(s, i) && j < |s.deliveries| && j != i
    requires Engaged(s.deliveries[j].pc) && s.deliveries[j].worker == s.deliveries[i].worker
    ensures Legal(Apply(s, Claim(i)), later) && NoClaims(later)
    ensures !OnlyLastActs(Execute(Apply(s, Claim(i)), later))
  {
    var t := Apply(s, Claim(i));
    assert t.deliveries[j] == s.deliveries[j] && Owned(t.row, t.deliveries[j].worker) && t.lastClaim == Some(i);
    if t.deliveries[j].pc.Refetching? {
      OneStep(t, Refetch(j));
      later := [Refetch(j)];
      var u := Apply(t, Refetch(j));
      assert u.deliveries[j].worker == t.deliveries[j].worker;
      assert Enabled(u, MarkSucceeded(j)) && Effective(u, MarkSucceeded(j));
    } else {
      Nothing(t);
      later := [];
      if t.deliveries[j].pc.Executing? {
        assert Enabled(t, MarkFailed(j)) && Effective(t, MarkFailed(j));
      } else {
        assert Enabled(t, MarkSucceeded(j)) && Effective(t, MarkSucceeded(j));
      }
    }
  }

  lemma CleanClaimActsAlone(s: State, i: nat, later: seq<Step>)
    requires Inv(Acts, s) && ClaimSucceeds(s, i) && Clean(Acts, s, i)
    requires Legal(Apply(s, Claim(i)), later) && NoClaims(later)
    ensures OnlyLastActs(Execute(Apply(s, Claim(i)), later))
  {
    ClaimKeeps(Acts, s, i);
    NoClaimsIsClean(Acts, Apply(s, Claim(i)), later);
    ExecuteKeeps(Acts, Apply(s, Claim(i)), later);
    InvMeansOnlyLastActs(Execute(Apply(s, Claim(i)), later));
  }

  /**
   * The exact condition for acting. When a claim succeeds after a clean run, only the last claimant acts in every
   * continuation without another claim if and only if no other delivery of its identifier is engaged.
   */
  lemma ActsSafeIffClean(now: int, leaseMs: nat, steps: seq<Step>, i: nat)
    requires Legal(Initial(now, leaseMs), steps) && AllClean(Acts, Initial(now, leaseMs), steps)
    requires ClaimSucceeds(Execute(Initial(now, leaseMs), steps), i)
    ensures var s := Execute(Initial(now, leaseMs), steps);
      Clean(Acts, s, i) <==> forall later | Legal(Apply(s, Claim(i)), later) && NoClaims(later) ::
                             OnlyLastActs(Execute(Apply(s, Claim(i)), later))
  {
    var s := Execute(Initial(now, leaseMs), steps);
    ExecuteKeeps(Acts, Initial(now, leaseMs), steps);
    if Clean(Acts, s, i) {
      forall later | Legal(Apply(s, Claim(i)), later) && NoClaims(later)
        ensures OnlyLastActs(Execute(Apply(s, Claim(i)), later))
      {
        CleanClaimActsAlone(s, i, later);
      }
    } else {
      var j :| 0 <= j < |s.deliveries| && j != i && Engaged(s.deliveries[j].pc)
          && s.deliveries[j].worker == s.deliveries[i].worker;
      var later := UncleanClaimActs(s, i, j);
    }
  }

  // ---- identifiers ----

  lemma ApplyKeepsWorkers(s: State, step: Step)
    requires Enabled(s, step)
    ensures |s.deliveries| <= |Apply(s, step).deliveries|
    ensures forall i | 0 <= i < |s.deliveries| :: Apply(s, step).deliveries[i].worker == s.deliveries[i].worker
  {}

  lemma {:induction false} WorkersStay(s: State, steps: seq<Step>)
    requires Legal(s, steps)
    ensures |s.deliveries| <= |Execute(s, steps).deliveries|
    ensures forall i | 0 <= i < |s.deliveries| :: Execute(s, steps).deliveries[i].worker == s.deliveries[i].worker
    decreases |steps|
  {
    hide Apply, Enabled;
    if steps != [] {
      ApplyKeepsWorkers(s, steps[0]);
      WorkersStay(Apply(s, steps[0]), steps[1..]);
    }
  }

  /** A run is clean in both senses whenever no two of its deliveries came under the same identifier. */
  lemma {:induction false} DistinctIdentifiersAreClean(concern: Concern, s: State, steps: seq<Step>)
    requires Legal(s, steps)
    requires forall i, j | 0 <= i < j < |Execute(s, steps).deliveries| ::
               Execute(s, steps).deliveries[i].worker != Execute(s, steps).deliveries[j].worker
    ensures AllClean(concern, s, steps)
    decreases |steps|
  {
    hide Apply, Enabled;
    if steps != [] {
      WorkersStay(s, steps);
      DistinctIdentifiersAreClean(concern, Apply(s, steps[0]), steps[1..]);
    }
  }

  // ---- unclean claims are reached ----

  lemma {:induction false} ExecuteConcat(s: State, a: seq<Step>, b: seq<Step>)
    requires Legal(s, a) && Legal(Execute(s, a), b)
    ensures Legal(s, a + b) && Execute(s, a + b) == Execute(Execute(s, a), b)
    decreases |a|
  {
    hide Apply, Enabled;
    if a == [] {
      assert a + b == b;
    } else {
      assert (a + b)[1..] == a[1..] + b;
      ExecuteConcat(Apply(s, a[0]), a[1..], b);
    }
  }

  /** The first delivery of a job claims it. */
  lemma FirstClaims(worker: Worker, leaseMs: nat) returns (steps: seq<Step>)
    ensures Legal(Initial(0, leaseMs), steps)
    ensures Execute(Initial(0, leaseMs), steps)
         == State(0, leaseMs, Row(Running, Some(worker), Some(leaseMs), 1),
                  [Delivery(worker, Executing(leaseMs))], Some(0))
  {
    hide Execute, Legal;
    var s0 := Initial(0, leaseMs);
    var s1 := Apply(s0, Deliver(worker));
    var s2 := Apply(s1, Read(0));
    var s3 := Apply(s2, ReadClock(0));
    var s4 := Apply(s3, Claim(0));
    assert s4.deliveries == [Delivery(worker, Executing(leaseMs))];
    OneStep(s3, Claim(0));
    StepBefore(s2, ReadClock(0), [Claim(0)]);
    StepBefore(s1, Read(0), [ReadClock(0)] + [Claim(0)]);
    StepBefore(s0, Deliver(worker), [Read(0)] + ([ReadClock(0)] + [Claim(0)]));
    steps := [Deliver(worker)] + ([Read(0)] + ([ReadClock(0)] + [Claim(0)]));
  }

  /** A second delivery in the same process gets as far as its claim once the lease has run out. */
  lemma SecondArrives(s: State, worker: Worker) returns (steps: seq<Step>)
    requires s.row.status == Running && s.row.leaseExpiresAt.Some? && s.now <= s.row.leaseExpiresAt.value
    requires |s.deliveries| == 1
    ensures Legal(s, steps)
    ensures var t := Execute(s, steps);
      && t.row == s.row && t.lastClaim == s.lastClaim && t.leaseMs == s.leaseMs
      && t.deliveries == [s.deliveries[0], Delivery(worker, Claiming(t.now))] && s.row.leaseExpiresAt.value < t.now
  {
    hide Execute, Legal;
    var later := s.row.leaseExpiresAt.value + 1;
    var s1 := Apply(s, Tick(later));
    var s2 := Apply(s1, Deliver(worker));
    var s3 := Apply(s2, Read(1));
    var s4 := Apply(s3, ReadClock(1));
    assert s4.deliveries == [s.deliveries[0], Delivery(worker, Claiming(later))];
    OneStep(s3, ReadClock(1));
    StepBefore(s2, Read(1), [ReadClock(1)]);
    StepBefore(s1, Deliver(worker), [Read(1)] + [ReadClock(1)]);
    StepBefore(s, Tick(later), [Deliver(worker)] + ([Read(1)] + [ReadClock(1)]));
    steps := [Tick(later)] + ([Deliver(worker)] + ([Read(1)] + [ReadClock(1)]));
  }

  /** One process gets the job twice; the first delivery is still executing when the second one claims. */
  lemma UncleanClaimHappens(worker: Worker, leaseMs: nat) returns (steps: seq<Step>)
    ensures Legal(Initial(0, leaseMs), steps)
    ensures var s := Execute(Initial(0, leaseMs), steps);
      ClaimSucceeds(s, 1) && s.deliveries[0].pc.Executing? && s.deliveries[0].worker == s.deliveries[1].worker
  {
    hide Execute, Legal;
    var first := FirstClaims(worker, leaseMs);
    var s := Execute(Initial(0, leaseMs), first);
    var second := SecondArrives(s, worker);
    ExecuteConcat(Initial(0, leaseMs), first, second);
    steps := first + second;
  }

  /**
   * The same with the first delivery about to mark success: it marks the job succeeded while the second
   * one, which holds it now, is executing.
   */
  lemma LateMarkHappens(worker: Worker, leaseMs: nat) returns (steps: seq<Step>)
    ensures Legal(Initial(0, leaseMs), steps)
    ensures var s := Execute(Initial(0, leaseMs), steps);
      s.row.status == Succeeded && s.lastClaim == Some(1) && |s.deliveries| == 2 && s.deliveries[1].pc.Executing?
  {
    hide Execute, Legal;
    var first := FirstClaims(worker, leaseMs);
    var s := Execute(Initial(0, leaseMs), first);
    var completed := Apply(s, Complete(0));
    var marking := Apply(completed, Refetch(0));
    OneStep(completed, Refetch(0));
    StepBefore(s, Complete(0), [Refetch(0)]);
    var second := SecondArrives(marking, worker);
    var t := Execute(marking, second);
    var claimed := Apply(t, Claim(1));
    OneStep(claimed, MarkSucceeded(0));
    StepBefore(t, Claim(1), [MarkSucceeded(0)]);
    ExecuteConcat(marking, second, [Claim(1)] + [MarkSucceeded(0)]);
    var finish := [Complete(0)] + [Refetch(0)];
    ExecuteConcat(s, finish, second + ([Claim(1)] + [MarkSucceeded(0)]));
    ExecuteConcat(Initial(0, leaseMs), first, finish + (second + ([Claim(1)] + [MarkSucceeded(0)])));
    steps := first + (finish + (second + ([Claim(1)] + [MarkSucceeded(0)])));
  }

  // ---- terminal jobs ----

  lemma TerminalStep(s: State, step: Step)
    requires Enabled(s, step) && Terminal(s.row.status)
    ensures Apply(s, step).row == s.row && Apply(s, step).lastClaim == s.lastClaim
    ensures forall i | 0 <= i < |Apply(s, step).deliveries| && Apply(s, step).deliveries[i].pc.Executing? ::
              i < |s.deliveries| && s.deliveries[i].pc.Executing?
  {}

  /** From any state on: a terminal row never changes again, and no delivery starts executing any more. */
  lemma {:induction false} TerminalForever(s: State, steps: seq<Step>)
    requires Legal(s, steps) && Terminal(s.row.status)
    ensures Execute(s, steps).row == s.row && Execute(s, steps).lastClaim == s.lastClaim
    ensures forall i | 0 <= i < |Execute(s, steps).deliveries| && Execute(s, steps).deliveries[i].pc.Executing? ::
              i < |s.deliveries| && s.deliveries[i].pc.Executing?
    decreases |steps|
  {
    hide Apply;
    if steps != [] {
      TerminalStep(s, steps[0]);
      TerminalForever(Apply(s, steps[0]), steps[1..]);
    }
  }

  // ---- what the row records ----

  /** The step leaves this status in the row: a claim, an outcome by an owner of the row, or the operator. */
  ghost predicate Makes(s: State, step: Step, status: Status) {
    match status
    case Queued => step.MarkRetry? && Effective(s, step)
    case Running => step.Claim? && ClaimSucceeds(s, step.i)
    case Succeeded => (step.MarkSucceeded? && Effective(s, step)) || step == Cancel(Succeeded)
    case Failed => (step.MarkFailed? && Effective(s, step)) || step == Cancel(Failed)
    case DeadLettered => step == Cancel(DeadLettered)
    case Cancelled => step == Cancel(Cancelled)
  }

  /** No other step changes the status; claims alone raise the attempt, claims and retries alone change the worker. */
  lemma RowRecords(s: State, step: Step)
    requires Enabled(s, step)
    ensures var row := Apply(s, step).row;
      && (forall status | Makes(s, step, status) :: row.status == status)
      && ((forall status :: !Makes(s, step, status)) ==> row.status == s.row.status)
      && row.attempt == s.row.attempt + (if Makes(s, step, Running) then 1 else 0)
      && row.worker == (if Makes(s, step, Running) then Some(s.deliveries[step.i].worker)
                        else if Makes(s, step, Queued) then None else s.row.worker)
  {
    assert Makes(s, step, Apply(s, step).row.status) || Apply(s, step).row.status == s.row.status;
  }

  /** A claim and a renewal lease the row for leaseMs from the clock they read; any other status has no lease. */
  lemma RowIsLeased(s: State, step: Step)
    requires Enabled(s, step)
    ensures var lease := Apply(s, step).row.leaseExpiresAt;
      && (Makes(s, step, Running) ==> lease == Some(s.deliveries[step.i].pc.now + s.leaseMs))
      && (step.Renew? && Effective(s, step) ==> lease == Some(step.at + s.leaseMs))
      && (forall status | Makes(s, step, status) && status != Running :: lease == None)
      && ((forall status :: !Makes(s, step, status)) && !(step.Renew? && Effective(s, step)) ==>
            lease == s.row.leaseExpiresAt)
  {
    assert Makes(s, step, Apply(s, step).row.status) || Apply(s, step).row == s.row || step.Renew?;
  }

  /** The state step k of a run finds. */
  ghost function Before(s: State, steps: seq<Step>, k: nat): (found: State)
    requires Legal(s, steps) && k < |steps|
    ensures Enabled(found, steps[k])
    decreases |steps|
  {
    if k == 0 then s else Before(Apply(s, steps[0]), steps[1..], k - 1)
  }

  ghost predicate MadeAt(s: State, steps: seq<Step>, k: nat, status: Status)
    requires Legal(s, steps)
  {
    k < |steps| && Makes(Before(s, steps, k), steps[k], status)
  }

  ghost predicate NothingMade(s: State, steps: seq<Step>, from: nat)
    requires Legal(s, steps)
  {
    forall j: nat, status | from <= j :: !MadeAt(s, steps, j, status)
  }

  ghost predicate LastMade(s: State, steps: seq<Step>, k: nat, status: Status)
    requires Legal(s, steps)
  {
    MadeAt(s, steps, k, status) && NothingMade(s, steps, k + 1)
  }

  /** Steps of a run seen from its second state. */
  lemma OneStepLater(s: State, steps: seq<Step>)
    requires Legal(s, steps) && steps != []
    ensures var s', rest := Apply(s, steps[0]), steps[1..];
      && (forall k: nat, status :: MadeAt(s, steps, k + 1, status) == MadeAt(s', rest, k, status))
      && (forall status :: MadeAt(s, steps, 0, status) == Makes(s, steps[0], status))
      && (forall k: nat :: NothingMade(s, steps, k + 1) == NothingMade(s', rest, k))
  {
    hide Makes, Apply, Enabled;
    var s', rest := Apply(s, steps[0]), steps[1..];
    assert forall k: nat, status :: MadeAt(s, steps, k + 1, status) == MadeAt(s', rest, k, status);
    forall k: nat ensures NothingMade(s, steps, k + 1) == NothingMade(s', rest, k) {
      if NothingMade(s, steps, k + 1) {
        forall j: nat, status | k <= j ensures !MadeAt(s', rest, j, status) {
          assert !MadeAt(s, steps, j + 1, status);
        }
      }
      if NothingMade(s', rest, k) {
        forall j: nat, status | k + 1 <= j ensures !MadeAt(s, steps, j, status) {
          assert MadeAt(s, steps, (j - 1) + 1, status) == MadeAt(s', rest, j - 1, status);
        }
      }
    }
  }

  /**
   * Over every run: the row has a status if and only if that is the one last left in it by a claim, by an
   * outcome of a delivery whose identifier owned the row, or by the operator.
   */
  lemma {:induction false} StatusIsLastMade(s: State, steps: seq<Step>, status: Status)
    requires Legal(s, steps)
    ensures Execute(s, steps).row.status == status
       <==> (exists k: nat :: LastMade(s, steps, k, status)) || (s.row.status == status && NothingMade(s, steps, 0))
    decreases |steps|
  {
    if steps != [] {
      hide Makes, Apply, Enabled, MadeAt, NothingMade;
      var s', rest := Apply(s, steps[0]), steps[1..];
      StatusIsLastMade(s', rest, status);
      RowRecords(s, steps[0]);
      OneStepLater(s, steps);
      NothingAtAll(s, steps);
      if k: nat :| LastMade(s', rest, k, status) { assert LastMade(s, steps, k + 1, status); }
      if k: nat :| LastMade(s, steps, k, status) {
        if k > 0 { assert LastMade(s', rest, k - 1, status); }
      }
      assert NothingMade(s', rest, 0) && Makes(s, steps[0], status) ==> LastMade(s, steps, 0, status);
    }
  }

  lemma NothingAtAll(s: State, steps: seq<Step>)
    requires Legal(s, steps) && steps != []
    ensures NothingMade(s, steps, 0)
       <==> (forall status :: !MadeAt(s, steps, 0, status)) && NothingMade(s, steps, 1)
  {
    hide MadeAt;
  }

  lemma {:induction false} TerminalMadeStays(s: State, steps: seq<Step>, k: nat, status: Status)
    requires Legal(s, steps) && Terminal(status) && MadeAt(s, steps, k, status)
    ensures Execute(s, steps).row.status == status
    decreases |steps|
  {
    hide Makes, Apply, Enabled;
    if k == 0 {
      RowRecords(s, steps[0]);
      TerminalForever(Apply(s, steps[0]), steps[1..]);
    } else {
      TerminalMadeStays(Apply(s, steps[0]), steps[1..], k - 1, status);
    }
  }

  /**
   * Over every run of a job: it ends succeeded if and only if a delivery whose identifier owned the row
   * marked it so, or the operator did, at some point; and alike for every other terminal status.
   */
  lemma TerminalIffMade(now: int, leaseMs: nat, steps: seq<Step>, status: Status)
    requires Legal(Initial(now, leaseMs), steps) && Terminal(status)
    ensures Execute(Initial(now, leaseMs), steps).row.status == status
       <==> exists k: nat :: MadeAt(Initial(now, leaseMs), steps, k, status)
  {
    hide MadeAt, NothingMade;
    var s := Initial(now, leaseMs);
    StatusIsLastMade(s, steps, status);
    if k: nat :| MadeAt(s, steps, k, status) { TerminalMadeStays(s, steps, k, status); }
  }

  /** How many claims of a run succeed. */
  ghost function ClaimsMade(s: State, steps: seq<Step>): nat
    requires Legal(s, steps)
    decreases |steps|
  {
    if steps == [] then 0
    else (if Makes(s, steps[0], Running) then 1 else 0) + ClaimsMade(Apply(s, steps[0]), steps[1..])
  }

  /** The attempt of a job counts its successful claims and nothing else. */
  lemma {:induction false} AttemptCountsClaims(s: State, steps: seq<Step>)
    requires Legal(s, steps)
    ensures Execute(s, steps).row.attempt == s.row.attempt + ClaimsMade(s, steps)
    decreases |steps|
  {
    if steps != [] {
      hide Makes, Apply, Enabled;
      RowRecords(s, steps[0]);
      AttemptCountsClaims(Apply(s, steps[0]), steps[1..]);
    }
  }

  function Stage(pc: Pc): nat {
    match pc
    case Reading => 0
    case Preparing => 1
    case Claiming(_) => 2
    case Executing(_) => 3
    case Refetching => 4
    case Marking => 5
    case Done => 6
  }

  ghost predicate Moves(step: Step, i: nat) {
    !step.Tick? && !step.Deliver? && !step.Cancel? && !step.Renew? && step.i == i
  }

  /** A delivery's own steps, renewals aside, take it further and end after six; no other step moves it. */
  lemma DeliveryAdvances(s: State, step: Step, i: nat)
    requires Enabled(s, step) && i < |s.deliveries|
    ensures var before, after := s.deliveries[i].pc, Apply(s, step).deliveries[i].pc;
      && (Moves(step, i) ==> Stage(after) > Stage(before) || after.Done?)
      && (!Moves(step, i) ==> Stage(after) == Stage(before))
      && (step in {MarkRetry(i), MarkFailed(i), MarkSucceeded(i), Postpone(i)} ==> after.Done?)
  {}

  // ---- the same steps on a mutable row ----

  /** What holds in every run, clean or not: a running row names the last claimant's worker and has a lease. */
  ghost predicate RowSound(s: State) {
    && ClocksBehind(s) && (s.lastClaim.Some? ==> s.lastClaim.value < |s.deliveries|)
    && (s.row.status == Running <==> s.row.leaseExpiresAt.Some?)
    && (s.row.status == Running ==> s.lastClaim.Some? && s.row.worker == Some(s.deliveries[s.lastClaim.value].worker))
  }

  lemma ApplyKeepsRowSound(s: State, step: Step)
    requires RowSound(s) && Enabled(s, step)
    ensures RowSound(Apply(s, step))
  {}

  class SyncProcessor {
    var now: int
    const leaseMs: nat
    var row: Row
    var deliveries: seq<Delivery>
    ghost var lastClaim: Option<nat>

    ghost function View(): State
      reads this
    {
      State(now, leaseMs, row, deliveries, lastClaim)
    }

    ghost predicate Valid()
      reads this
    {
      RowSound(View())
    }

    constructor (now: int, leaseMs: nat)
      ensures Valid() && View() == Initial(now, leaseMs)
    {
      this.now, this.leaseMs, row, deliveries, lastClaim := now, leaseMs, Row(Queued, None, None, 0), [], None;
    }

    method MoveTo(i: nat, pc: Pc)
      requires i < |deliveries|
      modifies this`deliveries
      ensures View() == Goto(old(View()), i, pc)
    {
      deliveries := deliveries[i := deliveries[i].(pc := pc)];
    }

    /** Reads the row and gives up on a terminal job. */
    method ReadJob(i: nat)
      requires Valid() && Enabled(View(), Read(i))
      modifies this`deliveries
      ensures Valid() && View() == Apply(old(View()), Read(i))
      ensures row == old(row)
      ensures deliveries[i].pc
           == if old(row.status) in {Succeeded, Failed, DeadLettered, Cancelled} then Done else Preparing
    {
      hide RowSound;
      ApplyKeepsRowSound(View(), Read(i));
      if row.status == Succeeded || row.status == Failed || row.status == DeadLettered || row.status == Cancelled {
        MoveTo(i, Done);
      } else {
        MoveTo(i, Preparing);
      }
    }

    /** `claimExecution` and what the processor makes of its answer. */
    method ClaimExecution(i: nat) returns (claimed: bool)
      requires Valid() && Enabled(View(), Claim(i))
      modifies this
      ensures Valid() && View() == Apply(old(View()), Claim(i))
      ensures claimed <==> old(ClaimSucceeds(View(), i))
      ensures claimed ==>
        var expiresAt := old(deliveries[i].pc.now) + leaseMs;
        && row == Row(Running, Some(old(deliveries[i].worker)), Some(expiresAt), old(row.attempt) + 1)
        && deliveries == old(deliveries)[i := Delivery(old(deliveries[i].worker), Executing(expiresAt))]
      ensures !claimed ==> row == old(row) && deliveries[i].pc == Done
    {
      hide RowSound;
      ApplyKeepsRowSound(View(), Claim(i));
      var d := deliveries[i];
      claimed := row.status == Queued ||
        (row.status == Running && row.leaseExpiresAt.Some? && row.leaseExpiresAt.value < d.pc.now);
      if !claimed {
        MoveTo(i, Done);
        return;
      }
      var expiresAt := d.pc.now + leaseMs;
      row := Row(Running, Some(d.worker), Some(expiresAt), row.attempt + 1);
      lastClaim := Some(i);
      MoveTo(i, Executing(expiresAt));
    }

    method RenewLease(i: nat, at: int) returns (renewed: bool)
      requires Valid() && Enabled(View(), Renew(i, at))
      modifies this
      ensures Valid() && View() == Apply(old(View()), Renew(i, at))
      ensures renewed <==> old(Owned(row, deliveries[i].worker))
      ensures row == if renewed then old(row).(leaseExpiresAt := Some(at + leaseMs)) else old(row)
      ensures deliveries[i].pc == if renewed then Executing(at + leaseMs) else old(deliveries[i].pc)
    {
      hide RowSound;
      ApplyKeepsRowSound(View(), Renew(i, at));
      renewed := row.worker == Some(deliveries[i].worker) && row.status == Running;
      if renewed {
        row := row.(leaseExpiresAt := Some(at + leaseMs));
        MoveTo(i, Executing(at + leaseMs));
      }
    }

    method MarkRetryJob(i: nat)
      requires Valid() && Enabled(View(), MarkRetry(i))
      modifies this
      ensures Valid() && View() == Apply(old(View()), MarkRetry(i))
      ensures row == if old(row.status == Running && row.worker == Some(deliveries[i].worker))
                     then old(row).(status := Queued, worker := None, leaseExpiresAt := None) else old(row)
      ensures deliveries == old(deliveries)[i := Delivery(old(deliveries[i].worker), Done)]
    {
      hide RowSound;
      ApplyKeepsRowSound(View(), MarkRetry(i));
      if row.worker == Some(deliveries[i].worker) && row.status == Running {
        row := row.(status := Queued, worker := None, leaseExpiresAt := None);
      }
      MoveTo(i, Done);
    }

    method MarkTerminalFailure(i: nat)
      requires Valid() && Enabled(View(), MarkFailed(i))
      modifies this
      ensures Valid() && View() == Apply(old(View()), MarkFailed(i))
      ensures row == if old(row.status == Running && row.worker == Some(deliveries[i].worker))
                     then old(row).(status := Failed, leaseExpiresAt := None) else old(row)
      ensures deliveries == old(deliveries)[i := Delivery(old(deliveries[i].worker), Done)]
    {
      hide RowSound;
      ApplyKeepsRowSound(View(), MarkFailed(i));
      if row.worker == Some(deliveries[i].worker) && row.status == Running {
        row := row.(status := Failed, leaseExpiresAt := None);
      }
      MoveTo(i, Done);
    }

    /** `mapOutcome` on a completed outcome: only a row still running under this identifier is marked. */
    method MapCompleted(i: nat)
      requires Valid() && Enabled(View(), Refetch(i))
      modifies this`deliveries
      ensures Valid() && View() == Apply(old(View()), Refetch(i))
      ensures deliveries[i].pc
           == if row.status == Running && row.worker == Some(old(deliveries[i].worker)) then Marking else Done
    {
      hide RowSound;
      ApplyKeepsRowSound(View(), Refetch(i));
      if row.status == Running && row.worker == Some(deliveries[i].worker) {
        MoveTo(i, Marking);
      } else {
        MoveTo(i, Done);
      }
    }

    method MarkJobSucceeded(i: nat)
      requires Valid() && Enabled(View(), MarkSucceeded(i))
      modifies this
      ensures Valid() && View() == Apply(old(View()), MarkSucceeded(i))
      ensures row == if old(row.status == Running && row.worker == Some(deliveries[i].worker))
                     then old(row).(status := Succeeded, leaseExpiresAt := None) else old(row)
      ensures deliveries == old(deliveries)[i := Delivery(old(deliveries[i].worker), Done)]
    {
      hide RowSound;
      ApplyKeepsRowSound(View(), MarkSucceeded(i));
      if row.worker == Some(deliveries[i].worker) && row.status == Running {
        row := row.(status := Succeeded, leaseExpiresAt := None);
      }
      MoveTo(i, Done);
    }
  }
}
