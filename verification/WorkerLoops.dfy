/**
 * The three polling loops of the worker: the KEV scheduler, the retry reconciler and the outbox relay.
 * A step runs one piece of code from where it was resumed to its next await, so a run is an arbitrary
 * interleaving of start, stop and the loops' continuations. Loops are instances in a list: that there is
 * never a second one is a theorem. Callbacks do not call start or stop synchronously.
 */
module WorkerLoops {
  import opened Wrappers

  datatype Kind = Scheduler(startupDelay: bool) | Reconciler | Relay(closesQueue: bool)

  /** Where a loop instance waits. */
  datatype Pc =
    | StartupDelay        // before the first round
    | Evaluating          // the scheduler's evaluate call
    | Listing             // the reconciler's listDue call
    | Adding(left: nat)   // a redispatch call, with candidates left
    | Executing           // the relay's batch
    | AfterRound          // the round's promise has settled
    | Pausing             // the poll delay
    | Exited

  predicate Calling(pc: Pc) { pc.Evaluating? || pc.Listing? || pc.Adding? || pc.Executing? }

  /** Where a stop call waits: for a loop instance, for the queue to close, or not at all any more. */
  datatype StopPc = AwaitingLoop(loop: nat) | ClosingQueue | Resolved

  datatype Event = CallBegun | StopCalled | QueueCloseBegun

  datatype State = State(
    kind: Kind, running: Option<nat>, stopping: bool, stopped: bool, inFlight: bool,
    loops: seq<Pc>, stops: seq<StopPc>, log: seq<Event>)

  function Initial(kind: Kind): State { State(kind, None, false, false, false, [], [], []) }

  /**
   * Start, stop, a loop resuming, a stop resuming once its loop has ended, the queue having closed. A
   * resumed listing reports its candidates (none when it throws); of the next ones, `skipped` have no
   * valid identifier and are passed over.
   */
  datatype Step =
    | Start
    | Stop
    | Wake(loop: nat, candidates: nat, skipped: nat)
    | ResumeStop(stop: nat)
    | QueueClosed(stop: nat)

  ghost predicate Enabled(s: State, step: Step) {
    match step
    case Start => true
    case Stop => true
    case Wake(i, candidates, skipped) => i < |s.loops| && s.loops[i] != Exited
    case ResumeStop(k) =>
      k < |s.stops| && s.stops[k].AwaitingLoop? && s.stops[k].loop < |s.loops| && s.loops[s.stops[k].loop] == Exited
    case QueueClosed(k) => k < |s.stops| && s.stops[k] == ClosingQueue
  }

  function At(s: State, i: nat, pc: Pc): State
    requires i < |s.loops|
  {
    s.(loops := s.loops[i := pc])
  }

  function Begin(s: State, i: nat, pc: Pc): State
    requires i < |s.loops|
  {
    At(s, i, pc).(log := s.log + [CallBegun])
  }

  /** The body of a round up to its first await. */
  function Round(s: State, i: nat): State
    requires i < |s.loops|
  {
    if s.kind.Relay? then Begin(s, i, Executing)
    else if s.inFlight || s.stopping then At(s, i, AfterRound)
    else Begin(s.(inFlight := true), i, if s.kind.Reconciler? then Listing else Evaluating)
  }

  /** The head of the while loop. The reconciler waits before its round, the others run it at once. */
  function Head(s: State, i: nat): State
    requires i < |s.loops|
  {
    if s.stopping then At(s, i, Exited)
    else if s.kind.Reconciler? then At(s, i, Pausing)
    else Round(s, i)
  }

  /** The reconciler's for loop over the candidates still left. */
  function NextCandidate(s: State, i: nat, left: nat, skipped: nat): State
    requires i < |s.loops|
  {
    if s.stopping || left <= skipped then At(s.(inFlight := false), i, AfterRound)
    else Begin(s, i, Adding(left - skipped - 1))
  }

  function Resume(s: State, i: nat, candidates: nat, skipped: nat): State
    requires i < |s.loops|
  {
    match s.loops[i]
    case StartupDelay => Head(s, i)
    case Evaluating => At(s.(inFlight := false), i, AfterRound)
    case Listing => NextCandidate(s, i, candidates, skipped)
    case Adding(left) => NextCandidate(s, i, left, skipped)
    case Executing => At(s, i, if s.stopping then Exited else Pausing)
    case AfterRound => if s.kind.Reconciler? then Head(s, i) else At(s, i, if s.stopping then Exited else Pausing)
    case Pausing =>
      if !s.kind.Reconciler? then Head(s, i) else if s.stopping then At(s, i, Exited) else Round(s, i)
    case Exited => s
  }

  function StartLoop(s: State): State {
    if s.running.Some? || s.stopping then s
    else
      var added := s.(running := Some(|s.loops|), loops := s.loops + [StartupDelay]);
      if s.kind.Scheduler? && s.kind.startupDelay then added else Head(added, |s.loops|)
  }

  /** What a stop does once no loop is left to wait for. */
  function AfterLoop(s: State): (State, StopPc) {
    if !s.kind.Relay? then (s, Resolved)
    else if s.kind.closesQueue then (s.(log := s.log + [QueueCloseBegun]), ClosingQueue)
    else (s.(stopped := true), Resolved)
  }

  function CallStop(s: State): State {
    if s.kind.Relay? && s.stopped then s.(stops := s.stops + [Resolved])
    else
      var told := s.(stopping := true, log := s.log + [StopCalled]);
      var (next, pc) := if s.running.Some? then (told, AwaitingLoop(s.running.value)) else AfterLoop(told);
      next.(stops := s.stops + [pc])
  }

  ghost function Apply(s: State, step: Step): State
    requires Enabled(s, step)
  {
    match step
    case Start => StartLoop(s)
    case Stop => CallStop(s)
    case Wake(i, candidates, skipped) => Resume(s, i, candidates, skipped)
    case ResumeStop(k) =>
      var (next, pc) := AfterLoop(s.(running := None));
      next.(stops := s.stops[k := pc])
    case QueueClosed(k) => s.(stopped := true, stops := s.stops[k := Resolved])
  }

  ghost predicate Legal(s: State, steps: seq<Step>)
    decreases |steps|
  {
    steps == [] || (Enabled(s, steps[0]) && Legal(Apply(s, steps[0]), steps[1..]))
  }

  ghost function Execute(s: State, steps: seq<Step>): State
    requires Legal(s, steps)
    decreases |steps|
  {
    if steps == [] then s else Execute(Apply(s, steps[0]), steps[1..])
  }

  // ---- the invariant ----

  /** One instance at most; its promise is forgotten only after it has ended and stop was called. */
  ghost predicate OneLoop(s: State) {
    && |s.loops| <= 1
    && (s.running.Some? ==> s.running.value < |s.loops|)
    && (s.running.None? && s.loops != [] ==> s.stopping && s.loops[0] == Exited)
    && (forall i | 0 <= i < |s.loops| :: s.loops[i] == Exited ==> s.stopping)
  }

  /** The flag is up exactly while a scheduler or reconciler call is in flight, and pcs fit their kind. */
  ghost predicate FlagExact(kind: Kind, inFlight: bool, loops: seq<Pc>) {
    && (forall i | 0 <= i < |loops| :: Fits(kind, loops[i]) && (inFlight <==> Calling(loops[i]) && !kind.Relay?))
    && (loops == [] ==> !inFlight)
  }

  predicate Fits(kind: Kind, pc: Pc) {
    match pc
    case StartupDelay => kind.Scheduler?
    case Evaluating => kind.Scheduler?
    case Listing => kind.Reconciler?
    case Adding(_) => kind.Reconciler?
    case Executing => kind.Relay?
    case AfterRound => !kind.Relay?
    case Pausing => true
    case Exited => true
  }

  /** Whoever is past waiting for the loop finds it ended. */
  ghost predicate StopsHonest(s: State) {
    && (s.stopped ==> s.kind.Relay? && s.running.None? && s.stopping)
    && (s.stops != [] ==> s.stopping)
    && (forall k | 0 <= k < |s.stops| && s.stops[k].ClosingQueue? :: s.kind.Relay? && s.kind.closesQueue)
    && (forall k | 0 <= k < |s.stops| && s.stops[k].AwaitingLoop? :: s.stops[k].loop < |s.loops|)
    && (forall k | 0 <= k < |s.stops| && !s.stops[k].AwaitingLoop? :: s.running.None?)
  }

  /** No call begins after stop was called, and the queue starts closing only after that. */
  predicate Quiet(log: seq<Event>, stopping: bool) {
    if log == [] then !stopping
    else
      var rest := log[..|log| - 1];
      match log[|log| - 1]
      case CallBegun => !stopping && Quiet(rest, false)
      case StopCalled => stopping && (Quiet(rest, true) || Quiet(rest, false))
      case QueueCloseBegun => stopping && Quiet(rest, true)
  }

  ghost predicate Inv(s: State) {
    OneLoop(s) && FlagExact(s.kind, s.inFlight, s.loops) && StopsHonest(s) && Quiet(s.log, s.stopping)
  }

  lemma QuietCall(log: seq<Event>)
    requires Quiet(log, false)
    ensures Quiet(log + [CallBegun], false)
  {
    assert (log + [CallBegun])[..|log|] == log;
  }

  lemma QuietStop(log: seq<Event>, stopping: bool)
    requires Quiet(log, stopping)
    ensures Quiet(log + [StopCalled], true)
  {
    assert (log + [StopCalled])[..|log|] == log;
  }

  lemma QuietClose(log: seq<Event>)
    requires Quiet(log, true)
    ensures Quiet(log + [QueueCloseBegun], true)
  {
    assert (log + [QueueCloseBegun])[..|log|] == log;
  }

  lemma StartKeeps(s: State)
    requires Inv(s)
    ensures Inv(StartLoop(s))
  {
    hide Quiet;
    if !s.stopping { QuietCall(s.log); }
  }

  lemma StopKeeps(s: State)
    requires Inv(s)
    ensures Inv(CallStop(s))
  {
    hide Quiet;
    QuietStop(s.log, s.stopping);
    QuietClose(s.log + [StopCalled]);
    var t := CallStop(s);
    if s.kind.Relay? && s.stopped {
      assert t == s.(stops := s.stops + [Resolved]);
    } else if s.running.Some? {
      assert t == s.(stopping := true, log := s.log + [StopCalled], stops := s.stops + [AwaitingLoop(s.running.value)]);
    } else if s.kind.Relay? && s.kind.closesQueue {
      assert t == s.(stopping := true, log := s.log + [StopCalled] + [QueueCloseBegun],
                     stops := s.stops + [ClosingQueue]);
    } else if s.kind.Relay? {
      assert t == s.(stopping := true, stopped := true, log := s.log + [StopCalled], stops := s.stops + [Resolved]);
    } else {
      assert t == s.(stopping := true, log := s.log + [StopCalled], stops := s.stops + [Resolved]);
    }
  }

  /** What a resumed loop may do: move on and, before stop, begin a call. */
  function Moved(s: State, i: nat, pc: Pc, inFlight: bool, begins: bool): State
    requires i < |s.loops|
  {
    s.(loops := s.loops[i := pc], inFlight := inFlight, log := if begins then s.log + [CallBegun] else s.log)
  }

  lemma MoveKeeps(s: State, i: nat, pc: Pc, inFlight: bool, begins: bool)
    requires Inv(s) && i < |s.loops| && s.loops[i] != Exited && Fits(s.kind, pc)
    requires (inFlight <==> Calling(pc) && !s.kind.Relay?) && (pc == Exited ==> s.stopping) && (begins ==> !s.stopping)
    ensures Inv(Moved(s, i, pc, inFlight, begins))
  {
    hide Quiet;
    if !s.stopping { QuietCall(s.log); }
  }

  lemma ResumeMoves(s: State, i: nat, candidates: nat, skipped: nat)
    requires OneLoop(s) && FlagExact(s.kind, s.inFlight, s.loops) && i < |s.loops| && s.loops[i] != Exited
    ensures var t := Resume(s, i, candidates, skipped); var begins := |t.log| > |s.log|;
      && t.loops == s.loops[i := t.loops[i]] && t == Moved(s, i, t.loops[i], t.inFlight, begins)
      && Fits(s.kind, t.loops[i]) && (t.inFlight <==> Calling(t.loops[i]) && !s.kind.Relay?)
      && (t.loops[i] == Exited ==> s.stopping) && (begins ==> !s.stopping)
  {}

  lemma WakeKeeps(s: State, i: nat, candidates: nat, skipped: nat)
    requires Inv(s) && i < |s.loops| && s.loops[i] != Exited
    ensures Inv(Resume(s, i, candidates, skipped))
  {
    hide Resume, Moved, Quiet;
    ResumeMoves(s, i, candidates, skipped);
    var t := Resume(s, i, candidates, skipped);
    hide OneLoop, FlagExact, StopsHonest;
    MoveKeeps(s, i, t.loops[i], t.inFlight, |t.log| > |s.log|);
  }

  lemma ResumeStopKeeps(s: State, k: nat)
    requires Inv(s) && Enabled(s, ResumeStop(k))
    ensures Inv(Apply(s, ResumeStop(k)))
  {
    hide Quiet, FlagExact;
    if s.kind.Relay? { QuietClose(s.log); }
  }

  lemma QueueClosedKeeps(s: State, k: nat)
    requires Inv(s) && Enabled(s, QueueClosed(k))
    ensures Inv(Apply(s, QueueClosed(k)))
  {
    hide Quiet, FlagExact;
  }

  lemma ApplyKeeps(s: State, step: Step)
    requires Inv(s) && Enabled(s, step)
    ensures Inv(Apply(s, step))
  {
    hide Inv;
    match step
    case Start => StartKeeps(s);
    case Stop => StopKeeps(s);
    case Wake(i, candidates, skipped) => WakeKeeps(s, i, candidates, skipped);
    case ResumeStop(k) => ResumeStopKeeps(s, k);
    case QueueClosed(k) => QueueClosedKeeps(s, k);
  }

  lemma {:induction false} ExecuteKeeps(s: State, steps: seq<Step>)
    requires Inv(s) && Legal(s, steps)
    ensures Inv(Execute(s, steps))
    decreases |steps|
  {
    hide Inv, Apply;
    if steps != [] {
      ApplyKeeps(s, steps[0]);
      ExecuteKeeps(Apply(s, steps[0]), steps[1..]);
    }
  }

  lemma InitialInv(kind: Kind)
    ensures Inv(Initial(kind))
  {}

  // ---- what every run guarantees ----

  /** There is one loop instance at most, so at most one tick, pass or batch is ever in flight. */
  lemma OneCallInFlight(kind: Kind, steps: seq<Step>, i: nat, j: nat)
    requires Legal(Initial(kind), steps)
    requires i < |Execute(Initial(kind), steps).loops| && j < |Execute(Initial(kind), steps).loops|
    ensures i == j
  {
    ExecuteKeeps(Initial(kind), steps);
  }

  lemma {:induction false} QuietFrom(log: seq<Event>, stopping: bool, i: nat, j: nat)
    requires Quiet(log, stopping) && i < j < |log| && log[i] == StopCalled
    ensures log[j] != CallBegun
    decreases |log|
  {
    var rest := log[..|log| - 1];
    if j < |log| - 1 {
      assert rest[i] == log[i] && rest[j] == log[j];
      QuietFrom(rest, if Quiet(rest, true) then true else false, i, j);
    } else if log[j] == CallBegun {
      assert rest[i] == StopCalled;
      QuietHasNoStop(rest, i);
    }
  }

  lemma {:induction false} QuietHasNoStop(log: seq<Event>, i: nat)
    requires Quiet(log, false) && i < |log|
    ensures log[i] != StopCalled
    decreases |log|
  {
    if i < |log| - 1 { QuietHasNoStop(log[..|log| - 1], i); }
  }

  /** No evaluate, listDue, redispatch or relay call begins after stop was called. */
  lemma NoCallAfterStop(kind: Kind, steps: seq<Step>, i: nat, j: nat)
    requires Legal(Initial(kind), steps) && i < j < |Execute(Initial(kind), steps).log|
    requires Execute(Initial(kind), steps).log[i] == StopCalled
    ensures Execute(Initial(kind), steps).log[j] != CallBegun
  {
    ExecuteKeeps(Initial(kind), steps);
    var s := Execute(Initial(kind), steps);
    QuietFrom(s.log, s.stopping, i, j);
  }

  /** A stop that has resolved, or has gone on to close the queue, left no loop behind. */
  lemma ResolvedStopMeansExited(kind: Kind, steps: seq<Step>, k: nat, i: nat)
    requires Legal(Initial(kind), steps)
    requires k < |Execute(Initial(kind), steps).stops| && !Execute(Initial(kind), steps).stops[k].AwaitingLoop?
    requires i < |Execute(Initial(kind), steps).loops|
    ensures Execute(Initial(kind), steps).loops[i] == Exited
  {
    ExecuteKeeps(Initial(kind), steps);
  }

  lemma StoppedStays(s: State, step: Step)
    requires s.stopping && Enabled(s, step)
    ensures Apply(s, step).stopping && |Apply(s, step).loops| == |s.loops|
    ensures forall i | 0 <= i < |s.loops| && s.loops[i] == Exited :: Apply(s, step).loops[i] == Exited
  {}

  /** From the first stop on, no start brings up a loop and none that ended comes back. */
  lemma {:induction false} NeverRevived(s: State, steps: seq<Step>)
    requires s.stopping && Legal(s, steps)
    ensures Execute(s, steps).stopping && |Execute(s, steps).loops| == |s.loops|
    ensures forall i | 0 <= i < |s.loops| && s.loops[i] == Exited :: Execute(s, steps).loops[i] == Exited
    decreases |steps|
  {
    hide Apply;
    if steps != [] {
      StoppedStays(s, steps[0]);
      NeverRevived(Apply(s, steps[0]), steps[1..]);
    }
  }

  lemma {:induction false} ExecuteConcat(s: State, a: seq<Step>, b: seq<Step>)
    requires Legal(s, a) && Legal(Execute(s, a), b)
    ensures Legal(s, a + b) && Execute(s, a + b) == Execute(Execute(s, a), b)
    decreases |a|
  {
    hide Apply;
    if a == [] {
      assert a + b == b;
    } else {
      assert (a + b)[1..] == a[1..] + b;
      ExecuteConcat(Apply(s, a[0]), a[1..], b);
    }
  }

  lemma OneStep(s: State, step: Step)
    requires Enabled(s, step)
    ensures Legal(s, [step]) && Execute(s, [step]) == Apply(s, step)
  {
    hide Apply;
    assert [step][1..] == [];
  }

  /** How many times a loop still resumes once stop was called. */
  function Resumptions(pc: Pc): nat { if pc.Exited? then 0 else if pc.Executing? || !Calling(pc) then 1 else 2 }

  lemma WakeDrains(s: State, i: nat, candidates: nat, skipped: nat)
    requires Inv(s) && s.stopping && i < |s.loops| && s.loops[i] != Exited
    ensures var t := Apply(s, Wake(i, candidates, skipped));
      && t.stopping && t.stops == s.stops && |t.loops| == |s.loops|
      && Resumptions(t.loops[i]) == Resumptions(s.loops[i]) - 1
  {}

  lemma OtherStepsLeaveLoop(s: State, step: Step, i: nat)
    requires Inv(s) && s.stopping && Enabled(s, step) && i < |s.loops| && !step.Wake?
    ensures Apply(s, step).stopping && Apply(s, step).loops == s.loops
  {}

  function Wakes(steps: seq<Step>, i: nat): nat {
    if steps == [] then 0 else (if steps[0].Wake? && steps[0].loop == i then 1 else 0) + Wakes(steps[1..], i)
  }

  /**
   * After stop, in every run: each resumption of a loop uses up one of the at most two it has left, and
   * nothing else gives it more. So a loop that is resumed as often as it can be has ended.
   */
  lemma {:induction false} StoppedLoopRunsOut(s: State, steps: seq<Step>, i: nat)
    requires Inv(s) && s.stopping && Legal(s, steps) && i < |s.loops|
    ensures i < |Execute(s, steps).loops|
    ensures Wakes(steps, i) + Resumptions(Execute(s, steps).loops[i]) == Resumptions(s.loops[i]) <= 2
    decreases |steps|
  {
    if steps != [] {
      hide Inv, Apply;
      var step := steps[0];
      ApplyKeeps(s, step);
      if step.Wake? {
        OneLoopOnly(s, i, step.loop);
        WakeDrains(s, i, step.candidates, step.skipped);
      } else {
        OtherStepsLeaveLoop(s, step, i);
      }
      StoppedLoopRunsOut(Apply(s, step), steps[1..], i);
    }
  }

  lemma OneLoopOnly(s: State, i: nat, j: nat)
    requires Inv(s) && i < |s.loops| && j < |s.loops|
    ensures i == j
  {}

  lemma {:induction false} LoopDrains(s: State, i: nat) returns (steps: seq<Step>)
    requires Inv(s) && s.stopping && i < |s.loops|
    ensures Legal(s, steps) && |steps| == Resumptions(s.loops[i])
    ensures var t := Execute(s, steps); Inv(t) && t.stops == s.stops && i < |t.loops| && t.loops[i] == Exited
    decreases Resumptions(s.loops[i])
  {
    hide Inv, Apply;
    if s.loops[i] == Exited {
      steps := [];
    } else {
      var wake := Wake(i, 0, 0);
      WakeDrains(s, i, 0, 0);
      ApplyKeeps(s, wake);
      OneStep(s, wake);
      var rest := LoopDrains(Apply(s, wake), i);
      ExecuteConcat(s, [wake], rest);
      steps := [wake] + rest;
    }
  }

  /** A waiting stop is never stuck: from any state of any run some three steps at most take it past its loop. */
  lemma StopCompletes(s: State, k: nat) returns (steps: seq<Step>)
    requires Inv(s) && k < |s.stops| && s.stops[k].AwaitingLoop?
    ensures Legal(s, steps) && |steps| <= 3
    ensures k < |Execute(s, steps).stops| && !Execute(s, steps).stops[k].AwaitingLoop?
    ensures var t := Execute(s, steps); t.stops[k].Resolved? && t.kind.Relay? ==> t.stopped
  {
    var i := s.stops[k].loop;
    var drain := LoopDrains(s, i);
    var t := Execute(s, drain);
    OneStep(t, ResumeStop(k));
    ExecuteConcat(s, drain, [ResumeStop(k)]);
    steps := drain + [ResumeStop(k)];
  }

  /** It can resolve in at most one step more, and a relay is then stopped for good. */
  lemma StopResolves(s: State, k: nat) returns (steps: seq<Step>)
    requires Inv(s) && k < |s.stops| && s.stops[k].AwaitingLoop?
    ensures Legal(s, steps) && |steps| <= 4
    ensures var t := Execute(s, steps); k < |t.stops| && t.stops[k] == Resolved && (t.kind.Relay? ==> t.stopped)
  {
    hide Inv, Execute, Legal;
    var first := StopCompletes(s, k);
    ExecuteKeeps(s, first);
    var t := Execute(s, first);
    if t.stops[k].ClosingQueue? {
      OneStep(t, QueueClosed(k));
      ExecuteConcat(s, first, [QueueClosed(k)]);
      steps := first + [QueueClosed(k)];
    } else {
      steps := first;
    }
  }

  // ---- before stop: what is run ----

  /** The call a round of this kind begins with. */
  function FirstCall(kind: Kind): Pc {
    match kind case Scheduler(_) => Evaluating case Reconciler => Listing case Relay(_) => Executing
  }

  /** The loop has begun one more call, its round's first, and nothing else was logged. */
  ghost predicate RoundBegun(s: State, t: State, i: nat) {
    && t.log == s.log + [CallBegun] && i < |t.loops| && t.loops[i] == FirstCall(s.kind)
    && !t.stopping && t.kind == s.kind && t.stops == s.stops
  }

  /**
   * While stop has not been called, a loop between its calls makes the next one after one or two
   * resumptions, whatever they are told.
   */
  lemma RunningLoopCalls(s: State, i: nat, candidates: nat, skipped: nat)
    requires Inv(s) && !s.stopping && i < |s.loops| && !Calling(s.loops[i])
    ensures Enabled(s, Wake(i, candidates, skipped))
    ensures var once := Apply(s, Wake(i, candidates, skipped));
      RoundBegun(s, once, i)
      || (Enabled(once, Wake(i, candidates, skipped)) && RoundBegun(s, Apply(once, Wake(i, candidates, skipped)), i)
          && once == s.(loops := s.loops[i := Pausing]))
  {
    hide Quiet, StopsHonest;
  }

  /** Started without a startup delay, the scheduler and the relay call at once; the others wait first. */
  lemma StartBringsUpLoop(s: State)
    requires Inv(s) && !s.stopping && s.running.None?
    ensures var t := Apply(s, Start);
      && |s.loops| == 0 && |t.loops| == 1 && t.running == Some(0) && t.stops == s.stops && !t.stopping
      && (if s.kind.Reconciler? then t.loops[0] == Pausing && t.log == s.log
          else if s.kind.Scheduler? && s.kind.startupDelay then t.loops[0] == StartupDelay && t.log == s.log
          else RoundBegun(s, t, 0))
  {
    hide Quiet, StopsHonest;
  }

  /** A tick or a batch that ends before stop is followed by another round. */
  lemma RoundFollowsRound(s: State, i: nat, candidates: nat, skipped: nat)
    requires Inv(s) && !s.stopping && i < |s.loops| && (s.loops[i].Evaluating? || s.loops[i].Executing?)
    ensures var t := Apply(s, Wake(i, candidates, skipped));
      t == s.(inFlight := false, loops := s.loops[i := if s.kind.Relay? then Pausing else AfterRound])
  {
    hide Quiet, StopsHonest;
  }

  function Sum(ns: seq<nat>): nat { if ns == [] then 0 else ns[0] + Sum(ns[1..]) }

  /** The listing is told the number of candidates, then every resumption how many invalid ones come next. */
  function PassWakes(i: nat, candidates: nat, skips: seq<nat>): seq<Step> {
    seq(|skips|, j requires 0 <= j < |skips| => Wake(i, candidates, skips[j]))
  }

  function Begun(n: nat): seq<Event> { seq(n, _ => CallBegun) }

  /** How many candidates a resumed call finds still to handle. */
  function LeftOf(pc: Pc, candidates: nat): nat { if pc.Adding? then pc.left else candidates }

  /**
   * A listing reports n candidates of which k are invalid, wherever they stand, and no stop follows: exactly
   * n - k redispatch calls begin, one after the other, and then the round is over.
   */
  lemma {:induction false} PassCallsEachValid(s: State, i: nat, candidates: nat, skips: seq<nat>)
    requires Inv(s) && !s.stopping && i < |s.loops| && (s.loops[i].Listing? || s.loops[i].Adding?)
    requires var n := LeftOf(s.loops[i], candidates); Sum(skips) <= n && |skips| == n - Sum(skips) + 1
    ensures Legal(s, PassWakes(i, candidates, skips))
    ensures Execute(s, PassWakes(i, candidates, skips))
         == s.(log := s.log + Begun(LeftOf(s.loops[i], candidates) - Sum(skips)), inFlight := false,
               loops := s.loops[i := AfterRound])
    decreases |skips|
  {
    hide Inv, Apply;
    var n := LeftOf(s.loops[i], candidates);
    var wake, steps := Wake(i, candidates, skips[0]), PassWakes(i, candidates, skips);
    var t := Apply(s, wake);
    assert steps[0] == wake && steps[1..] == PassWakes(i, candidates, skips[1..]);
    ApplyKeeps(s, wake);
    PassStep(s, i, candidates, skips[0]);
    if |skips| > 1 {
      PassCallsEachValid(t, i, candidates, skips[1..]);
      assert [CallBegun] + Begun(n - skips[0] - 1 - Sum(skips[1..])) == Begun(n - Sum(skips));
      assert t.loops[i := AfterRound] == s.loops[i := AfterRound];
      assert s.log + [CallBegun] + Begun(n - skips[0] - 1 - Sum(skips[1..])) == s.log + Begun(n - Sum(skips));
    } else {
      assert s.log + Begun(0) == s.log;
    }
  }

  lemma PassStep(s: State, i: nat, candidates: nat, skipped: nat)
    requires Inv(s) && !s.stopping && i < |s.loops| && (s.loops[i].Listing? || s.loops[i].Adding?)
    ensures var n := LeftOf(s.loops[i], candidates); var t := Apply(s, Wake(i, candidates, skipped));
      t == if skipped < n then s.(loops := s.loops[i := Adding(n - skipped - 1)], log := s.log + [CallBegun])
           else s.(loops := s.loops[i := AfterRound], inFlight := false)
  {
    hide Quiet, StopsHonest;
  }

  /** A stop is noted, unless the relay has stopped: no loop starts any more, and it waits for a loop that is up. */
  lemma StopIsNoted(s: State)
    requires Inv(s) && !s.stopped
    ensures var t := Apply(s, Stop);
      && t.stopping && t.loops == s.loops && |t.stops| == |s.stops| + 1 && t.stops[..|s.stops|] == s.stops
      && |t.log| > |s.log| && t.log[..|s.log| + 1] == s.log + [StopCalled]
      && (s.running.Some? <==> t.stops[|s.stops|].AwaitingLoop?)
      && (s.running.None? ==> (t.stops[|s.stops|] == ClosingQueue <==> s.kind.Relay? && s.kind.closesQueue))
  {
    hide Quiet, StopsHonest, FlagExact;
  }

  /** A relay with a queue has begun closing it before any of its stops resolves. */
  ghost predicate ClosesFirst(s: State) {
    s.kind.Relay? && s.kind.closesQueue ==>
      (s.stopped || exists k :: 0 <= k < |s.stops| && !s.stops[k].AwaitingLoop?) ==> QueueCloseBegun in s.log
  }

  lemma StopClosesFirst(s: State)
    requires Inv(s) && ClosesFirst(s)
    ensures ClosesFirst(CallStop(s))
  {
    hide Quiet, OneLoop, FlagExact;
    var t := CallStop(s);
    assert t.stops[..|s.stops|] == s.stops;
    if s.kind.Relay? && s.kind.closesQueue && !s.stopped && s.running.None? {
      assert t.log[|t.log| - 1] == QueueCloseBegun;
    }
  }

  lemma ResumeClosesFirst(s: State, k: nat)
    requires Enabled(s, ResumeStop(k))
    ensures ClosesFirst(Apply(s, ResumeStop(k)))
  {
    var t := Apply(s, ResumeStop(k));
    if s.kind.Relay? && s.kind.closesQueue { assert t.log[|t.log| - 1] == QueueCloseBegun; }
  }

  lemma OthersLeaveStops(s: State, step: Step)
    requires Inv(s) && Enabled(s, step) && (step.Start? || step.Wake?)
    ensures var t := Apply(s, step); t.stops == s.stops && t.stopped == s.stopped && t.kind == s.kind
  {
    hide Quiet, StopsHonest, Resume;
    if step.Wake? { ResumeMoves(s, step.loop, step.candidates, step.skipped); }
  }

  lemma ClosesFirstStep(s: State, step: Step)
    requires Inv(s) && ClosesFirst(s) && Enabled(s, step)
    ensures ClosesFirst(Apply(s, step))
  {
    hide Inv, CallStop;
    match step
    case Stop => StopClosesFirst(s);
    case ResumeStop(k) => ResumeClosesFirst(s, k);
    case QueueClosed(k) =>
    case _ =>
      hide Apply;
      LogGrows(s, step);
      OthersLeaveStops(s, step);
  }

  lemma LogGrows(s: State, step: Step)
    requires Inv(s) && Enabled(s, step)
    ensures s.log <= Apply(s, step).log
  {
    hide Resume, StopsHonest, Quiet;
    if step.Wake? { ResumeMoves(s, step.loop, step.candidates, step.skipped); }
  }

  lemma {:induction false} ClosesFirstRun(s: State, steps: seq<Step>)
    requires Inv(s) && ClosesFirst(s) && Legal(s, steps)
    ensures ClosesFirst(Execute(s, steps))
    decreases |steps|
  {
    hide Inv, Apply, ClosesFirst;
    if steps != [] {
      ApplyKeeps(s, steps[0]);
      ClosesFirstStep(s, steps[0]);
      ClosesFirstRun(Apply(s, steps[0]), steps[1..]);
    }
  }

  /** In every run of a relay with a queue, a stop that has resolved was preceded by closing the queue. */
  lemma ResolvedStopClosedQueue(steps: seq<Step>, k: nat)
    requires Legal(Initial(Relay(true)), steps)
    requires k < |Execute(Initial(Relay(true)), steps).stops|
    requires Execute(Initial(Relay(true)), steps).stops[k].Resolved?
    ensures QueueCloseBegun in Execute(Initial(Relay(true)), steps).log
  {
    ClosesFirstRun(Initial(Relay(true)), steps);
    assert Execute(Initial(Relay(true)), steps).kind == Relay(true) by { KindStays(Initial(Relay(true)), steps); }
  }

  lemma StepKeepsKind(s: State, step: Step)
    requires Enabled(s, step)
    ensures Apply(s, step).kind == s.kind
  {}

  lemma {:induction false} KindStays(s: State, steps: seq<Step>)
    requires Legal(s, steps)
    ensures Execute(s, steps).kind == s.kind
    decreases |steps|
  {
    if steps != [] {
      hide Apply;
      StepKeepsKind(s, steps[0]);
      KindStays(Apply(s, steps[0]), steps[1..]);
    }
  }

  // ---- the same steps on mutable fields ----

  class WorkerLoop {
    const kind: Kind
    var running: Option<nat>
    var stopping: bool
    var stopped: bool
    var inFlight: bool
    var loops: seq<Pc>
    var stops: seq<StopPc>
    var log: seq<Event>

    function View(): State
      reads this
    {
      State(kind, running, stopping, stopped, inFlight, loops, stops, log)
    }

    ghost predicate Valid()
      reads this
    {
      Inv(View())
    }

    constructor (kind: Kind)
      ensures Valid() && View() == Initial(kind)
    {
      this.kind, running, stopping, stopped, inFlight := kind, None, false, false, false;
      loops, stops, log := [], [], [];
    }

    method RunRound(i: nat)
      requires i < |loops|
      modifies this
      ensures View() == Round(old(View()), i)
    {
      if kind.Relay? {
        loops, log := loops[i := Executing], log + [CallBegun];
      } else if inFlight || stopping {
        loops := loops[i := AfterRound];
      } else {
        inFlight := true;
        loops, log := loops[i := if kind.Reconciler? then Listing else Evaluating], log + [CallBegun];
      }
    }

    method LoopHead(i: nat)
      requires i < |loops|
      modifies this
      ensures View() == Head(old(View()), i)
    {
      if stopping {
        loops := loops[i := Exited];
      } else if kind.Reconciler? {
        loops := loops[i := Pausing];
      } else {
        RunRound(i);
      }
    }

    method Candidate(i: nat, left: nat, skipped: nat)
      requires i < |loops|
      modifies this
      ensures View() == NextCandidate(old(View()), i, left, skipped)
    {
      var n, k: nat := left, 0;
      while k < skipped && n > 0 && !stopping
        invariant 0 <= n && k <= skipped && n + k == left && View() == old(View())
        decreases n
      {
        n, k := n - 1, k + 1;
      }
      if stopping || n == 0 {
        inFlight := false;
        loops := loops[i := AfterRound];
      } else {
        loops, log := loops[i := Adding(n - 1)], log + [CallBegun];
      }
    }

    method WakeLoop(i: nat, candidates: nat, skipped: nat)
      requires Valid() && i < |loops| && loops[i] != Exited
      modifies this
      ensures Valid() && View() == Apply(old(View()), Wake(i, candidates, skipped))
    {
      hide Inv;
      ApplyKeeps(View(), Wake(i, candidates, skipped));
      match loops[i]
      case StartupDelay => LoopHead(i);
      case Evaluating =>
        inFlight := false;
        loops := loops[i := AfterRound];
      case Listing => Candidate(i, candidates, skipped);
      case Adding(left) => Candidate(i, left, skipped);
      case Executing => loops := loops[i := if stopping then Exited else Pausing];
      case AfterRound =>
        if kind.Reconciler? { LoopHead(i); } else { loops := loops[i := if stopping then Exited else Pausing]; }
      case Pausing =>
        if !kind.Reconciler? {
          LoopHead(i);
        } else if stopping {
          loops := loops[i := Exited];
        } else {
          RunRound(i);
        }
    }

    method StartOnce()
      requires Valid()
      modifies this
      ensures Valid() && View() == Apply(old(View()), Start)
    {
      hide Inv;
      ApplyKeeps(View(), Start);
      if running.Some? || stopping {
        return;
      }
      var i := |loops|;
      running, loops := Some(i), loops + [StartupDelay];
      if !(kind.Scheduler? && kind.startupDelay) {
        LoopHead(i);
      }
    }

    method CloseOrResolve() returns (pc: StopPc)
      modifies this`log, this`stopped
      ensures (View(), pc) == AfterLoop(old(View()))
    {
      if kind.Relay? && kind.closesQueue {
        log := log + [QueueCloseBegun];
        pc := ClosingQueue;
      } else {
        stopped := stopped || kind.Relay?;
        pc := Resolved;
      }
    }

    method BeginStop()
      requires Valid()
      modifies this
      ensures Valid() && View() == Apply(old(View()), Stop)
    {
      hide Inv;
      ApplyKeeps(View(), Stop);
      if kind.Relay? && stopped {
        stops := stops + [Resolved];
        return;
      }
      stopping := true;
      log := log + [StopCalled];
      var pc;
      if running.Some? {
        pc := AwaitingLoop(running.value);
      } else {
        pc := CloseOrResolve();
      }
      stops := stops + [pc];
    }

    method ContinueStop(k: nat)
      requires Valid() && Enabled(View(), ResumeStop(k))
      modifies this
      ensures Valid() && View() == Apply(old(View()), ResumeStop(k))
    {
      hide Inv;
      ApplyKeeps(View(), ResumeStop(k));
      running := None;
      var pc := CloseOrResolve();
      stops := stops[k := pc];
    }

    method FinishStop(k: nat)
      requires Valid() && Enabled(View(), QueueClosed(k))
      modifies this
      ensures Valid() && View() == Apply(old(View()), QueueClosed(k))
    {
      hide Inv;
      ApplyKeeps(View(), QueueClosed(k));
      stopped := true;
      stops := stops[k := Resolved];
    }
  }
}
