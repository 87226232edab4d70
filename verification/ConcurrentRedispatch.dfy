/**
 * Redispatch calls of the processor and the reconciler interleaved, await by await, with each other, with
 * the outbox publisher and with whatever the queue does to its entries. Each call remembers whether its
 * identifier had a live entry at some moment since the call began, and whether it has had one again since
 * the call inspected a finished entry it is about to remove.
 */
module ConcurrentRedispatch {
  import opened Redispatch
  import opened Wrappers

  datatype End = FoundLive | Enqueued | Unknown | DuplicateError | Unreachable

  datatype Pc = Looking | Inspecting | Removing | Adding | Ended(end: End)

  datatype CallState = CallState(id: JobId, pc: Pc, seenLive: bool, revived: bool)

  datatype State = State(jobs: Jobs, calls: seq<CallState>)

  datatype Step =
    | Begin(id: JobId)
    | Look(call: nat)
    | Inspect(call: nat)
    | Remove(call: nat)      // removes whatever entry is there by now
    | AddJob(call: nat)
    | Throw(call: nat, duplicate: bool)
    | Publish(id: JobId)     // the outbox publisher adds the initial delivery
    | Change(id: JobId, to: JobState)
    | Lose(id: JobId)

  ghost predicate At(s: State, call: nat, pc: Pc) { call < |s.calls| && s.calls[call].pc == pc }

  ghost predicate Enabled(s: State, step: Step) {
    match step
    case Begin(id) => true
    case Look(i) => At(s, i, Looking)
    case Inspect(i) => At(s, i, Inspecting)
    case Remove(i) => At(s, i, Removing)
    case AddJob(i) => At(s, i, Adding)
    case Throw(i, duplicate) => i < |s.calls| && !s.calls[i].pc.Ended?
    case Publish(id) => true
    case Change(id, to) => id in s.jobs
    case Lose(id) => true
  }

  function Goto(s: State, i: nat, pc: Pc): State
    requires i < |s.calls|
  {
    s.(calls := s.calls[i := s.calls[i].(pc := pc)])
  }

  /** What getState is answered: an entry that has vanished has no known state. */
  function Inspected(jobs: Jobs, id: JobId): Pc {
    if id !in jobs || jobs[id] == Unrecognised then Ended(Unknown)
    else if Live(jobs[id]) then Ended(FoundLive)
    else Removing
  }

  /** The effect of a step, before the calls take note of the queue. */
  ghost function Effect(s: State, step: Step): State
    requires Enabled(s, step)
  {
    match step
    case Begin(id) => s.(calls := s.calls + [CallState(id, Looking, false, false)])
    case Look(i) => Goto(s, i, if s.calls[i].id in s.jobs then Inspecting else Adding)
    case Inspect(i) => Goto(s, i, Inspected(s.jobs, s.calls[i].id))
    case Remove(i) => Goto(s.(jobs := s.jobs - {s.calls[i].id}), i, Adding)
    case AddJob(i) => Goto(s.(jobs := Enqueue(s.jobs, s.calls[i].id, false)), i, Ended(Enqueued))
    case Throw(i, duplicate) => Goto(s, i, Ended(if duplicate then DuplicateError else Unreachable))
    case Publish(id) => s.(jobs := Enqueue(s.jobs, id, false))
    case Change(id, to) => s.(jobs := s.jobs[id := to])
    case Lose(id) => s.(jobs := s.jobs - {id})
  }

  function Noted(jobs: Jobs, c: CallState): CallState {
    c.(seenLive := c.seenLive || IsLive(jobs, c.id), revived := c.pc == Removing && (c.revived || IsLive(jobs, c.id)))
  }

  /** Calls that were under way before the step take note of the queue it leaves. */
  ghost function Apply(s: State, step: Step): State
    requires Enabled(s, step)
  {
    var t := Effect(s, step);
    State(t.jobs, seq(|t.calls|, i requires 0 <= i < |t.calls| =>
      if i < |s.calls| && s.calls[i].pc.Ended? then t.calls[i] else Noted(t.jobs, t.calls[i])))
  }

  ghost predicate Legal(s: State, steps: seq<Step>)
    decreases |steps|
  {
    steps == [] || (Enabled(s, steps[0]) && Legal(Apply(s, steps[0]), steps[1..]))
  }

  ghost function Execute(s: State, steps: seq<Step>): State
    requires Legal(s, steps)
    decreases |steps|
  {
    if steps == [] then s else Execute(Apply(s, steps[0]), steps[1..])
  }

  /** An entry in the way of an add came after the call looked; a call that settled saw its entry live. */
  ghost predicate Honest(jobs: Jobs, c: CallState) {
    && (c.pc == Adding && c.id in jobs ==> c.seenLive)
    && (c.pc == Ended(FoundLive) || c.pc == Ended(Enqueued) ==> c.seenLive)
    && (c.pc == Removing && IsLive(jobs, c.id) ==> c.revived)
  }

  ghost predicate Inv(s: State) { forall i | 0 <= i < |s.calls| :: Honest(s.jobs, s.calls[i]) }

  lemma ApplyKeeps(s: State, step: Step)
    requires Inv(s) && Enabled(s, step)
    ensures Inv(Apply(s, step))
  {
    var t := Effect(s, step);
    forall i | 0 <= i < |t.calls| ensures Honest(t.jobs, Apply(s, step).calls[i]) {
      if i < |s.calls| { assert Honest(s.jobs, s.calls[i]); }
    }
  }

  lemma {:induction false} ExecuteKeeps(s: State, steps: seq<Step>)
    requires Inv(s) && Legal(s, steps)
    ensures Inv(Execute(s, steps))
    decreases |steps|
  {
    hide Inv, Apply;
    if steps != [] {
      ApplyKeeps(s, steps[0]);
      ExecuteKeeps(Apply(s, steps[0]), steps[1..]);
    }
  }

  /**
   * In every interleaving, from any queue: a redispatch that reports its job enqueued or found live had
   * a live entry for it at some moment during the call, even when the queue suppressed the add as a
   * duplicate.
   */
  lemma SettledMeansSeenLive(jobs: Jobs, steps: seq<Step>, i: nat)
    requires Legal(State(jobs, []), steps) && i < |Execute(State(jobs, []), steps).calls|
    requires Execute(State(jobs, []), steps).calls[i].pc in {Ended(FoundLive), Ended(Enqueued)}
    ensures Execute(State(jobs, []), steps).calls[i].seenLive
  {
    var s := Execute(State(jobs, []), steps);
    ExecuteKeeps(State(jobs, []), steps);
    assert Honest(s.jobs, s.calls[i]);
  }

  // ---- live entries that disappear ----

  /** What an inspection finds: a live entry, a finished one to remove, or none it recognises. */
  lemma InspectionFinds(s: State, i: nat)
    requires At(s, i, Inspecting)
    ensures var id, pc := s.calls[i].id, Apply(s, Inspect(i)).calls[i].pc;
      && (pc == Ended(FoundLive) <==> IsLive(s.jobs, id))
      && (pc == Removing <==> id in s.jobs && s.jobs[id] in {Completed, Failed})
      && (pc == Ended(Unknown) <==> id !in s.jobs || s.jobs[id] == Unrecognised)
  {}

  /** An entry appears exactly when it is added or published, and changes its state only in the queue's hands. */
  lemma EntryAppearsOrChangesIff(s: State, step: Step, id: JobId)
    requires Enabled(s, step)
    ensures id !in s.jobs ==>
      (id in Apply(s, step).jobs <==> step == Publish(id) || (step.AddJob? && s.calls[step.call].id == id))
    ensures id in s.jobs && id in Apply(s, step).jobs ==>
      Apply(s, step).jobs[id] == if step.Change? && step.id == id then step.to else s.jobs[id]
  {}

  /** A live entry disappears exactly when the queue loses it or a call of its identifier removes it. */
  lemma LiveEntryGoneIff(s: State, step: Step, id: JobId)
    requires Enabled(s, step) && IsLive(s.jobs, id)
    ensures id !in Apply(s, step).jobs <==> step == Lose(id) || (step.Remove? && s.calls[step.call].id == id)
  {}

  /**
   * In every interleaving, a call about to remove a finished entry removes a live one only if the
   * identifier got a live entry again after the call had inspected it.
   */
  lemma RemovesLiveOnlyIfRevived(jobs: Jobs, steps: seq<Step>, i: nat)
    requires Legal(State(jobs, []), steps) && Enabled(Execute(State(jobs, []), steps), Remove(i))
    requires IsLive(Execute(State(jobs, []), steps).jobs, Execute(State(jobs, []), steps).calls[i].id)
    ensures Execute(State(jobs, []), steps).calls[i].revived
  {
    var s := Execute(State(jobs, []), steps);
    ExecuteKeeps(State(jobs, []), steps);
    assert Honest(s.jobs, s.calls[i]);
  }

  lemma StepBefore(s: State, step: Step, rest: seq<Step>)
    requires Enabled(s, step) && Legal(Apply(s, step), rest)
    ensures Legal(s, [step] + rest) && Execute(s, [step] + rest) == Execute(Apply(s, step), rest)
  {
    hide Apply;
    assert ([step] + rest)[1..] == rest;
  }

  lemma {:induction false} ExecuteConcat(s: State, a: seq<Step>, b: seq<Step>)
    requires Legal(s, a) && Legal(Execute(s, a), b)
    ensures Legal(s, a + b) && Execute(s, a + b) == Execute(Execute(s, a), b)
    decreases |a|
  {
    hide Apply;
    if a == [] {
      assert a + b == b;
    } else {
      assert (a + b)[1..] == a[1..] + b;
      ExecuteConcat(Apply(s, a[0]), a[1..], b);
    }
  }

  /** A call begins, finds a finished entry and is about to remove it. */
  lemma CallInspects(s: State, id: JobId) returns (steps: seq<Step>)
    requires id in s.jobs && !Live(s.jobs[id]) && s.jobs[id] != Unrecognised
    requires forall i | 0 <= i < |s.calls| :: s.calls[i] == CallState(id, Removing, false, false)
    ensures Legal(s, steps) && Execute(s, steps) == State(s.jobs, s.calls + [CallState(id, Removing, false, false)])
  {
    var i := |s.calls|;
    var s1 := Apply(s, Begin(id));
    assert s1.calls == s.calls + [CallState(id, Looking, false, false)];
    var s2 := Apply(s1, Look(i));
    assert s2.calls == s.calls + [CallState(id, Inspecting, false, false)];
    var s3 := Apply(s2, Inspect(i));
    assert s3.calls == s.calls + [CallState(id, Removing, false, false)];
    StepBefore(s2, Inspect(i), []);
    StepBefore(s1, Look(i), [Inspect(i)] + []);
    StepBefore(s, Begin(id), [Look(i)] + ([Inspect(i)] + []));
    steps := [Begin(id)] + ([Look(i)] + ([Inspect(i)] + []));
  }

  /**
   * It happens: on any queue with a finished entry, two calls inspect it, the first one removes and adds,
   * and the second one removes the live entry the first has just reported.
   */
  lemma SecondCallRemovesLive(jobs: Jobs, id: JobId) returns (steps: seq<Step>)
    requires id in jobs && !Live(jobs[id]) && jobs[id] != Unrecognised
    ensures Legal(State(jobs, []), steps)
    ensures var s := Execute(State(jobs, []), steps);
      |s.calls| == 2 && s.calls[0].pc == Ended(Enqueued) && s.calls[1].pc == Adding && id !in s.jobs
  {
    hide Execute, Legal;
    var s0 := State(jobs, []);
    var first := CallInspects(s0, id);
    var s1 := Execute(s0, first);
    var second := CallInspects(s1, id);
    var s2 := Execute(s1, second);
    assert s2.calls == [CallState(id, Removing, false, false), CallState(id, Removing, false, false)];
    var s3 := Apply(s2, Remove(0));
    var s4 := Apply(s3, AddJob(0));
    assert s4.calls[1].pc == Removing && s4.calls[1].id == id && IsLive(s4.jobs, id);
    var s5 := Apply(s4, Remove(1));
    Nothing(s5);
    StepBefore(s4, Remove(1), []);
    StepBefore(s3, AddJob(0), [Remove(1)] + []);
    StepBefore(s2, Remove(0), [AddJob(0)] + ([Remove(1)] + []));
    var race := [Remove(0)] + ([AddJob(0)] + ([Remove(1)] + []));
    ExecuteConcat(s1, second, race);
    ExecuteConcat(s0, first, second + race);
    steps := first + (second + race);
  }

  lemma Nothing(s: State)
    ensures Legal(s, []) && Execute(s, []) == s
  {}

  // ---- a call on its own ----

  /** What a call reports to its caller. */
  function Reported(end: End): Added {
    match end
    case FoundLive => Ok(true)
    case Enqueued => Ok(false)
    case Unknown => Ok(true)
    case DuplicateError => Ok(true)
    case Unreachable => Unavailable
  }

  /** The call has ended with this report, and the queue holds these jobs. */
  ghost predicate EndsWith(s: State, i: nat, jobs: Jobs, added: Added) {
    s.jobs == jobs && i < |s.calls| && s.calls[i].pc.Ended? && Reported(s.calls[i].pc.end) == added
  }

  /** A Redis call that fails, after its effect or before it. */
  lemma FailsAlone(s: State, i: nat, fault: Fault, effect: Step) returns (steps: seq<Step>)
    requires i < |s.calls| && !s.calls[i].pc.Ended? && (effect.Lose? || effect.Publish?)
    ensures Legal(s, steps)
    ensures EndsWith(Execute(s, steps), i, if fault.applied then Apply(s, effect).jobs else s.jobs, Caught(fault))
  {
    hide Execute, Legal;
    var s1 := if fault.applied then Apply(s, effect) else s;
    var throw := Throw(i, fault.duplicate);
    Nothing(Apply(s1, throw));
    StepBefore(s1, throw, []);
    steps := [throw] + [];
    if fault.applied {
      StepBefore(s, effect, [throw] + []);
      steps := [effect] + ([throw] + []);
    }
  }

  lemma AddsAlone(s: State, i: nat, fault: Option<Fault>) returns (steps: seq<Step>)
    requires At(s, i, Adding)
    ensures Legal(s, steps)
    ensures var after := Enqueue(s.jobs, s.calls[i].id, false);
      EndsWith(Execute(s, steps), i, if fault.None? || fault.value.applied then after else s.jobs,
               if fault.None? then Ok(false) else Caught(fault.value))
  {
    hide Execute, Legal;
    if fault.Some? {
      steps := FailsAlone(s, i, fault.value, Publish(s.calls[i].id));
    } else {
      Nothing(Apply(s, AddJob(i)));
      StepBefore(s, AddJob(i), []);
      steps := [AddJob(i)] + [];
    }
  }

  lemma InspectsAlone(s: State, i: nat, id: JobId, faults: Faults) returns (steps: seq<Step>)
    requires At(s, i, Inspecting) && s.calls[i].id == id && id in s.jobs && faults.getJob.None?
    ensures Legal(s, steps)
    ensures var (jobs, added) := Add(s.jobs, id, false, faults); EndsWith(Execute(s, steps), i, jobs, added)
  {
    hide Execute, Legal, EndsWith;
    if faults.getState.Some? {
      steps := FailsAlone(s, i, faults.getState.value.(applied := false), Lose(id));
      return;
    }
    var s1 := Apply(s, Inspect(i));
    var rest;
    if s1.calls[i].pc.Ended? {
      Nothing(s1);
      rest := [];
      assert EndsWith(s1, i, s.jobs, Ok(true)) by { EndsNow(s1, i); }
    } else if faults.remove.Some? {
      rest := FailsAlone(s1, i, faults.remove.value, Lose(id));
    } else {
      var s2 := Apply(s1, Remove(i));
      var adding := AddsAlone(s2, i, faults.add);
      StepBefore(s1, Remove(i), adding);
      rest := [Remove(i)] + adding;
    }
    StepBefore(s, Inspect(i), rest);
    steps := [Inspect(i)] + rest;
  }

  lemma EndsNow(s: State, i: nat)
    requires i < |s.calls| && s.calls[i].pc.Ended?
    ensures EndsWith(s, i, s.jobs, Reported(s.calls[i].pc.end))
  {}

  /**
   * A call that nothing interleaves with leaves the queue and reports exactly as `add` does on its own,
   * whatever fails; so every outcome of `add` is one of the interleaved calls'.
   */
  lemma AloneIsAdd(s: State, id: JobId, faults: Faults) returns (steps: seq<Step>)
    ensures Legal(s, steps)
    ensures var (jobs, added) := Add(s.jobs, id, false, faults); EndsWith(Execute(s, steps), |s.calls|, jobs, added)
  {
    hide Execute, Legal, EndsWith;
    var i := |s.calls|;
    var s1 := Apply(s, Begin(id));
    var rest;
    if faults.getJob.Some? {
      rest := FailsAlone(s1, i, faults.getJob.value.(applied := false), Lose(id));
    } else {
      var s2 := Apply(s1, Look(i));
      var tail;
      if id in s.jobs {
        tail := InspectsAlone(s2, i, id, faults);
      } else {
        assert s.jobs - {id} == s.jobs;
        tail := AddsAlone(s2, i, faults.add);
      }
      StepBefore(s1, Look(i), tail);
      rest := [Look(i)] + tail;
    }
    StepBefore(s, Begin(id), rest);
    steps := [Begin(id)] + rest;
  }
}
