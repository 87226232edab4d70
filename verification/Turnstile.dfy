/**
 * The session turnstile: a per-key FIFO mutex built from chained promises.
 *
 * One `Call` stands for one invocation of `run`. Its `current` promise is settled when `released`,
 * its `tail` promise (`previous.then(() => current)`) when `tailSettled`. A step is what the event
 * loop runs without yielding: the synchronous prefix of `run` up to its first await (Enter), the
 * settling of one tail promise (Settle), the continuation after `await previous` which calls the
 * work (Resume), and the `finally` block once the work settled, returned or threw (Finish).
 */
module Turnstile {
  import opened Wrappers

  type Key = Digest
  type Ticket = nat

  datatype Phase = Waiting | Working | Done(threw: bool)

  datatype Call = Call(key: Key, previous: Option<Ticket>, phase: Phase, released: bool, tailSettled: bool)

  // What an observer of the works sees.
  datatype Mark = Begin(key: Key, ticket: Ticket) | End(key: Key, ticket: Ticket, threw: bool)

  datatype State = State(calls: seq<Call>, tails: map<Key, Ticket>, log: seq<Mark>)

  datatype Step = Enter(key: Key) | Settle(t: Ticket) | Resume(t: Ticket) | Finish(t: Ticket, threw: bool)

  const INITIAL := State([], map[], [])

  /** The `previous` promise of call t has settled (no entry in the map means an already resolved promise). */
  predicate PreviousSettled(calls: seq<Call>, t: Ticket)
    requires t < |calls|
  {
    match calls[t].previous
    case None => true
    case Some(p) => p < |calls| && calls[p].tailSettled
  }

  predicate Enabled(s: State, step: Step) {
    match step
    case Enter(_) => true
    case Settle(t) => t < |s.calls| && PreviousSettled(s.calls, t) && s.calls[t].released && !s.calls[t].tailSettled
    case Resume(t) => t < |s.calls| && PreviousSettled(s.calls, t) && s.calls[t].phase.Waiting?
    case Finish(t, _) => t < |s.calls| && s.calls[t].phase.Working?
  }

  function Apply(s: State, step: Step): State
    requires Enabled(s, step)
  {
    match step
    case Enter(key) =>
      var previous := if key in s.tails then Some(s.tails[key]) else None;
      State(s.calls + [Call(key, previous, Waiting, false, false)], s.tails[key := |s.calls|], s.log)
    case Settle(t) =>
      s.(calls := s.calls[t := s.calls[t].(tailSettled := true)])
    case Resume(t) =>
      s.(calls := s.calls[t := s.calls[t].(phase := Working)], log := s.log + [Begin(s.calls[t].key, t)])
    case Finish(t, threw) =>
      var key := s.calls[t].key;
      State(s.calls[t := s.calls[t].(phase := Done(threw), released := true)],
            if key in s.tails && s.tails[key] == t then s.tails - {key} else s.tails,
            s.log + [End(key, t, threw)])
  }

  function StepKey(s: State, step: Step): Key
    requires Enabled(s, step)
  {
    if step.Enter? then step.key else s.calls[step.t].key
  }

  ghost predicate Legal(s: State, steps: seq<Step>)
    decreases |steps|
  {
    steps == [] || (Enabled(s, steps[0]) && Legal(Apply(s, steps[0]), steps[1..]))
  }

  function Execute(s: State, steps: seq<Step>): State
    requires Legal(s, steps)
    decreases |steps|
  {
    if steps == [] then s else Execute(Apply(s, steps[0]), steps[1..])
  }

  // ---- what every step keeps ----

  /** A call that has got past its await finds every earlier call on its key finished. */
  ghost predicate InOrder(calls: seq<Call>) {
    forall i, j | 0 <= i < j < |calls| && calls[i].key == calls[j].key && !calls[j].phase.Waiting? ::
      calls[i].phase.Done?
  }

  ghost predicate PointsBack(calls: seq<Call>) {
    && (forall t | 0 <= t < |calls| && calls[t].previous.Some? :: calls[t].previous.value < t)
    && (forall p, t | 0 <= p < t < |calls| && calls[t].previous == Some(p) :: calls[p].key == calls[t].key)
  }

  ghost predicate PointsToNearest(calls: seq<Call>) {
    forall u, t | 0 <= u < t < |calls| && calls[t].previous.Some? && calls[t].previous.value < u ::
      calls[u].key != calls[t].key
  }

  ghost predicate IdleOnEntry(calls: seq<Call>) {
    forall t, u | 0 <= u < t < |calls| && calls[t].previous.None? && calls[u].key == calls[t].key ::
        calls[u].phase.Done?
  }

  /** `previous` is the tail of the nearest earlier call on the key, or the key was idle on entry. */
  ghost predicate Chained(calls: seq<Call>) { PointsBack(calls) && PointsToNearest(calls) && IdleOnEntry(calls) }

  ghost predicate PromisesAgree(calls: seq<Call>) {
    && (forall t | 0 <= t < |calls| ::
          && (calls[t].released <==> calls[t].phase.Done?)
          && (calls[t].tailSettled ==> calls[t].released))
    && (forall t {:trigger PreviousSettled(calls, t)} | 0 <= t < |calls| && !calls[t].phase.Waiting? ::
          PreviousSettled(calls, t))
  }

  /** The map holds a key exactly while some call on it is unfinished, and then names its last call. */
  ghost predicate MapExact(s: State) {
    && (forall k | k in s.tails ::
          && s.tails[k] < |s.calls|
          && s.calls[s.tails[k]].key == k
          && !s.calls[s.tails[k]].phase.Done?)
    && (forall k, u | k in s.tails && s.tails[k] < u < |s.calls| :: s.calls[u].key != k)
    && (forall t | 0 <= t < |s.calls| && !s.calls[t].phase.Done? :: s.calls[t].key in s.tails)
  }

  /** On every key, the marks made so far are those of serving its calls one at a time in call order. */
  ghost predicate LogExact(s: State) {
    forall k :: Project(s.log, k) == Schedule(s.calls, k)
  }

  ghost predicate Inv(s: State) {
    InOrder(s.calls) && Chained(s.calls) && PromisesAgree(s.calls) && MapExact(s) && LogExact(s)
  }

  /** The marks of one key, in the order they happened. */
  ghost function Project(log: seq<Mark>, k: Key): seq<Mark> {
    if log == [] then []
    else Project(log[..|log| - 1], k) + (if log[|log| - 1].key == k then [log[|log| - 1]] else [])
  }

  /** The marks of one key if its calls are served one at a time in call order. */
  ghost function Schedule(calls: seq<Call>, k: Key): seq<Mark> {
    if calls == [] then []
    else Schedule(calls[..|calls| - 1], k) + Marks(calls[|calls| - 1], |calls| - 1, k)
  }

  ghost function Marks(c: Call, t: Ticket, k: Key): seq<Mark> {
    if c.key != k then []
    else match c.phase
      case Waiting => []
      case Working => [Begin(k, t)]
      case Done(threw) => [Begin(k, t), End(k, t, threw)]
  }

  lemma {:induction false} ScheduleIgnoresOtherKeys(calls: seq<Call>, t: Ticket, c: Call, k: Key)
    requires t < |calls| && Marks(c, t, k) == Marks(calls[t], t, k)
    ensures Schedule(calls[t := c], k) == Schedule(calls, k)
  {
    var n := |calls| - 1;
    if t < n {
      assert calls[t := c][..n] == calls[..n][t := c];
      ScheduleIgnoresOtherKeys(calls[..n], t, c, k);
    } else {
      assert calls[t := c][..n] == calls[..n];
    }
  }

  /** Later calls on the key have made no mark yet, so a new mark of call t lands at the end. */
  lemma {:induction false} ScheduleGrowsAtEnd(calls: seq<Call>, t: Ticket, c: Call, m: Mark)
    requires t < |calls| && c.key == calls[t].key
    requires Marks(c, t, c.key) == Marks(calls[t], t, c.key) + [m]
    requires forall u | t < u < |calls| && calls[u].key == c.key :: calls[u].phase.Waiting?
    ensures Schedule(calls[t := c], c.key) == Schedule(calls, c.key) + [m]
  {
    hide Schedule, Marks;
    var n := |calls| - 1;
    var calls' := calls[t := c];
    ScheduleOfLast(calls, c.key);
    ScheduleOfLast(calls', c.key);
    if t < n {
      assert calls'[..n] == calls[..n][t := c];
      ScheduleGrowsAtEnd(calls[..n], t, c, m);
      WaitingLeavesNoMark(calls[n], n, c.key);
    } else {
      assert calls'[..n] == calls[..n];
    }
  }

  lemma ScheduleOfLast(calls: seq<Call>, k: Key)
    requires calls != []
    ensures Schedule(calls, k) == Schedule(calls[..|calls| - 1], k) + Marks(calls[|calls| - 1], |calls| - 1, k)
  {
  }

  lemma WaitingLeavesNoMark(c: Call, t: Ticket, k: Key)
    requires c.key != k || c.phase.Waiting?
    ensures Marks(c, t, k) == []
  {
  }

  lemma ProjectSnoc(log: seq<Mark>, m: Mark, k: Key)
    ensures Project(log + [m], k) == Project(log, k) + (if m.key == k then [m] else [])
  {
    assert (log + [m])[..|log|] == log;
  }

  /** Only the call that owns the turnstile can be followed by waiting calls alone. */
  lemma LaterCallsWait(calls: seq<Call>, t: Ticket)
    requires t < |calls| && InOrder(calls) && !calls[t].phase.Done?
    ensures forall u | t < u < |calls| && calls[u].key == calls[t].key :: calls[u].phase.Waiting?
  {
  }

  /** When `previous` has settled, every earlier call on the key is finished. */
  lemma SettledMeansServed(calls: seq<Call>, t: Ticket)
    requires t < |calls| && InOrder(calls) && Chained(calls) && PromisesAgree(calls) && PreviousSettled(calls, t)
    ensures forall u | 0 <= u < t && calls[u].key == calls[t].key :: calls[u].phase.Done?
  {
    if calls[t].previous.Some? {
      var p := calls[t].previous.value;
      assert calls[p].phase.Done?;
      forall u | 0 <= u < t && calls[u].key == calls[t].key ensures calls[u].phase.Done? {
        if u < p { assert calls[u].key == calls[p].key; }
      }
    }
  }

  lemma AppendKeepsChain(calls: seq<Call>, c: Call)
    requires Chained(calls) && c.phase.Waiting?
    requires c.previous.Some? ==> c.previous.value < |calls| && calls[c.previous.value].key == c.key
    requires c.previous.Some? ==> forall u | c.previous.value < u < |calls| :: calls[u].key != c.key
    requires c.previous.None? ==> forall u | 0 <= u < |calls| && calls[u].key == c.key :: calls[u].phase.Done?
    ensures Chained(calls + [c])
  {
    var calls' := calls + [c];
    assert PointsBack(calls') by { hide PointsToNearest, IdleOnEntry; }
    assert PointsToNearest(calls') by { hide PointsBack, IdleOnEntry; }
    assert IdleOnEntry(calls') by { hide PointsBack, PointsToNearest; }
  }

  lemma EnterKeepsOrder(s: State, key: Key)
    requires InOrder(s.calls) && Chained(s.calls) && MapExact(s)
    ensures InOrder(Apply(s, Enter(key)).calls) && Chained(Apply(s, Enter(key)).calls)
  {
    var previous := if key in s.tails then Some(s.tails[key]) else None;
    AppendKeepsChain(s.calls, Call(key, previous, Waiting, false, false));
  }

  lemma EnterKeepsPromises(s: State, key: Key)
    requires Chained(s.calls) && PromisesAgree(s.calls)
    ensures PromisesAgree(Apply(s, Enter(key)).calls)
  {
    var calls' := Apply(s, Enter(key)).calls;
    forall t | 0 <= t < |calls'| && !calls'[t].phase.Waiting? ensures PreviousSettled(calls', t) {
      assert PreviousSettled(s.calls, t);
    }
  }

  lemma EnterKeepsMap(s: State, key: Key)
    requires MapExact(s)
    ensures MapExact(Apply(s, Enter(key)))
  {
    var s' := Apply(s, Enter(key));
    assert forall t | 0 <= t < |s.calls| :: s'.calls[t] == s.calls[t];
  }

  lemma EnterKeepsLog(s: State, key: Key)
    requires LogExact(s)
    ensures LogExact(Apply(s, Enter(key)))
  {
    var s' := Apply(s, Enter(key));
    assert s'.calls[..|s.calls|] == s.calls;
    forall k ensures Project(s'.log, k) == Schedule(s'.calls, k) {
      assert Schedule(s'.calls, k) == Schedule(s.calls, k) + [];
    }
  }

  lemma SettleKeepsOrder(calls: seq<Call>, t: Ticket)
    requires t < |calls| && calls[t].released && InOrder(calls) && Chained(calls) && PromisesAgree(calls)
    ensures var calls' := calls[t := calls[t].(tailSettled := true)];
      InOrder(calls') && Chained(calls') && PromisesAgree(calls')
  {
    var calls' := calls[t := calls[t].(tailSettled := true)];
    forall u | 0 <= u < |calls'| && !calls'[u].phase.Waiting? ensures PreviousSettled(calls', u) {
      assert PreviousSettled(calls, u);
    }
  }

  lemma SettleKeepsLog(s: State, t: Ticket)
    requires Enabled(s, Settle(t)) && LogExact(s)
    ensures LogExact(Apply(s, Settle(t)))
  {
    var s' := Apply(s, Settle(t));
    forall k ensures Project(s'.log, k) == Schedule(s'.calls, k) {
      ScheduleIgnoresOtherKeys(s.calls, t, s'.calls[t], k);
    }
  }

  /** Moving the oldest unfinished call forward keeps the order, the chain and the promises. */
  lemma AdvanceKeepsOrder(calls: seq<Call>, t: Ticket, phase: Phase)
    requires t < |calls| && InOrder(calls) && Chained(calls) && PromisesAgree(calls) && PreviousSettled(calls, t)
    requires !calls[t].phase.Done? && !phase.Waiting?
    ensures var calls' := calls[t := calls[t].(phase := phase, released := phase.Done?)];
      InOrder(calls') && Chained(calls') && PromisesAgree(calls')
  {
    SettledMeansServed(calls, t);
    var calls' := calls[t := calls[t].(phase := phase, released := phase.Done?)];
    assert forall u | 0 <= u < |calls| :: PreviousSettled(calls', u) == PreviousSettled(calls, u);
  }

  lemma AdvanceKeepsLog(s: State, s': State, t: Ticket, m: Mark)
    requires InOrder(s.calls) && LogExact(s) && t < |s.calls| && !s.calls[t].phase.Done?
    requires |s'.calls| == |s.calls| && s'.calls == s.calls[t := s'.calls[t]]
    requires s'.calls[t].key == s.calls[t].key == m.key
    requires Marks(s'.calls[t], t, m.key) == Marks(s.calls[t], t, m.key) + [m] && s'.log == s.log + [m]
    ensures LogExact(s')
  {
    LaterCallsWait(s.calls, t);
    var c := s'.calls[t];
    forall k ensures Project(s'.log, k) == Schedule(s'.calls, k) {
      ProjectSnoc(s.log, m, k);
      if k == c.key { ScheduleGrowsAtEnd(s.calls, t, c, m); } else { ScheduleIgnoresOtherKeys(s.calls, t, c, k); }
    }
  }

  lemma FinishKeepsMap(s: State, t: Ticket, threw: bool)
    requires Enabled(s, Finish(t, threw)) && MapExact(s) && InOrder(s.calls)
    ensures MapExact(Apply(s, Finish(t, threw)))
  {
    LaterCallsWait(s.calls, t);
  }

  lemma ResumeKeepsMap(s: State, t: Ticket)
    requires Enabled(s, Resume(t)) && MapExact(s)
    ensures MapExact(Apply(s, Resume(t)))
  {
  }

  lemma ResumeKeepsInv(s: State, t: Ticket)
    requires Inv(s) && Enabled(s, Resume(t))
    ensures Inv(Apply(s, Resume(t)))
  {
    AdvanceKeepsOrder(s.calls, t, Working);
    assert s.calls[t].(phase := Working, released := false) == s.calls[t].(phase := Working);
    AdvanceKeepsLog(s, Apply(s, Resume(t)), t, Begin(s.calls[t].key, t));
    ResumeKeepsMap(s, t);
  }

  lemma FinishKeepsInv(s: State, t: Ticket, threw: bool)
    requires Inv(s) && Enabled(s, Finish(t, threw))
    ensures Inv(Apply(s, Finish(t, threw)))
  {
    assert PreviousSettled(s.calls, t);
    AdvanceKeepsOrder(s.calls, t, Done(threw));
    AdvanceKeepsLog(s, Apply(s, Finish(t, threw)), t, End(s.calls[t].key, t, threw));
    FinishKeepsMap(s, t, threw);
  }

  lemma StepKeepsInv(s: State, step: Step)
    requires Inv(s) && Enabled(s, step)
    ensures Inv(Apply(s, step))
  {
    match step
    case Enter(key) =>
      EnterKeepsOrder(s, key);
      EnterKeepsPromises(s, key);
      EnterKeepsMap(s, key);
      EnterKeepsLog(s, key);
    case Settle(t) =>
      SettleKeepsOrder(s.calls, t);
      SettleKeepsLog(s, t);
    case Resume(t) => ResumeKeepsInv(s, t);
    case Finish(t, threw) => FinishKeepsInv(s, t, threw);
  }

  lemma {:induction false} RunKeepsInv(s: State, steps: seq<Step>)
    requires Inv(s) && Legal(s, steps)
    ensures Inv(Execute(s, steps))
    decreases |steps|
  {
    if steps != [] {
      StepKeepsInv(s, steps[0]);
      RunKeepsInv(Apply(s, steps[0]), steps[1..]);
    }
  }

  // ---- main results, over every interleaving of any number of callers ----

  /** At most one work runs per key. */
  lemma MutualExclusion(steps: seq<Step>, i: Ticket, j: Ticket)
    requires Legal(INITIAL, steps)
    requires i < |Execute(INITIAL, steps).calls| && j < |Execute(INITIAL, steps).calls|
    requires Execute(INITIAL, steps).calls[i].phase.Working? && Execute(INITIAL, steps).calls[j].phase.Working?
    requires Execute(INITIAL, steps).calls[i].key == Execute(INITIAL, steps).calls[j].key
    ensures i == j
  {
    RunKeepsInv(INITIAL, steps);
  }

  /** Works on a key begin and end one at a time, in call order, whether or not they throw. */
  lemma ServedInCallOrder(steps: seq<Step>, k: Key)
    requires Legal(INITIAL, steps)
    ensures var s := Execute(INITIAL, steps);
      && Project(s.log, k) == Schedule(s.calls, k)
      && forall i, j | 0 <= i < j < |s.calls| && s.calls[i].key == s.calls[j].key == k && !s.calls[j].phase.Waiting? ::
           s.calls[i].phase.Done?
  {
    RunKeepsInv(INITIAL, steps);
  }

  /** The map holds a key exactly while a call on it is unfinished. */
  lemma MapHoldsUnfinishedKeys(steps: seq<Step>, k: Key)
    requires Legal(INITIAL, steps)
    ensures var s := Execute(INITIAL, steps);
      k in s.tails <==> exists t :: 0 <= t < |s.calls| && s.calls[t].key == k && !s.calls[t].phase.Done?
  {
    RunKeepsInv(INITIAL, steps);
    var s := Execute(INITIAL, steps);
    if k in s.tails { assert s.calls[s.tails[k]].key == k; }
  }

  /**
   * Keys never block each other: the oldest unfinished call on a key either runs already or reaches
   * its work in at most two steps, both on that key, whatever state the other keys are in.
   */
  lemma OldestCallCanRun(s: State, t: Ticket) returns (steps: seq<Step>)
    requires Inv(s) && t < |s.calls| && s.calls[t].phase.Waiting?
    requires forall u | 0 <= u < t && s.calls[u].key == s.calls[t].key :: s.calls[u].phase.Done?
    ensures |steps| <= 2 && Legal(s, steps)
    ensures forall i | 0 <= i < |steps| :: steps[i].Settle? || steps[i].Resume?
    ensures forall i | 0 <= i < |steps| :: steps[i].t < |s.calls| && s.calls[steps[i].t].key == s.calls[t].key
    ensures t < |Execute(s, steps).calls| && Execute(s, steps).calls[t].phase.Working?
  {
    if PreviousSettled(s.calls, t) {
      steps := [Resume(t)];
      assert Legal(Apply(s, Resume(t)), steps[1..]);
    } else {
      var p := s.calls[t].previous.value;
      assert PreviousSettled(s.calls, p);
      steps := [Settle(p), Resume(t)];
      var s1 := Apply(s, Settle(p));
      assert steps[1..] == [Resume(t)];
      assert Enabled(s1, Resume(t));
      assert Legal(Apply(s1, Resume(t)), steps[1..][1..]);
      assert Legal(s1, steps[1..]);
      assert Execute(s, steps) == Execute(s1, steps[1..]) == Apply(s1, Resume(t));
    }
  }

  /** A step on one key changes nothing that the calls on another key can see. */
  lemma OtherKeysUntouched(s: State, step: Step, t: Ticket)
    requires Chained(s.calls) && Enabled(s, step) && t < |s.calls| && StepKey(s, step) != s.calls[t].key
    ensures var s' := Apply(s, step); var k := s.calls[t].key;
      && s'.calls[t] == s.calls[t]
      && PreviousSettled(s'.calls, t) == PreviousSettled(s.calls, t)
      && (k in s'.tails <==> k in s.tails) && (k in s.tails ==> s'.tails[k] == s.tails[k])
      && Project(s'.log, k) == Project(s.log, k)
  {
    hide Project;
    var s' := Apply(s, step);
    if step.Resume? || step.Finish? { ProjectSnoc(s.log, s'.log[|s.log|], s.calls[t].key); }
  }

  ghost function Pending(c: Call): nat {
    (match c.phase case Waiting => 2 case Working => 1 case Done(_) => 0) + (if c.tailSettled then 0 else 1)
  }

  ghost function Remaining(calls: seq<Call>): nat {
    if calls == [] then 0 else Remaining(calls[..|calls| - 1]) + Pending(calls[|calls| - 1])
  }

  lemma {:induction false} RemainingUpdate(calls: seq<Call>, t: Ticket, c: Call)
    requires t < |calls|
    ensures Remaining(calls[t := c]) == Remaining(calls) - Pending(calls[t]) + Pending(c)
  {
    var n := |calls| - 1;
    if t < n {
      assert calls[t := c][..n] == calls[..n][t := c];
      RemainingUpdate(calls[..n], t, c);
    } else {
      assert calls[t := c][..n] == calls[..n];
    }
  }

  /** With no new callers every step brings the turnstile one step closer to idle. */
  lemma StepsRunOut(s: State, step: Step)
    requires Inv(s) && Enabled(s, step) && !step.Enter?
    ensures Remaining(Apply(s, step).calls) == Remaining(s.calls) - 1
  {
    RemainingUpdate(s.calls, step.t, Apply(s, step).calls[step.t]);
  }

  /** When nothing but a new caller can move, every call has finished and the map is empty again. */
  lemma QuiescentMeansDrained(s: State)
    requires Inv(s)
    requires forall step :: Enabled(s, step) ==> step.Enter?
    ensures forall t | 0 <= t < |s.calls| :: s.calls[t].phase.Done?
    ensures s.tails == map[]
  {
    forall t | 0 <= t < |s.calls| ensures s.calls[t].phase.Done? { Served(s, t); }
    assert forall k :: k !in s.tails;
  }

  lemma {:induction false} Served(s: State, t: Ticket)
    requires Inv(s) && t < |s.calls|
    requires forall step :: Enabled(s, step) ==> step.Enter?
    ensures s.calls[t].phase.Done?
  {
    forall u | 0 <= u < t ensures s.calls[u].phase.Done? { Served(s, u); }
    assert !Enabled(s, Finish(t, false));
    assert !Enabled(s, Resume(t));
    if s.calls[t].previous.Some? {
      var p := s.calls[t].previous.value;
      assert PreviousSettled(s.calls, p);
      assert !Enabled(s, Settle(p));
    }
  }

  // ---- the code itself ----

  /** The closure state of `createSessionTurnstile`, driven step by step by the event loop. */
  class SessionTurnstile {
    var calls: seq<Call>
    var tails: map<Key, Ticket>
    ghost var log: seq<Mark>

    ghost function Now(): State reads this { State(calls, tails, log) }

    ghost predicate Valid() reads this { Inv(Now()) }

    constructor ()
      ensures Now() == INITIAL && Valid()
    {
      calls, tails, log := [], map[], [];
    }

    method Run(key: Key) returns (ticket: Ticket)
      requires Valid()
      modifies this
      ensures Valid() && Now() == Apply(old(Now()), Enter(key)) && ticket == |old(calls)|
    {
      hide Inv;
      StepKeepsInv(Now(), Enter(key));
      ticket := |calls|;
      var previous := if key in tails then Some(tails[key]) else None;
      calls := calls + [Call(key, previous, Waiting, false, false)];
      tails := tails[key := ticket];
    }

    method SettleTail(t: Ticket)
      requires Valid() && Enabled(Now(), Settle(t))
      modifies this
      ensures Valid() && Now() == Apply(old(Now()), Settle(t))
    {
      hide Inv;
      StepKeepsInv(Now(), Settle(t));
      calls := calls[t := calls[t].(tailSettled := true)];
    }

    method StartWork(t: Ticket)
      requires Valid() && Enabled(Now(), Resume(t))
      modifies this
      ensures Valid() && Now() == Apply(old(Now()), Resume(t))
    {
      hide Inv;
      StepKeepsInv(Now(), Resume(t));
      calls := calls[t := calls[t].(phase := Working)];
      log := log + [Begin(calls[t].key, t)];
    }

    method WorkSettled(t: Ticket, threw: bool)
      requires Valid() && Enabled(Now(), Finish(t, threw))
      modifies this
      ensures Valid() && Now() == Apply(old(Now()), Finish(t, threw))
    {
      hide Inv;
      StepKeepsInv(Now(), Finish(t, threw));
      var key := calls[t].key;
      calls := calls[t := calls[t].(phase := Done(threw), released := true)];
      if key in tails && tails[key] == t {
        tails := tails - {key};
      }
      log := log + [End(key, t, threw)];
    }
  }
}
