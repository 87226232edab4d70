/**
 * Redispatching KEV retries to the job queue: inspect an existing entry, remove it when it is finished,
 * add the job; and the reconciler's pass over all due candidates. Every call to Redis may fail, before
 * or after it took effect. Adding an identifier that is already present is suppressed by the queue.
 */
module Redispatch {
  import opened Numbers
  import opened Text
  import opened Wrappers

  // ---- job identifiers ----

  const EVENT_TYPE := "intelligence.sync.requested.v1"
  const JOB_ID_MAX_LENGTH := 256

  predicate HexDigit(c: char) { '0' <= c <= '9' || 'a' <= c <= 'f' || 'A' <= c <= 'F' }

  /** Hexadecimal digits with dashes after 8, 12, 16 and 20 of them, and a known version and variant. */
  predicate IsUuid(s: string) {
    && |s| == 36
    && (forall i | 0 <= i < 36 :: if i in {8, 13, 18, 23} then s[i] == '-' else HexDigit(s[i]))
    && '1' <= s[14] <= '8' && s[19] in {'8', '9', 'a', 'b', 'A', 'B'}
  }

  datatype JobId = JobId(text: string)

  function RetrySuffix(attempt: nat): string { if attempt == 0 then "" else "__retry__" + DecimalText(attempt) }

  /** The initial delivery for attempt 0, a numbered retry after that; malformed candidates have none. */
  function RedispatchJobId(outboxEventId: string, attempt: int): Option<JobId> {
    if !(0 <= attempt <= MAX_SAFE_INTEGER) || !IsUuid(outboxEventId) then None
    else
      var text := EVENT_TYPE + "__" + outboxEventId + RetrySuffix(attempt);
      if attempt > 0 && |text| > JOB_ID_MAX_LENGTH then None else Some(JobId(text))
  }

  lemma SameParts(prefix: string, a: string, b: string, c: string, d: string)
    requires |a| == |c| && prefix + a + b == prefix + c + d
    ensures a == c && b == d
  {
    var s := prefix + a + b;
    assert s[|prefix|..|prefix| + |a|] == a && s[|prefix| + |a|..] == b;
    assert (prefix + c + d)[|prefix|..|prefix| + |c|] == c && (prefix + c + d)[|prefix| + |c|..] == d;
  }

  lemma RetrySuffixIsInjective(m: nat, n: nat)
    requires RetrySuffix(m) == RetrySuffix(n)
    ensures m == n
  {
    hide DecimalText;
    if m > 0 && n > 0 {
      assert "__retry__" + "" + DecimalText(m) == RetrySuffix(m) && "__retry__" + "" + DecimalText(n) == RetrySuffix(n);
      SameParts("__retry__", "", DecimalText(m), "", DecimalText(n));
      DecimalIsInjective(m, n);
    }
  }

  lemma {:induction false} DecimalLength(n: nat, digits: nat, bound: nat)
    requires n < bound && bound == Power10(digits) && digits >= 1
    ensures |DecimalText(n)| <= digits
    decreases digits
  {
    if n >= 10 { DecimalLength(n / 10, digits - 1, bound / 10); }
  }

  function Power10(k: nat): nat { if k == 0 then 1 else 10 * Power10(k - 1) }

  lemma SixteenDigits()
    ensures Power10(16) == 10_000_000_000_000_000
  {
    assert Power10(4) == 10_000;
    assert Power10(8) == 100_000_000;
    assert Power10(12) == 1_000_000_000_000;
  }

  /**
   * A candidate has an identifier exactly when its event is a UUID and its attempt a safe integer: the bound on the
   * length is never reached. It spells the type, the event and, for a retry, its number.
   */
  lemma ValidCandidatesHaveIds(event: string, attempt: int)
    ensures IdOf(Candidate(event, attempt)).Some? <==> IsUuid(event) && 0 <= attempt <= MAX_SAFE_INTEGER
    ensures IdOf(Candidate(event, attempt)).Some? ==>
      IdOf(Candidate(event, attempt)).value.text
        == "intelligence.sync.requested.v1__" + event + if attempt == 0 then "" else "__retry__" + DecimalText(attempt)
  {
    if IsUuid(event) && 0 < attempt <= MAX_SAFE_INTEGER {
      hide DecimalText;
      SixteenDigits();
      DecimalLength(attempt, 16, 10_000_000_000_000_000);
    }
    assert "intelligence.sync.requested.v1__" == EVENT_TYPE + "__";
  }

  /** Two candidates share a queue identifier only when they are the same delivery of the same event. */
  lemma JobIdsAreDistinct(event1: string, attempt1: int, event2: string, attempt2: int)
    requires RedispatchJobId(event1, attempt1).Some?
    requires RedispatchJobId(event1, attempt1) == RedispatchJobId(event2, attempt2)
    ensures event1 == event2 && attempt1 == attempt2
  {
    hide RetrySuffix;
    SameParts(EVENT_TYPE + "__", event1, RetrySuffix(attempt1), event2, RetrySuffix(attempt2));
    RetrySuffixIsInjective(attempt1, attempt2);
  }

  // ---- one call, uninterrupted ----

  datatype JobState =
    | Active | Delayed | Paused | Waiting | WaitingChildren
    | Completed | Failed
    | Unrecognised   // any other answer of getState, or an entry without one

  predicate Live(state: JobState) {
    state.Active? || state.Delayed? || state.Paused? || state.Waiting? || state.WaitingChildren?
  }

  type Jobs = map<JobId, JobState>

  predicate IsLive(jobs: Jobs, id: JobId) { id in jobs && Live(jobs[id]) }

  predicate IsUnrecognised(jobs: Jobs, id: JobId) { id in jobs && jobs[id] == Unrecognised }

  /** A failed call to Redis: the error may say the job exists, and the effect may have happened all the same. */
  datatype Fault = Fault(duplicate: bool, applied: bool)

  datatype Faults = Faults(getJob: Option<Fault>, getState: Option<Fault>, remove: Option<Fault>, add: Option<Fault>)

  const NO_FAULTS := Faults(None, None, None, None)

  datatype Added = Ok(duplicate: bool) | Unavailable

  function Caught(f: Fault): Added { if f.duplicate then Ok(true) else Unavailable }

  /** What the queue holds after its own add: a present identifier suppresses the new entry. */
  function Enqueue(jobs: Jobs, id: JobId, delayed: bool): Jobs {
    if id in jobs then jobs else jobs[id := if delayed then Delayed else Waiting]
  }

  /** What `add` leaves in the queue and reports. */
  function Add(jobs: Jobs, id: JobId, delayed: bool, faults: Faults): (Jobs, Added) {
    if faults.getJob.Some? then (jobs, Caught(faults.getJob.value))
    else if id in jobs && faults.getState.Some? then (jobs, Caught(faults.getState.value))
    else if id in jobs && jobs[id] != Completed && jobs[id] != Failed then (jobs, Ok(true))
    else if id in jobs && faults.remove.Some? then
      (if faults.remove.value.applied then jobs - {id} else jobs, Caught(faults.remove.value))
    else if faults.add.Some? then
      (if faults.add.value.applied then Enqueue(jobs - {id}, id, delayed) else jobs - {id}, Caught(faults.add.value))
    else (Enqueue(jobs - {id}, id, delayed), Ok(false))
  }

  /** An add touches its own identifier only, and neither a live entry nor one it does not recognise. */
  lemma AddTouches(jobs: Jobs, id: JobId, delayed: bool, faults: Faults, other: JobId)
    ensures var (after, added) := Add(jobs, id, delayed, faults);
      && (other != id || IsLive(jobs, id) || IsUnrecognised(jobs, id) ==>
            (other in after <==> other in jobs) && (other in jobs ==> after[other] == jobs[other]))
      && (IsUnrecognised(after, other) ==> IsUnrecognised(jobs, other))
      && (added == Ok(false) ==> IsLive(after, id) && !IsLive(jobs, id))
  {}

  /** With Redis reachable, the identifier is live afterwards exactly unless its state was not recognised. */
  lemma AddMakesLive(jobs: Jobs, id: JobId, delayed: bool)
    ensures Add(jobs, id, delayed, NO_FAULTS).1.Ok?
    ensures IsLive(Add(jobs, id, delayed, NO_FAULTS).0, id) <==> !IsUnrecognised(jobs, id)
  {}

  /**
   * With Redis reachable, an add is a duplicate and changes nothing exactly when there is an entry that is not
   * finished; otherwise the one entry it leaves for the identifier is delayed or waiting, as it was asked for.
   */
  lemma AddLeaves(jobs: Jobs, id: JobId, delayed: bool)
    ensures var (after, added) := Add(jobs, id, delayed, NO_FAULTS);
      if id in jobs && jobs[id] != Completed && jobs[id] != Failed
      then after == jobs && added == Ok(true)
      else after == jobs[id := if delayed then Delayed else Waiting] && added == Ok(false)
  {}

  /** An unreachable call loses the entry only if it had finished, and reports a duplicate only if told so. */
  lemma FailedAddLeaves(jobs: Jobs, id: JobId, delayed: bool, faults: Faults)
    ensures var (after, added) := Add(jobs, id, delayed, faults);
      && (after == jobs || after == jobs - {id} || after == jobs[id := if delayed then Delayed else Waiting])
      && (added == Unavailable ==> exists f :: Met(faults, f) && !f.duplicate)
      && (added == Ok(true) ==>
            (id in jobs && jobs[id] != Completed && jobs[id] != Failed) || exists f :: Met(faults, f) && f.duplicate)
  {
    if faults.getJob.Some? {
      assert Met(faults, faults.getJob.value);
    } else if id in jobs && faults.getState.Some? {
      assert Met(faults, faults.getState.value);
    } else if id in jobs && faults.remove.Some? {
      assert Met(faults, faults.remove.value);
    } else if faults.add.Some? {
      assert Met(faults, faults.add.value);
    }
  }

  predicate Met(faults: Faults, f: Fault) {
    Some(f) in [faults.getJob, faults.getState, faults.remove, faults.add]
  }

  // ---- a reconciler pass ----

  datatype Candidate = Candidate(outboxEventId: string, attempt: int)

  function IdOf(c: Candidate): Option<JobId> { RedispatchJobId(c.outboxEventId, c.attempt) }

  datatype Outcome = InvalidLocator | RedisUnavailable | Redispatched

  /** The queue after the candidates have been handled in order, candidate j meeting the failures faults[j]. */
  function Pass(jobs: Jobs, candidates: seq<Candidate>, faults: seq<Faults>): Jobs
    requires |faults| == |candidates|
    decreases |candidates|
  {
    if candidates == [] then jobs
    else
      var id := IdOf(candidates[0]);
      Pass(if id.None? then jobs else Add(jobs, id.value, false, faults[0]).0, candidates[1..], faults[1..])
  }

  lemma {:induction false} PassLeaves(jobs: Jobs, candidates: seq<Candidate>, faults: seq<Faults>, id: JobId)
    requires |faults| == |candidates|
    requires IsLive(jobs, id) || IsUnrecognised(jobs, id) || forall c | c in candidates :: IdOf(c) != Some(id)
    ensures var after := Pass(jobs, candidates, faults);
      (id in after <==> id in jobs) && (id in jobs ==> after[id] == jobs[id])
    decreases |candidates|
  {
    hide IdOf, Add;
    if candidates != [] {
      var head := IdOf(candidates[0]);
      if head.Some? { AddTouches(jobs, head.value, false, faults[0], id); }
      var next := if head.None? then jobs else Add(jobs, head.value, false, faults[0]).0;
      PassLeaves(next, candidates[1..], faults[1..], id);
    }
  }

  /**
   * Whatever happens to the other candidates, one whose calls to Redis all succeed has a live entry after
   * the pass if and only if its entry was not in an unrecognised state before.
   */
  lemma {:induction false} ReachableCandidateIsLive(jobs: Jobs, candidates: seq<Candidate>, faults: seq<Faults>, j: nat)
    requires |faults| == |candidates| && j < |candidates| && IdOf(candidates[j]).Some? && faults[j] == NO_FAULTS
    ensures IsLive(Pass(jobs, candidates, faults), IdOf(candidates[j]).value)
       <==> !IsUnrecognised(jobs, IdOf(candidates[j]).value)
    decreases |candidates|
  {
    hide IdOf, Add;
    var id := IdOf(candidates[j]).value;
    var head := IdOf(candidates[0]);
    var next := if head.None? then jobs else Add(jobs, head.value, false, faults[0]).0;
    if IsUnrecognised(jobs, id) {
      PassLeaves(jobs, candidates, faults, id);
    } else if j == 0 {
      AddMakesLive(jobs, id, false);
      PassLeaves(next, candidates[1..], faults[1..], id);
    } else {
      if head.Some? { AddTouches(jobs, head.value, false, faults[0], id); }
      ReachableCandidateIsLive(next, candidates[1..], faults[1..], j - 1);
    }
  }

  class RedispatchQueue {
    var jobs: Jobs

    constructor (jobs: Jobs)
      ensures this.jobs == jobs
    {
      this.jobs := jobs;
    }

    /** `add`: inspects, removes a finished entry and enqueues; every failure is caught and reported. */
    method AddJob(id: JobId, delayed: bool, faults: Faults) returns (added: Added)
      modifies this
      ensures (jobs, added) == Add(old(jobs), id, delayed, faults)
    {
      if faults.getJob.Some? { return Caught(faults.getJob.value); }
      if id in jobs {
        if faults.getState.Some? { return Caught(faults.getState.value); }
        var state := jobs[id];
        if Live(state) { return Ok(true); }
        if state != Completed && state != Failed { return Ok(true); }
        if faults.remove.Some? {
          if faults.remove.value.applied { jobs := jobs - {id}; }
          return Caught(faults.remove.value);
        }
        jobs := jobs - {id};
      } else {
        assert jobs - {id} == jobs;
      }
      if faults.add.Some? {
        if faults.add.value.applied { jobs := Enqueue(jobs, id, delayed); }
        return Caught(faults.add.value);
      }
      jobs := Enqueue(jobs, id, delayed);
      added := Ok(false);
    }

    /**
     * One pass. Stop is noticed before candidate `stopBefore`; up to there each candidate gets its own
     * outcome, and a failing one does not keep the next from being handled.
     */
    method RunPass(candidates: seq<Candidate>, faults: seq<Faults>, stopBefore: nat)
      returns (outcomes: seq<Outcome>, redispatched: nat)
      requires |faults| == |candidates|
      modifies this
      ensures |outcomes| == if stopBefore < |candidates| then stopBefore else |candidates|
      ensures jobs == Pass(old(jobs), candidates[..|outcomes|], faults[..|outcomes|])
      ensures redispatched == |Only(outcomes)|
      ensures forall j | 0 <= j < |outcomes| :: outcomes[j] == InvalidLocator <==> IdOf(candidates[j]).None?
      ensures forall j | 0 <= j < |outcomes| && faults[j] == NO_FAULTS :: outcomes[j] != RedisUnavailable
      ensures forall j | 0 <= j < |outcomes| ::
                outcomes[j] == Told(Pass(old(jobs), candidates[..j], faults[..j]), candidates[j], faults[j])
    {
      hide IdOf, Add, Told, Pass, Only;
      outcomes, redispatched := [], 0;
      var i := 0;
      NoneHandled(jobs, candidates, faults);
      while i < |candidates| && i < stopBefore
        invariant i <= |candidates| && i <= stopBefore && |outcomes| == i
        invariant redispatched == |Only(outcomes)|
        invariant jobs == Pass(old(jobs), candidates[..i], faults[..i])
        invariant forall j | 0 <= j < i ::
                    outcomes[j] == Told(Pass(old(jobs), candidates[..j], faults[..j]), candidates[j], faults[j])
      {
        PassOneMore(old(jobs), candidates, faults, i);
        var outcome := HandleCandidate(candidates[i], faults[i]);
        OnlySnoc(outcomes, outcome);
        if outcome == Redispatched { redispatched := redispatched + 1; }
        outcomes := outcomes + [outcome];
        i := i + 1;
      }
      forall j | 0 <= j < |outcomes|
        ensures outcomes[j] == InvalidLocator <==> IdOf(candidates[j]).None?
        ensures faults[j] == NO_FAULTS ==> outcomes[j] != RedisUnavailable
      {
        ToldWithoutFaults(Pass(old(jobs), candidates[..j], faults[..j]), candidates[j], faults[j]);
      }
    }

    /** One turn of the pass: a candidate without an identifier is passed over, another one is added. */
    method HandleCandidate(c: Candidate, faults: Faults) returns (outcome: Outcome)
      modifies this
      ensures outcome == Told(old(jobs), c, faults)
      ensures jobs == if IdOf(c).None? then old(jobs) else Add(old(jobs), IdOf(c).value, false, faults).0
    {
      hide IdOf, Add;
      var id := IdOf(c);
      if id.None? { return InvalidLocator; }
      var published := AddJob(id.value, false, faults);
      outcome := if published.Ok? then Redispatched else RedisUnavailable;
    }
  }

  lemma NoneHandled(jobs: Jobs, candidates: seq<Candidate>, faults: seq<Faults>)
    requires |faults| == |candidates|
    ensures Pass(jobs, candidates[..0], faults[..0]) == jobs && Only([]) == []
  {
  }

  lemma OnlySnoc(outcomes: seq<Outcome>, outcome: Outcome)
    ensures Only(outcomes + [outcome]) == Only(outcomes) + if outcome == Redispatched then [Redispatched] else []
  {
    assert (outcomes + [outcome])[..|outcomes|] == outcomes;
  }

  lemma ToldWithoutFaults(jobs: Jobs, c: Candidate, faults: Faults)
    ensures Told(jobs, c, faults) == InvalidLocator <==> IdOf(c).None?
    ensures faults == NO_FAULTS ==> Told(jobs, c, faults) != RedisUnavailable
  {
    hide IdOf;
  }

  /** What a candidate met with the queue like this is told. */
  function Told(jobs: Jobs, c: Candidate, faults: Faults): Outcome {
    if IdOf(c).None? then InvalidLocator
    else if Add(jobs, IdOf(c).value, false, faults).1.Ok? then Redispatched else RedisUnavailable
  }

  /** The redispatched ones among the outcomes. */
  function Only(outcomes: seq<Outcome>): seq<Outcome> {
    if outcomes == [] then []
    else Only(outcomes[..|outcomes| - 1]) + if outcomes[|outcomes| - 1] == Redispatched then [Redispatched] else []
  }

  lemma {:induction false} PassConcat(jobs: Jobs, candidates: seq<Candidate>, faults: seq<Faults>, c: Candidate,
                                      f: Faults)
    requires |faults| == |candidates|
    ensures Pass(jobs, candidates + [c], faults + [f])
         == var before := Pass(jobs, candidates, faults);
            if IdOf(c).None? then before else Add(before, IdOf(c).value, false, f).0
    decreases |candidates|
  {
    hide IdOf, Add;
    if candidates == [] {
      assert (candidates + [c])[1..] == [] && (faults + [f])[1..] == [];
    } else {
      var head := IdOf(candidates[0]);
      assert (candidates + [c])[1..] == candidates[1..] + [c] && (faults + [f])[1..] == faults[1..] + [f];
      var next := if head.None? then jobs else Add(jobs, head.value, false, faults[0]).0;
      PassConcat(next, candidates[1..], faults[1..], c, f);
    }
  }

  lemma PassOneMore(jobs: Jobs, candidates: seq<Candidate>, faults: seq<Faults>, i: nat)
    requires |faults| == |candidates| && i < |candidates|
    ensures Pass(jobs, candidates[..i + 1], faults[..i + 1])
         == var before := Pass(jobs, candidates[..i], faults[..i]);
            if IdOf(candidates[i]).None? then before else Add(before, IdOf(candidates[i]).value, false, faults[i]).0
  {
    hide IdOf, Add;
    assert candidates[..i + 1] == candidates[..i] + [candidates[i]] && faults[..i + 1] == faults[..i] + [faults[i]];
    PassConcat(jobs, candidates[..i], faults[..i], candidates[i], faults[i]);
  }
}
