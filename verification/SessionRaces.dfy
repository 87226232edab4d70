/**
 * Requests in flight when a session is revoked or its token is rotated away. The guards of a resolve are
 * checked on a copy, so a resolve that is far enough still succeeds: exactly how far is far enough. And
 * rotations that a later use overtakes, which set the session's last-seen time back.
 */
module SessionRaces {
  import opened Wrappers
  import opened SessionStore
  import opened SessionLifecycle

  /** What a logout or a rotation takes away. */
  datatype Target = OfId(id: nat) | OfToken(hash: Digest)

  /** The session was revoked, or the token rotated away, at some point of the log. */
  ghost predicate Gone(log: seq<Event>, target: Target) {
    match target
    case OfId(id) => exists i :: 0 <= i < |log| && log[i] == Revoked(id)
    case OfToken(hash) => exists i :: 0 <= i < |log| && log[i].Moved? && log[i].from == hash
  }

  predicate On(copy: Session, target: Target) {
    match target case OfId(id) => copy.id == id case OfToken(hash) => copy.tokenHash == hash
  }

  ghost predicate ResolvedSince(log: seq<Event>, n: nat, target: Target) {
    exists j :: n <= j < |log| && log[j].Resolved? &&
      match target case OfId(id) => log[j].id == id case OfToken(hash) => log[j].hash == hash
  }

  /** The guards have been passed on a copy of it, or the copy is held and passes them now. */
  predicate InFlight(s: State, p: nat, target: Target) {
    p in s.processes &&
    var process := s.processes[p];
    (process.Checked? && On(process.copy, target))
    || (process.Found? && On(process.copy, target) && Passes(process.copy, s.clock))
  }

  /** Only the lookup, the guards and the write of request p. */
  predicate OwnSteps(p: nat, steps: seq<Step>) {
    forall i | 0 <= i < |steps| :: steps[i] in {Find(p), Check(p), Touch(p)}
  }

  /** Request p resolves the target by its remaining steps. */
  ghost predicate Resolves(c: Config, s: State, p: nat, steps: seq<Step>, target: Target) {
    OwnSteps(p, steps) && Legal(c, s, steps) && ResolvedSince(Execute(c, s, steps).log, |s.log|, target)
  }

  /** A session found in the store after it is gone does not pass: it is revoked, or under another token. */
  lemma FoundLate(c: Config, s: State, target: Target)
    requires Inv(c, s) && Gone(s.log, target)
    ensures forall hash | hash in s.store && On(s.store[hash], target) :: !Passes(s.store[hash], s.clock)
  {
    forall hash | hash in s.store && On(s.store[hash], target) ensures !Passes(s.store[hash], s.clock) {
      assert RecordOk(c, s, hash, s.store[hash]);
    }
  }

  /** A request that has left, or is past its write, has none of these steps left. */
  lemma NoOwnSteps(c: Config, s: State, p: nat, steps: seq<Step>)
    requires OwnSteps(p, steps) && Legal(c, s, steps)
    requires p !in s.processes || s.processes[p].Settled?
    ensures steps == []
  {
  }

  lemma OwnStep(c: Config, s: State, p: nat, step: Step)
    requires step in {Find(p), Check(p), Touch(p)} && Enabled(s, step)
    ensures var s' := Apply(c, s, step);
      && (!step.Touch? ==> s'.log == s.log && (p in s'.processes ==> step.Find? || step.Check?))
      && (step.Touch? ==> p !in s'.processes || s'.processes[p].Settled?)
      && (step.Find? && p in s'.processes ==>
            && s.processes[p].hash in s.store
            && s'.processes[p] == Found(s.store[s.processes[p].hash], |s.log|, s.processes[p].goal))
      && (step.Check? && p in s'.processes ==>
            && s'.processes[p].Checked? && s'.processes[p].copy == s.processes[p].copy
            && Passes(s.processes[p].copy, s.clock))
      && (step.Touch? ==>
            var q := s.processes[p]; s'.log == s.log + [Resolved(q.copy.id, q.copy.tokenHash, q.now, q.found)])
      && s'.clock == s.clock
  {
    hide Throttle;
  }

  lemma {:induction false} OnlyInFlight(c: Config, s: State, p: nat, steps: seq<Step>, target: Target)
    requires Inv(c, s) && Gone(s.log, target) && Resolves(c, s, p, steps, target)
    ensures InFlight(s, p, target)
    decreases |steps|
  {
    hide Inv, Apply;
    var step, rest := steps[0], steps[1..];
    var s' := Apply(c, s, step);
    assert OwnSteps(p, rest) by { assert forall i | 0 <= i < |rest| :: rest[i] == steps[i + 1]; }
    OwnStep(c, s, p, step);
    if step.Touch? || p !in s'.processes {
      NoOwnSteps(c, s', p, rest);
      assert Execute(c, s, steps) == s';
    } else {
      StepKeepsInv(c, s, step);
      FoundLate(c, s, target);
      OnlyInFlight(c, s', p, rest, target);
    }
  }

  lemma InFlightResolves(c: Config, s: State, p: nat, target: Target) returns (steps: seq<Step>)
    requires InFlight(s, p, target)
    ensures Resolves(c, s, p, steps, target)
  {
    if s.processes[p].Checked? {
      Chain(c, s, Touch(p), [], Apply(c, s, Touch(p)));
      steps := [Touch(p)];
    } else {
      var checked := Apply(c, s, Check(p));
      var end := Apply(c, checked, Touch(p));
      Chain(c, checked, Touch(p), [], end);
      Chain(c, s, Check(p), [Touch(p)], end);
      steps := [Check(p), Touch(p)];
      assert [Check(p)] + [Touch(p)] == steps;
    }
    assert Execute(c, s, steps).log[|s.log|].Resolved?;
  }

  /**
   * Over every run: once a session is revoked, or a token rotated away, the remaining steps of a request
   * resolve it if and only if the request has passed its guards on a copy of it, or holds a copy that
   * passes them. A request that has not looked it up yet never does.
   */
  lemma ResolvesWhenGoneIff(c: Config, steps: seq<Step>, p: nat, target: Target)
    requires Legal(c, INITIAL, steps) && Gone(Execute(c, INITIAL, steps).log, target)
    ensures (exists own :: Resolves(c, Execute(c, INITIAL, steps), p, own, target))
       <==> InFlight(Execute(c, INITIAL, steps), p, target)
  {
    var s := Execute(c, INITIAL, steps);
    RunKeepsInv(c, INITIAL, steps);
    if own :| Resolves(c, s, p, own, target) { OnlyInFlight(c, s, p, own, target); }
    if InFlight(s, p, target) { var own := InFlightResolves(c, s, p, target); }
  }

  // ---- such requests exist ----

  /** From any state, a login opens a session that can be used at once. */
  lemma LoginOpens(c: Config, s: State, p: nat, userId: nat, token: string, csrf: string) returns (steps: seq<Step>)
    requires p !in s.processes && OfSession(token) !in s.issued && c.absoluteTtl > 0 && c.idleTtl > 0
    ensures Legal(c, s, steps)
    ensures var t := Execute(c, s, steps);
      && t.processes == s.processes && t.clock == s.clock
      && OfSession(token) in t.store && Passes(t.store[OfSession(token)], t.clock) && OfSession(token) in t.issued
  {
    var s1 := Apply(c, s, StartLogin(p, userId));
    var s2 := Apply(c, s1, GenerateLogin(p, token, csrf, None, 1));
    var s3 := Apply(c, s2, Create(p));
    assert s3.processes == s.processes;
    Chain(c, s2, Create(p), [], s3);
    Chain(c, s1, GenerateLogin(p, token, csrf, None, 1), [Create(p)] + [], s3);
    Chain(c, s, StartLogin(p, userId), [GenerateLogin(p, token, csrf, None, 1)] + ([Create(p)] + []), s3);
    steps := [StartLogin(p, userId)] + ([GenerateLogin(p, token, csrf, None, 1)] + ([Create(p)] + []));
  }

  /** From any state with a usable session, a request looks it up and passes its guards. */
  lemma RequestChecks(c: Config, s: State, p: nat, token: string, goal: Goal) returns (steps: seq<Step>)
    requires p !in s.processes && |token| > 0
    requires OfSession(token) in s.store && Passes(s.store[OfSession(token)], s.clock)
    ensures Legal(c, s, steps)
    ensures Execute(c, s, steps)
         == s.(processes := s.processes[p := Checked(s.store[OfSession(token)], s.clock, |s.log|, goal)])
  {
    var s1 := Apply(c, s, StartResolve(p, token, goal));
    var s2 := Apply(c, s1, Find(p));
    var s3 := Apply(c, s2, Check(p));
    assert s3.processes == s.processes[p := Checked(s.store[OfSession(token)], s.clock, |s.log|, goal)];
    Chain(c, s2, Check(p), [], s3);
    Chain(c, s1, Find(p), [Check(p)] + [], s3);
    Chain(c, s, StartResolve(p, token, goal), [Find(p)] + ([Check(p)] + []), s3);
    steps := [StartResolve(p, token, goal)] + ([Find(p)] + ([Check(p)] + []));
  }

  /** From any state with a usable session, a logout overtakes a request that has passed its guards. */
  lemma LogoutOvertakes(c: Config, s: State, p: nat, q: nat, token: string) returns (steps: seq<Step>)
    requires p != q && p !in s.processes && q !in s.processes && |token| > 0
    requires OfSession(token) in s.store && Passes(s.store[OfSession(token)], s.clock)
    ensures Legal(c, s, steps)
    ensures var t := Execute(c, s, steps); var id := s.store[OfSession(token)].id;
      t.log == s.log + [Revoked(id)] && Gone(t.log, OfId(id)) && InFlight(t, p, OfId(id))
  {
    var checking := RequestChecks(c, s, p, token, Resolve);
    var s1 := Execute(c, s, checking);
    var s2 := Apply(c, s1, StartLogout(q, token));
    var s3 := Apply(c, s2, Logout(q));
    Chain(c, s2, Logout(q), [], s3);
    Chain(c, s1, StartLogout(q, token), [Logout(q)] + [], s3);
    Join(c, s, checking, [StartLogout(q, token)] + ([Logout(q)] + []));
    steps := checking + ([StartLogout(q, token)] + ([Logout(q)] + []));
    assert s3.log[|s.log|] == Revoked(s.store[OfSession(token)].id);
  }

  /** The steps of an organization switch from its write on. */
  lemma SwitchMoves(c: Config, s: State, q: nat, organizationId: nat, next: string, csrf: string)
    returns (steps: seq<Step>)
    requires q in s.processes && s.processes[q].Checked? && s.processes[q].goal == Select(organizationId)
    requires Live(s.store, s.processes[q].copy.tokenHash) && OfSession(next) !in s.issued
    ensures Legal(c, s, steps)
    ensures var t := Execute(c, s, steps); var hash := s.processes[q].copy.tokenHash;
      && |t.log| == |s.log| + 2 && s.log <= t.log && t.log[|s.log| + 1] == Moved(s.store[hash].id, hash)
      && t.clock == s.clock && t.processes == s.processes - {q}
  {
    var hash := s.processes[q].copy.tokenHash;
    var s1 := Apply(c, s, Touch(q));
    var s2 := Apply(c, s1, GenerateSelect(q, next, csrf));
    var s3 := Apply(c, s2, Move(q));
    assert Live(s1.store, hash) && s1.store[hash].id == s.store[hash].id;
    assert s3.processes == s.processes - {q};
    Chain(c, s2, Move(q), [], s3);
    Chain(c, s1, GenerateSelect(q, next, csrf), [Move(q)] + [], s3);
    Chain(c, s, Touch(q), [GenerateSelect(q, next, csrf)] + ([Move(q)] + []), s3);
    steps := [Touch(q)] + ([GenerateSelect(q, next, csrf)] + ([Move(q)] + []));
  }

  /** From any state with a usable session, an organization switch overtakes such a request as well. */
  lemma RotationOvertakes(c: Config, s: State, p: nat, q: nat, token: string, next: string, csrf: string,
                          organizationId: nat)
    returns (steps: seq<Step>)
    requires p != q && p !in s.processes && q !in s.processes && |token| > 0 && OfSession(next) !in s.issued
    requires OfSession(token) in s.store && Passes(s.store[OfSession(token)], s.clock)
    requires s.store[OfSession(token)].tokenHash == OfSession(token)
    ensures Legal(c, s, steps)
    ensures var t := Execute(c, s, steps); var target := OfToken(OfSession(token));
      Gone(t.log, target) && InFlight(t, p, target)
  {
    hide Execute, Legal, Apply;
    var hash := OfSession(token);
    var first := RequestChecks(c, s, p, token, Resolve);
    var s1 := Execute(c, s, first);
    var second := RequestChecks(c, s1, q, token, Select(organizationId));
    var s2 := Execute(c, s1, second);
    var third := SwitchMoves(c, s2, q, organizationId, next, csrf);
    var s3 := Execute(c, s2, third);
    Join(c, s1, second, third);
    Join(c, s, first, second + third);
    steps := first + (second + third);
    assert s3.log[|s.log| + 1].Moved? && s3.processes[p] == s1.processes[p];
  }

  // ---- last-seen times that go back ----

  /** Request p is about to rotate this session to a time before it was last seen. */
  predicate TurnsBack(s: State, step: Step, hash: Digest) {
    step.Move? && step.p in s.processes && s.processes[step.p].Rotating? && s.processes[step.p].hash == hash
    && Live(s.store, hash) && s.processes[step.p].now < s.store[hash].lastSeenAt
  }

  lemma OneRecordPerId(c: Config, s: State, h: Digest, g: Digest)
    requires Inv(c, s) && h in s.store && g in s.store && s.store[h].id == s.store[g].id
    ensures h == g
  {
    hide RecordOk, LogOk, ProcessesOk, Claims;
  }

  lemma CreatedIsNew(c: Config, s: State, p: nat, h: Digest)
    requires Inv(c, s) && Enabled(s, Create(p)) && h in s.store
    ensures s.processes[p].record.id != s.store[h].id && s.processes[p].record.tokenHash !in s.store
  {
    hide StoreOk, LogOk, Claims, RecordOk;
    assert ProcessOk(c, s, s.processes[p]);
    assert s.store[h].id in Ids(s.store);
  }

  lemma NextIsFree(c: Config, s: State, p: nat)
    requires Inv(c, s) && Enabled(s, Move(p))
    ensures s.processes[p].next !in s.store
  {
    hide StoreOk, LogOk, Claims, RecordOk;
    assert ProcessOk(c, s, s.processes[p]);
  }

  lemma InPlaceKeepsLastSeen(c: Config, s: State, step: Step, h: Digest)
    requires Enabled(s, step) && !step.Create? && !step.Move? && h in s.store
    ensures Apply(c, s, step).store.Keys == s.store.Keys
    ensures Apply(c, s, step).store[h].id == s.store[h].id
    ensures Apply(c, s, step).store[h].lastSeenAt >= s.store[h].lastSeenAt
  {
  }

  lemma MoveSetsLastSeen(c: Config, s: State, p: nat, h: Digest)
    requires Enabled(s, Move(p)) && h in s.store && s.processes[p].next !in s.store
    ensures var r := s.processes[p]; var store := Apply(c, s, Move(p)).store;
      if r.hash == h && Live(s.store, h)
      then r.next in store && store[r.next].id == s.store[h].id && store[r.next].lastSeenAt == r.now
      else h in store && store[h] == s.store[h]
  {
  }

  /** Every step but a rotation that a later use overtook leaves last-seen where it was or moves it on. */
  lemma StepTurnsBackIff(c: Config, s: State, step: Step, h: Digest, g: Digest)
    requires Inv(c, s) && Enabled(s, step) && h in s.store && g in Apply(c, s, step).store
    requires Apply(c, s, step).store[g].id == s.store[h].id
    ensures Apply(c, s, step).store[g].lastSeenAt < s.store[h].lastSeenAt <==> TurnsBack(s, step, h)
  {
    hide Inv, Rotate, Throttle;
    var s' := Apply(c, s, step);
    StepKeepsInv(c, s, step);
    if step.Create? {
      CreatedIsNew(c, s, step.p, h);
      OneRecordPerId(c, s', h, g);
    } else if step.Move? {
      NextIsFree(c, s, step.p);
      MoveSetsLastSeen(c, s, step.p, h);
      hide Apply;
      var k := if s.processes[step.p].hash == h && Live(s.store, h) then s.processes[step.p].next else h;
      OneRecordPerId(c, s', k, g);
    } else {
      hide Apply;
      InPlaceKeepsLastSeen(c, s, step, h);
      OneRecordPerId(c, s', h, g);
    }
  }

  /**
   * Over every run: the last-seen time of a session, and its idle expiry with it, goes back if and only if
   * a rotation takes effect that had read its clock before the session was last seen.
   */
  lemma LastSeenGoesBackIff(c: Config, steps: seq<Step>, step: Step, h: Digest, g: Digest)
    requires Legal(c, INITIAL, steps) && Enabled(Execute(c, INITIAL, steps), step)
    requires h in Execute(c, INITIAL, steps).store && g in Apply(c, Execute(c, INITIAL, steps), step).store
    requires Apply(c, Execute(c, INITIAL, steps), step).store[g].id == Execute(c, INITIAL, steps).store[h].id
    ensures var s := Execute(c, INITIAL, steps); var s' := Apply(c, s, step);
      && (s'.store[g].lastSeenAt < s.store[h].lastSeenAt <==> TurnsBack(s, step, h))
      && (s'.store[g].idleExpiresAt < s.store[h].idleExpiresAt <==> TurnsBack(s, step, h))
  {
    hide Execute, Legal, Apply, Inv, TurnsBack;
    var s := Execute(c, INITIAL, steps);
    RunKeepsInv(c, INITIAL, steps);
    StepTurnsBackIff(c, s, step, h, g);
    StepKeepsInv(c, s, step);
    StoredIsTimed(c, s, h);
    StoredIsTimed(c, Apply(c, s, step), g);
  }

  lemma StoredIsTimed(c: Config, s: State, h: Digest)
    requires Inv(c, s) && h in s.store
    ensures Timed(c, s.store[h])
  {
    assert RecordOk(c, s, h, s.store[h]);
  }

  /** An organization switch writes and reads its clock; its rotation is still to come. */
  lemma SwitchPrepares(c: Config, s: State, q: nat, organizationId: nat, next: string, csrf: string)
    returns (steps: seq<Step>)
    requires q in s.processes && s.processes[q].Checked? && s.processes[q].goal == Select(organizationId)
    requires OfSession(next) !in s.issued
    ensures Legal(c, s, steps)
    ensures var t := Execute(c, s, steps); var r := s.processes[q];
      && t.clock == s.clock
      && t.store == Throttle(s.store, r.copy.tokenHash, r.now, r.now + c.idleTtl, r.now - c.lastSeenMinInterval)
      && t.processes
           == s.processes[q := Rotating(r.copy.tokenHash, OfSession(next), OfCsrf(csrf), s.clock, organizationId)]
  {
    hide Throttle;
    var s1 := Apply(c, s, Touch(q));
    var s2 := Apply(c, s1, GenerateSelect(q, next, csrf));
    Chain(c, s1, GenerateSelect(q, next, csrf), [], s2);
    Chain(c, s, Touch(q), [GenerateSelect(q, next, csrf)] + [], s2);
    steps := [Touch(q)] + ([GenerateSelect(q, next, csrf)] + []);
    var hash := s.processes[q].copy.tokenHash;
    assert s2.processes
        == s.processes[q := Rotating(hash, OfSession(next), OfCsrf(csrf), s.clock, organizationId)];
  }

  lemma OneStep(c: Config, s: State, step: Step)
    requires Enabled(s, step)
    ensures Legal(c, s, [step]) && Execute(c, s, [step]) == Apply(c, s, step)
  {
    hide Apply, Enabled;
    Chain(c, s, step, [], Apply(c, s, step));
    assert [step] + [] == [step];
  }

  /** A use of a session last seen long enough ago writes its time. */
  lemma UseWrites(c: Config, s: State, p: nat, token: string) returns (steps: seq<Step>)
    requires p !in s.processes && |token| > 0
    requires OfSession(token) in s.store && s.store[OfSession(token)].tokenHash == OfSession(token)
    requires Passes(s.store[OfSession(token)], s.clock)
    requires s.store[OfSession(token)].lastSeenAt <= s.clock - c.lastSeenMinInterval
    ensures Legal(c, s, steps)
    ensures var t := Execute(c, s, steps); var h := OfSession(token);
      && t.processes == s.processes && t.clock == s.clock && Live(t.store, h) && t.store[h].lastSeenAt == s.clock
  {
    hide Execute, Legal;
    var check := RequestChecks(c, s, p, token, Resolve);
    var s1 := Execute(c, s, check);
    OneStep(c, s1, Touch(p));
    assert Apply(c, s1, Touch(p)).processes == s.processes;
    Join(c, s, check, [Touch(p)]);
    steps := check + [Touch(p)];
  }

  /**
   * It happens from any state with a usable session: a switch reads its clock, time passes, another
   * request uses the session and writes its time, and the rotation is about to undo that.
   */
  lemma RotationTurnsBack(c: Config, s: State, p: nat, q: nat, token: string, next: string, csrf: string,
                          organizationId: nat, ms: nat)
    returns (steps: seq<Step>)
    requires p != q && p !in s.processes && q !in s.processes && |token| > 0 && OfSession(next) !in s.issued
    requires OfSession(token) in s.store && s.store[OfSession(token)].tokenHash == OfSession(token)
    requires s.store[OfSession(token)].lastSeenAt <= s.clock && Timed(c, s.store[OfSession(token)])
    requires Passes(s.store[OfSession(token)], s.clock + ms) && ms >= 1 && ms >= c.lastSeenMinInterval
    ensures Legal(c, s, steps)
    ensures Enabled(Execute(c, s, steps), Move(q)) && TurnsBack(Execute(c, s, steps), Move(q), OfSession(token))
  {
    hide Execute, Legal;
    var hash := OfSession(token);
    var a := RequestChecks(c, s, q, token, Select(organizationId));
    var s1 := Execute(c, s, a);
    var b := SwitchPrepares(c, s1, q, organizationId, next, csrf);
    var s2 := Execute(c, s1, b);
    assert hash in s2.store && Passes(s2.store[hash], s.clock + ms) && s2.store[hash].lastSeenAt <= s.clock;
    OneStep(c, s2, Tick(ms));
    var s3 := Apply(c, s2, Tick(ms));
    assert s3 == s2.(clock := s2.clock + ms);
    hide Apply, Throttle;
    var d := UseWrites(c, s3, p, token);
    Join(c, s2, [Tick(ms)], d);
    Join(c, s1, b, [Tick(ms)] + d);
    Join(c, s, a, b + ([Tick(ms)] + d));
    steps := a + (b + ([Tick(ms)] + d));
  }
}
