/**
 * Requests of the session lifecycle that nothing interleaves with: from any state of any run, each leaves
 * in the store exactly what its use case leaves on its own.
 */
module SessionAlone {
  import opened Wrappers
  import opened SessionStore
  import opened SessionLifecycle
  import R = SessionRaces
  import U = SessionUse

  /** What a request that has come and gone leaves of the rest. */
  ghost predicate OnlyStore(s: State, t: State) { t.processes == s.processes && t.clock == s.clock }

  lemma StoredUnderItsHash(c: Config, s: State, h: Digest)
    requires Inv(c, s) && h in s.store
    ensures s.store[h].tokenHash == h
  {
    assert RecordOk(c, s, h, s.store[h]);
  }

  /** The writes of a resolve whose guards have passed: the organization cleared, then last-seen. */
  lemma ResolveWrites(c: Config, s: State, p: nat, h: Digest, member: bool) returns (steps: seq<Step>)
    requires p in s.processes && s.processes[p].Checked? && h in s.store && s.store[h].tokenHash == h
    requires s.processes[p].copy == s.store[h] && s.processes[p].now == s.clock && Passes(s.store[h], s.clock)
    ensures Legal(c, s, steps)
    ensures var t := Execute(c, s, steps); var process := s.processes[p];
      && t.store == U.Use(c, U.Unbound(s.store, h, member), h, s.clock) && t.clock == s.clock && t.issued == s.issued
      && t.log == s.log + [Resolved(process.copy.id, h, s.clock, process.found)]
      && t.processes == if process.goal.Resolve? then s.processes - {p}
                        else s.processes[p := Settled(process.copy, process.goal)]
  {
    hide Throttle;
    if U.Unbound(s.store, h, member) == s.store {
      R.OneStep(c, s, Touch(p));
      steps := [Touch(p)];
    } else {
      var s1 := Apply(c, s, Clear(p));
      R.OneStep(c, s1, Touch(p));
      Chain(c, s, Clear(p), [Touch(p)], Apply(c, s1, Touch(p)));
      steps := [Clear(p)] + [Touch(p)];
    }
  }

  /** A request up to the end of its resolve. */
  lemma Resolves(c: Config, s: State, p: nat, token: string, goal: Goal, member: bool) returns (steps: seq<Step>)
    requires Inv(c, s) && p !in s.processes && |token| > 0 && U.Usable(s.store, OfSession(token), s.clock)
    ensures Legal(c, s, steps)
    ensures var t := Execute(c, s, steps); var h := OfSession(token);
      && t.store == U.Use(c, U.Unbound(s.store, h, member), h, s.clock) && t.clock == s.clock && t.issued == s.issued
      && t.log == s.log + [Resolved(s.store[h].id, h, s.clock, |s.log|)]
      && t.processes == if goal.Resolve? then s.processes else s.processes[p := Settled(s.store[h], goal)]
  {
    hide Execute, Legal, Inv;
    var h := OfSession(token);
    StoredUnderItsHash(c, s, h);
    var check := R.RequestChecks(c, s, p, token, goal);
    var s1 := Execute(c, s, check);
    var writes := ResolveWrites(c, s1, p, h, member);
    Join(c, s, check, writes);
    steps := check + writes;
    assert s1.processes - {p} == s.processes;
  }

  /** A resolve of a usable session: the cleared organization and the throttled write, nothing else. */
  lemma ResolveAlone(c: Config, s: State, p: nat, token: string, member: bool) returns (steps: seq<Step>)
    requires Inv(c, s) && p !in s.processes && |token| > 0 && U.Usable(s.store, OfSession(token), s.clock)
    ensures Legal(c, s, steps)
    ensures var t := Execute(c, s, steps); var h := OfSession(token);
      OnlyStore(s, t) && t.store == U.Use(c, U.Unbound(s.store, h, member), h, s.clock)
  {
    steps := Resolves(c, s, p, token, Goal.Resolve, member);
  }

  /** A request on a session that cannot be used leaves no trace. */
  lemma RefusedAlone(c: Config, s: State, p: nat, token: string, goal: Goal) returns (steps: seq<Step>)
    requires p !in s.processes && |token| > 0 && !U.Usable(s.store, OfSession(token), s.clock)
    ensures Legal(c, s, steps) && Execute(c, s, steps) == s
  {
    hide Execute, Legal;
    var s1 := Apply(c, s, StartResolve(p, token, goal));
    var s2 := Apply(c, s1, Find(p));
    var rest := [];
    if OfSession(token) in s.store {
      var s3 := Apply(c, s2, Check(p));
      assert s3.processes == s.processes;
      R.OneStep(c, s2, Check(p));
      rest := [Check(p)];
    } else {
      assert s2.processes == s.processes;
      Nothing(c, s2);
    }
    Chain(c, s1, Find(p), rest, s);
    Chain(c, s, StartResolve(p, token, goal), [Find(p)] + rest, s);
    steps := [StartResolve(p, token, goal)] + ([Find(p)] + rest);
  }

  /** Nor does one that passes its guards and is then refused for its user or credential. */
  lemma RefusedForUserAlone(c: Config, s: State, p: nat, token: string, goal: Goal) returns (steps: seq<Step>)
    requires p !in s.processes && |token| > 0 && U.Usable(s.store, OfSession(token), s.clock)
    ensures Legal(c, s, steps) && Execute(c, s, steps) == s
  {
    hide Execute, Legal;
    var check := R.RequestChecks(c, s, p, token, goal);
    var s1 := Execute(c, s, check);
    assert Apply(c, s1, Abandon(p)).processes == s.processes;
    R.OneStep(c, s1, Abandon(p));
    Join(c, s, check, [Abandon(p)]);
    steps := check + [Abandon(p)];
  }

  lemma Nothing(c: Config, s: State)
    ensures Legal(c, s, []) && Execute(c, s, []) == s
  {}

  lemma UsedStaysLive(c: Config, store: Store, h: Digest, now: int, member: bool)
    requires U.Usable(store, h, now)
    ensures var used := U.Use(c, U.Unbound(store, h, member), h, now);
      Live(used, h) && used.Keys == store.Keys && used[h].id == store[h].id
  {}

  /** A read: what the resolve leaves, with the digest of the new CSRF token. */
  lemma ReadAlone(c: Config, s: State, p: nat, token: string, csrf: string, member: bool) returns (steps: seq<Step>)
    requires Inv(c, s) && p !in s.processes && |token| > 0 && U.Usable(s.store, OfSession(token), s.clock)
    ensures Legal(c, s, steps)
    ensures var t := Execute(c, s, steps); var h := OfSession(token);
      var used := U.Use(c, U.Unbound(s.store, h, member), h, s.clock);
      && OnlyStore(s, t) && h in used && t.store == used[h := used[h].(csrfTokenHash := OfCsrf(csrf))]
      && t.log == s.log + [Resolved(s.store[h].id, h, s.clock, |s.log|), Refreshed(s.store[h].id)]
  {
    hide Execute, Legal, Inv;
    var h := OfSession(token);
    StoredUnderItsHash(c, s, h);
    UsedStaysLive(c, s.store, h, s.clock, member);
    var first := Resolves(c, s, p, token, Goal.Read, member);
    var s1 := Execute(c, s, first);
    var s2 := Apply(c, s1, GenerateRead(p, csrf));
    var s3 := Apply(c, s2, Refresh(p));
    assert s3.processes == s.processes;
    hide Apply, Throttle;
    R.OneStep(c, s2, Refresh(p));
    Chain(c, s1, GenerateRead(p, csrf), [Refresh(p)], s3);
    Join(c, s, first, [GenerateRead(p, csrf)] + [Refresh(p)]);
    steps := first + ([GenerateRead(p, csrf)] + [Refresh(p)]);
  }

  /** An organization switch: the session is under its new token, on the organization, seen now. */
  lemma SwitchAlone(c: Config, s: State, p: nat, token: string, next: string, csrf: string, organizationId: nat,
                    member: bool)
    returns (steps: seq<Step>)
    requires Inv(c, s) && p !in s.processes && |token| > 0 && U.Usable(s.store, OfSession(token), s.clock)
    requires OfSession(next) !in s.issued
    ensures Legal(c, s, steps)
    ensures var t := Execute(c, s, steps); var h, n := OfSession(token), OfSession(next);
      var used := U.Use(c, U.Unbound(s.store, h, member), h, s.clock);
      && OnlyStore(s, t) && h in used
      && t.store == (used - {h})[n := used[h].(tokenHash := n, csrfTokenHash := OfCsrf(csrf), lastSeenAt := s.clock,
                                               idleExpiresAt := s.clock + c.idleTtl,
                                               activeOrganizationId := Some(organizationId))]
      && t.log == s.log + [Resolved(s.store[h].id, h, s.clock, |s.log|), Moved(s.store[h].id, h)]
  {
    hide Execute, Legal, Inv;
    var h := OfSession(token);
    StoredUnderItsHash(c, s, h);
    UsedStaysLive(c, s.store, h, s.clock, member);
    var first := Resolves(c, s, p, token, Select(organizationId), member);
    var s1 := Execute(c, s, first);
    var generate := GenerateSelect(p, next, csrf);
    var s2 := Apply(c, s1, generate);
    var s3 := Apply(c, s2, Move(p));
    assert s3.processes == s.processes;
    hide Apply, Throttle;
    R.OneStep(c, s2, Move(p));
    Chain(c, s1, generate, [Move(p)], s3);
    Join(c, s, first, [generate] + [Move(p)]);
    steps := first + ([generate] + [Move(p)]);
  }

  /** A logout: the session the token names is revoked now, if it was live. */
  lemma LogoutAlone(c: Config, s: State, p: nat, token: string) returns (steps: seq<Step>)
    requires p !in s.processes && |token| > 0
    ensures Legal(c, s, steps)
    ensures var t := Execute(c, s, steps); var h := OfSession(token);
      && OnlyStore(s, t)
      && (if Live(s.store, h)
          then t.store == s.store[h := s.store[h].(revokedAt := Some(s.clock))]
               && t.log == s.log + [Revoked(s.store[h].id)]
          else t.store == s.store && t.log == s.log)
  {
    hide Execute, Legal;
    var s1 := Apply(c, s, StartLogout(p, token));
    var s2 := Apply(c, s1, Logout(p));
    assert s2.processes == s.processes;
    R.OneStep(c, s1, Logout(p));
    Chain(c, s, StartLogout(p, token), [Logout(p)], s2);
    steps := [StartLogout(p, token)] + [Logout(p)];
  }

  /** A login: exactly the new session, opened, seen and expiring by the clock it read. */
  lemma LoginAlone(c: Config, s: State, p: nat, userId: nat, token: string, csrf: string, organization: Option<nat>,
                   passwordRevision: int)
    returns (steps: seq<Step>)
    requires p !in s.processes && OfSession(token) !in s.issued
    ensures Legal(c, s, steps)
    ensures var t := Execute(c, s, steps); var h := OfSession(token);
      && OnlyStore(s, t) && t.log == s.log + [Opened(s.nextId, s.clock)]
      && t.store == s.store[h := Session(s.nextId, userId, h, OfCsrf(csrf), organization, passwordRevision, s.clock,
                                         s.clock, s.clock + c.idleTtl, s.clock + c.absoluteTtl, None)]
  {
    hide Execute, Legal;
    var generate := GenerateLogin(p, token, csrf, organization, passwordRevision);
    var s1 := Apply(c, s, StartLogin(p, userId));
    var s2 := Apply(c, s1, generate);
    var s3 := Apply(c, s2, Create(p));
    assert s3.processes == s.processes;
    R.OneStep(c, s2, Create(p));
    Chain(c, s1, generate, [Create(p)], s3);
    Chain(c, s, StartLogin(p, userId), [generate] + [Create(p)], s3);
    steps := [StartLogin(p, userId)] + ([generate] + [Create(p)]);
  }
}
