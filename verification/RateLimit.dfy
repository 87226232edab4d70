/**
 * Fixed-window rate limiting. The organization limiters stop counting at their maximum; the login
 * counters count every attempt and compare afterwards. Times are integer milliseconds and do not run
 * backwards.
 */
module RateLimit {
  import opened Numbers
  import opened Wrappers

  datatype Window = Window(count: int, resetAt: int)

  datatype Limit = Limit(max: int, windowMs: int)

  // ---- one key: the saturating limiter ----

  predicate Opens(w: Option<Window>, now: int) { w.None? || now >= w.value.resetAt }

  predicate Admits(l: Limit, w: Option<Window>, now: int) { Opens(w, now) || w.value.count < l.max }

  function Admit(l: Limit, w: Option<Window>, now: int): Window {
    if Opens(w, now) then Window(1, now + l.windowMs)
    else if w.value.count >= l.max then w.value
    else w.value.(count := w.value.count + 1)
  }

  function Decisions(l: Limit, w: Option<Window>, times: seq<int>): seq<bool>
    decreases |times|
  {
    if times == [] then [] else [Admits(l, w, times[0])] + Decisions(l, Some(Admit(l, w, times[0])), times[1..])
  }

  /** How many requests at a time in [from, from + windowMs) are admitted. */
  function AdmittedIn(l: Limit, w: Option<Window>, times: seq<int>, from: int): nat
    decreases |times|
  {
    if times == [] then 0
    else (if Admits(l, w, times[0]) && from <= times[0] < from + l.windowMs then 1 else 0)
         + AdmittedIn(l, Some(Admit(l, w, times[0])), times[1..], from)
  }

  /** What one window can admit: its opening request is never refused, whatever the maximum. */
  function Ceiling(l: Limit): int { if l.max < 1 then 1 else l.max }

  /** Where the running count of an interval can stand, given the current window. */
  ghost predicate Accounted(l: Limit, w: Option<Window>, last: int, from: int, admitted: int) {
    && (last < from || w.None? ==> admitted == 0)
    && (w.Some? ==>
          var start := w.value.resetAt - l.windowMs;
          && start <= last && 1 <= w.value.count <= Ceiling(l)
          && (start < from ==> admitted <= w.value.count - 1)
          && (from <= start < from + l.windowMs ==> admitted <= Ceiling(l) - 1 + w.value.count)
          && (from + l.windowMs <= start ==> admitted <= 2 * Ceiling(l) - 1))
  }

  lemma {:induction false} IntervalBound(l: Limit, w: Option<Window>, last: int, times: seq<int>, from: int,
                                         admitted: nat)
    requires l.windowMs > 0 && Nondecreasing(last, times) && Accounted(l, w, last, from, admitted)
    ensures admitted + AdmittedIn(l, w, times, from) <= 2 * Ceiling(l) - 1
    decreases |times|
  {
    if times != [] {
      var now := times[0];
      var more := if Admits(l, w, now) && from <= now < from + l.windowMs then 1 else 0;
      IntervalBound(l, Some(Admit(l, w, now)), now, times[1..], from, admitted + more);
    }
  }

  /** With windows of one millisecond, an interval of that length meets one window only. */
  ghost predicate AccountedShort(l: Limit, w: Option<Window>, last: int, from: int, admitted: int) {
    && (last < from || w.None? ==> admitted == 0)
    && (w.Some? ==>
          var start := w.value.resetAt - l.windowMs;
          && start <= last < w.value.resetAt && 1 <= w.value.count <= Ceiling(l)
          && (from <= start < from + l.windowMs ==> admitted <= w.value.count)
          && (from + l.windowMs <= start ==> admitted <= Ceiling(l)))
  }

  lemma {:induction false} ShortIntervalBound(l: Limit, w: Option<Window>, last: int, times: seq<int>, from: int,
                                              admitted: nat)
    requires l.windowMs == 1 && Nondecreasing(last, times) && AccountedShort(l, w, last, from, admitted)
    ensures admitted + AdmittedIn(l, w, times, from) <= Ceiling(l)
    decreases |times|
  {
    if times != [] {
      var now := times[0];
      var more := if Admits(l, w, now) && from <= now < from + l.windowMs then 1 else 0;
      ShortIntervalBound(l, Some(Admit(l, w, now)), now, times[1..], from, admitted + more);
    }
  }

  /** The most an interval as long as the window can hold: two windows share it, unless one is all there is room for. */
  function Most(l: Limit): int { if l.windowMs == 1 then Ceiling(l) else 2 * Ceiling(l) - 1 }

  /** Any interval as long as the window holds at most that many admitted requests of one key. */
  lemma SlidingBound(l: Limit, times: seq<int>, from: int)
    requires l.windowMs > 0 && (times == [] || Nondecreasing(times[0], times))
    ensures AdmittedIn(l, None, times, from) <= Most(l) <= 2 * Ceiling(l) - 1
  {
    if times != [] {
      if l.windowMs == 1 {
        ShortIntervalBound(l, None, times[0], times, from, 0);
      } else {
        IntervalBound(l, None, times[0], times, from, 0);
      }
    }
  }

  lemma {:induction false} NothingLate(l: Limit, w: Option<Window>, last: int, times: seq<int>, from: int)
    requires Nondecreasing(last, times) && from + l.windowMs <= last
    ensures AdmittedIn(l, w, times, from) == 0
    decreases |times|
  {
    if times != [] { NothingLate(l, Some(Admit(l, w, times[0])), times[0], times[1..], from); }
  }

  lemma {:induction false} RestOfWindow(l: Limit, w: Window, last: int, times: seq<int>, from: int)
    requires w.resetAt == from + l.windowMs && w.count <= Ceiling(l) && Nondecreasing(last, times)
    ensures w.count + AdmittedIn(l, Some(w), times, from) <= Ceiling(l)
    decreases |times|
  {
    if times != [] {
      if times[0] < w.resetAt {
        RestOfWindow(l, Admit(l, Some(w), times[0]), times[0], times[1..], from);
      } else {
        NothingLate(l, Some(w), times[0], times, from);
      }
    }
  }

  /** A window, from the request that opens it, admits at most the maximum. */
  lemma WindowBound(l: Limit, w: Option<Window>, times: seq<int>)
    requires l.windowMs > 0 && times != [] && Opens(w, times[0]) && Nondecreasing(times[0], times)
    ensures AdmittedIn(l, w, times, times[0]) <= Ceiling(l)
  {
    RestOfWindow(l, Admit(l, w, times[0]), times[0], times[1..], times[0]);
  }

  function Repeat(t: int, n: nat): seq<int> { if n == 0 then [] else [t] + Repeat(t, n - 1) }

  lemma {:induction false} Burst(l: Limit, w: Window, t: int, n: nat, rest: seq<int>, from: int)
    requires t < w.resetAt && w.count + n <= l.max && from <= t < from + l.windowMs
    decreases n
    ensures AdmittedIn(l, Some(w), Repeat(t, n) + rest, from)
        == n + AdmittedIn(l, Some(w.(count := w.count + n)), rest, from)
  {
    if n == 0 {
      assert Repeat(t, n) + rest == rest;
    } else {
      assert Repeat(t, n) + rest == [t] + (Repeat(t, n - 1) + rest);
      Burst(l, w.(count := w.count + 1), t, n - 1, rest, from);
    }
  }

  /** One request opens a window just before the interval, two bursts fill both parts of it. */
  lemma TwoBursts(l: Limit)
    requires l.max >= 1 && l.windowMs >= 2
    ensures AdmittedIn(l, None, [0] + (Repeat(1, l.max - 1) + Repeat(l.windowMs, l.max)), 1) == 2 * l.max - 1
  {
    var second := Repeat(l.windowMs, l.max);
    var w := Window(1, l.windowMs);
    assert ([0] + (Repeat(1, l.max - 1) + second))[1..] == Repeat(1, l.max - 1) + second;
    Burst(l, w, 1, l.max - 1, second, 1);
    var full := w.(count := l.max);
    assert second == [l.windowMs] + Repeat(l.windowMs, l.max - 1);
    var reopened := Window(1, 2 * l.windowMs);
    assert Repeat(l.windowMs, l.max - 1) + [] == Repeat(l.windowMs, l.max - 1);
    Burst(l, reopened, l.windowMs, l.max - 1, [], 1);
    assert Admit(l, Some(full), l.windowMs) == reopened;
  }

  lemma OneBurst(l: Limit)
    requires l.max >= 1 && l.windowMs >= 1
    ensures AdmittedIn(l, None, [0] + Repeat(0, l.max - 1), 0) == l.max
  {
    var rest := Repeat(0, l.max - 1);
    assert ([0] + rest)[1..] == rest && rest + [] == rest;
    Burst(l, Window(1, l.windowMs), 0, l.max - 1, [], 0);
  }

  lemma {:induction false} RepeatedIsNondecreasing(last: int, t: int, n: nat, rest: seq<int>)
    requires last <= t && Nondecreasing(t, rest)
    ensures Nondecreasing(last, if n == 0 then rest else Repeat(t, n) + rest)
    decreases n
  {
    if n == 0 {
      if rest != [] { assert Nondecreasing(last, rest); }
    } else {
      assert Repeat(t, n) + rest == [t] + (Repeat(t, n - 1) + rest);
      RepeatedIsNondecreasing(t, t, n - 1, rest);
      assert n == 1 ==> Repeat(t, 0) + rest == rest;
    }
  }

  /** The bound is reached, for every maximum and window, by a trace whose times do not run backwards. */
  lemma SlidingBoundIsReached(l: Limit) returns (times: seq<int>, from: int)
    requires l.max >= 1 && l.windowMs >= 1
    ensures times != [] && Nondecreasing(times[0], times)
    ensures AdmittedIn(l, None, times, from) == Most(l)
  {
    if l.windowMs == 1 {
      OneBurst(l);
      times, from := [0] + Repeat(0, l.max - 1), 0;
      RepeatedIsNondecreasing(0, 0, l.max - 1, []);
      assert times[1..] == Repeat(0, l.max - 1) && Repeat(0, l.max - 1) + [] == Repeat(0, l.max - 1);
    } else {
      TwoBursts(l);
      var second := Repeat(l.windowMs, l.max);
      times, from := [0] + (Repeat(1, l.max - 1) + second), 1;
      RepeatedIsNondecreasing(1, l.windowMs, l.max, []);
      assert second + [] == second;
      RepeatedIsNondecreasing(0, 1, l.max - 1, second);
      assert times[1..] == Repeat(1, l.max - 1) + second;
      assert l.max == 1 ==> Repeat(1, 0) + second == second;
    }
  }

  // ---- one key: the counting limiter ----

  function Count(windowMs: int, w: Option<Window>, now: int): Window {
    if Opens(w, now) then Window(1, now + windowMs) else w.value.(count := w.value.count + 1)
  }

  function Verdicts(l: Limit, w: Option<Window>, times: seq<int>): seq<bool>
    decreases |times|
  {
    if times == [] then []
    else var next := Count(l.windowMs, w, times[0]); [next.count <= l.max] + Verdicts(l, Some(next), times[1..])
  }

  /** The counter may have run past the maximum, where the limiter stopped. */
  predicate Simulates(l: Limit, limiter: Option<Window>, counter: Option<Window>) {
    (limiter.None? && counter.None?)
    || (limiter.Some? && counter.Some? && limiter.value.resetAt == counter.value.resetAt
        && limiter.value.count == if counter.value.count < l.max then counter.value.count else l.max)
  }

  lemma {:induction false} CounterSimulatesLimiter(l: Limit, limiter: Option<Window>, counter: Option<Window>,
                                                   times: seq<int>)
    requires l.max >= 1 && Simulates(l, limiter, counter)
    ensures Decisions(l, limiter, times) == Verdicts(l, counter, times)
    decreases |times|
  {
    if times != [] {
      CounterSimulatesLimiter(l, Some(Admit(l, limiter, times[0])),
                              Some(Count(l.windowMs, counter, times[0])), times[1..]);
    }
  }

  /** Both kinds decide alike on every trace exactly when at least one request is allowed. */
  lemma SameDecisionsIffPositive(l: Limit)
    ensures (forall times :: Decisions(l, None, times) == Verdicts(l, None, times)) <==> l.max >= 1
  {
    if l.max >= 1 {
      forall times ensures Decisions(l, None, times) == Verdicts(l, None, times) {
        CounterSimulatesLimiter(l, None, None, times);
      }
    } else {
      assert Decisions(l, None, [0])[0] && !Verdicts(l, None, [0])[0];
    }
  }

  // ---- many keys: the organization limiters ----

  type Windows = map<string, Window>

  function At(windows: Windows, key: string): Option<Window> { if key in windows then Some(windows[key]) else None }

  datatype Request = Request(organizationId: string, now: int)

  function Serve(l: Limit, windows: Windows, r: Request): Windows {
    windows[r.organizationId := Admit(l, At(windows, r.organizationId), r.now)]
  }

  /** The answers one organization gets, in a trace of requests by all. */
  function AnswersTo(l: Limit, windows: Windows, requests: seq<Request>, organizationId: string): seq<bool>
    decreases |requests|
  {
    if requests == [] then []
    else
      var r := requests[0];
      (if r.organizationId == organizationId then [Admits(l, At(windows, r.organizationId), r.now)] else [])
      + AnswersTo(l, Serve(l, windows, r), requests[1..], organizationId)
  }

  function TimesOf(requests: seq<Request>, organizationId: string): seq<int> {
    if requests == [] then []
    else
      (if requests[0].organizationId == organizationId then [requests[0].now] else [])
      + TimesOf(requests[1..], organizationId)
  }

  /** Other organizations' traffic never changes the answers: they are those of its own requests alone. */
  lemma {:induction false} OrganizationsAreIndependent(l: Limit, windows: Windows, requests: seq<Request>,
                                                       organizationId: string)
    ensures AnswersTo(l, windows, requests, organizationId)
        == Decisions(l, At(windows, organizationId), TimesOf(requests, organizationId))
    decreases |requests|
  {
    if requests != [] {
      var r := requests[0];
      OrganizationsAreIndependent(l, Serve(l, windows, r), requests[1..], organizationId);
      if r.organizationId == organizationId {
        assert TimesOf(requests, organizationId) == [r.now] + TimesOf(requests[1..], organizationId);
      } else {
        assert TimesOf(requests, organizationId) == TimesOf(requests[1..], organizationId);
      }
    }
  }

  /** How many requests of one organization at a time in [from, from + windowMs) are admitted, in a trace by all. */
  function AdmittedTo(l: Limit, windows: Windows, requests: seq<Request>, organizationId: string, from: int): nat
    decreases |requests|
  {
    if requests == [] then 0
    else
      var r := requests[0];
      var admitted := r.organizationId == organizationId && Admits(l, At(windows, organizationId), r.now);
      (if admitted && from <= r.now < from + l.windowMs then 1 else 0)
      + AdmittedTo(l, Serve(l, windows, r), requests[1..], organizationId, from)
  }

  ghost predicate InTime(last: int, requests: seq<Request>)
    decreases |requests|
  {
    requests == [] || (last <= requests[0].now && InTime(requests[0].now, requests[1..]))
  }

  lemma {:induction false} OwnRequestsInTime(last: int, requests: seq<Request>, organizationId: string)
    requires InTime(last, requests)
    ensures Nondecreasing(last, TimesOf(requests, organizationId))
    decreases |requests|
  {
    if requests != [] {
      var rest := TimesOf(requests[1..], organizationId);
      OwnRequestsInTime(requests[0].now, requests[1..], organizationId);
      if requests[0].organizationId == organizationId {
        assert TimesOf(requests, organizationId) == [requests[0].now] + rest;
      } else {
        assert TimesOf(requests, organizationId) == rest;
      }
    }
  }

  lemma {:induction false} OwnRequestsAdmitted(l: Limit, windows: Windows, requests: seq<Request>,
                                               organizationId: string, from: int)
    ensures AdmittedTo(l, windows, requests, organizationId, from)
         == AdmittedIn(l, At(windows, organizationId), TimesOf(requests, organizationId), from)
    decreases |requests|
  {
    if requests != [] {
      var r, rest := requests[0], TimesOf(requests[1..], organizationId);
      OwnRequestsAdmitted(l, Serve(l, windows, r), requests[1..], organizationId, from);
      if r.organizationId == organizationId {
        assert TimesOf(requests, organizationId) == [r.now] + rest && ([r.now] + rest)[1..] == rest;
      } else {
        assert TimesOf(requests, organizationId) == rest;
      }
    }
  }

  /** In every trace of requests by all organizations, each one keeps the sliding bound. */
  lemma OrganizationsAreBounded(l: Limit, start: int, requests: seq<Request>, organizationId: string, from: int)
    requires l.windowMs > 0 && InTime(start, requests)
    ensures AdmittedTo(l, map[], requests, organizationId, from) <= Most(l)
  {
    var times := TimesOf(requests, organizationId);
    OwnRequestsAdmitted(l, map[], requests, organizationId, from);
    OwnRequestsInTime(start, requests, organizationId);
    SlidingBound(l, times, from);
  }

  /** `createFindingOrganizationRateLimiter` and `createSbomOrganizationRateLimiter`. */
  class OrganizationRateLimiter {
    const limit: Limit
    var windows: Windows

    constructor (limit: Limit)
      ensures this.limit == limit && windows == map[]
    {
      this.limit := limit;
      windows := map[];
    }

    method Consume(organizationId: string, now: int) returns (allowed: bool)
      modifies this
      ensures windows == Serve(limit, old(windows), Request(organizationId, now))
      ensures allowed == Admits(limit, At(old(windows), organizationId), now)
    {
      if organizationId !in windows || now >= windows[organizationId].resetAt {
        windows := windows[organizationId := Window(1, now + limit.windowMs)];
        return true;
      }
      var current := windows[organizationId];
      if current.count >= limit.max {
        assert windows == windows[organizationId := current];
        return false;
      }
      windows := windows[organizationId := current.(count := current.count + 1)];
      allowed := true;
    }
  }

  // ---- logins: two counters per attempt ----

  datatype LoginDecision = Admitted | Limited | Unavailable

  datatype LoginLimits = LoginLimits(ip: Limit, account: Limit)

  function IpKey(digest: string): string { "pp:login:v1:ip:" + digest }

  function AccountKey(digest: string): string { "pp:login:v1:acct:" + digest }

  lemma KeysApart(a: string, b: string)
    ensures IpKey(a) != AccountKey(b)
    ensures IpKey(a) == IpKey(b) ==> a == b
    ensures AccountKey(a) == AccountKey(b) ==> a == b
  {
    assert IpKey(a)[12] == 'i' && AccountKey(b)[12] == 'a';
    assert IpKey(a)[15..] == a && IpKey(b)[15..] == b;
    assert AccountKey(a)[17..] == a && AccountKey(b)[17..] == b;
  }

  function Increment(windowMs: int, counters: Windows, key: string, now: int): Windows {
    counters[key := Count(windowMs, At(counters, key), now)]
  }

  /** A login whose address has been counted: when, and whether it was within the limit. */
  datatype Begun = Begun(ip: string, at: int, within: bool)

  datatype Logins = Logins(counters: Windows, begun: map<nat, Begun>)

  /**
   * The two awaited increments of one login; other logins run in between and the clock moves on. A login
   * whose counter throws ends there.
   */
  datatype LoginStep =
    | CountAddress(login: nat, ip: string, now: int)
    | CountAccount(login: nat, account: string, now: int)
    | Throw(login: nat, now: int)

  predicate LoginEnabled(s: Logins, step: LoginStep) { step.login in s.begun <==> !step.CountAddress? }

  function LoginApply(l: LoginLimits, s: Logins, step: LoginStep): Logins {
    match step
    case CountAddress(p, ip, now) =>
      var count := Count(l.ip.windowMs, At(s.counters, IpKey(ip)), now).count;
      Logins(Increment(l.ip.windowMs, s.counters, IpKey(ip), now), s.begun[p := Begun(ip, now, count <= l.ip.max)])
    case CountAccount(p, account, now) =>
      Logins(Increment(l.account.windowMs, s.counters, AccountKey(account), now), s.begun - {p})
    case Throw(p, now) => s.(begun := s.begun - {p})
  }

  /** The login is let through: both its counts were within their limits. */
  predicate LetThrough(l: LoginLimits, s: Logins, step: LoginStep) {
    step.CountAccount? && step.login in s.begun && s.begun[step.login].within
    && Count(l.account.windowMs, At(s.counters, AccountKey(step.account)), step.now).count <= l.account.max
  }

  ghost predicate LegalLogins(l: LoginLimits, last: int, s: Logins, steps: seq<LoginStep>)
    decreases |steps|
  {
    steps == [] ||
    (&& last <= steps[0].now && LoginEnabled(s, steps[0])
     && LegalLogins(l, steps[0].now, LoginApply(l, s, steps[0]), steps[1..]))
  }

  predicate FromIp(b: Begun, ip: string, from: int, windowMs: int) {
    b.ip == ip && b.within && from <= b.at < from + windowMs
  }

  /** Logins let through that counted against the address at a time in [from, from + its window). */
  function AdmittedFromIp(l: LoginLimits, s: Logins, steps: seq<LoginStep>, ip: string, from: int): nat
    decreases |steps|
  {
    if steps == [] then 0
    else
      (if LetThrough(l, s, steps[0]) && FromIp(s.begun[steps[0].login], ip, from, l.ip.windowMs) then 1 else 0)
      + AdmittedFromIp(l, LoginApply(l, s, steps[0]), steps[1..], ip, from)
  }

  /** Logins let through that counted against the account at a time in [from, from + its window). */
  function AdmittedToAccount(l: LoginLimits, s: Logins, steps: seq<LoginStep>, account: string, from: int): nat
    decreases |steps|
  {
    if steps == [] then 0
    else
      var step := steps[0];
      var inside := from <= step.now < from + l.account.windowMs;
      (if LetThrough(l, s, step) && step.account == account && inside then 1 else 0)
      + AdmittedToAccount(l, LoginApply(l, s, step), steps[1..], account, from)
  }

  /** Logins counted within the limit in the interval that have not been decided yet. */
  function Undecided(s: Logins, ip: string, from: int, windowMs: int): set<nat> {
    set p | p in s.begun && FromIp(s.begun[p], ip, from, windowMs)
  }

  /** How one step changes the undecided ones. */
  lemma UndecidedStep(l: LoginLimits, s: Logins, step: LoginStep, ip: string, from: int)
    requires LoginEnabled(s, step)
    ensures var w := l.ip.windowMs;
      var before, after := Undecided(s, ip, from, w), Undecided(LoginApply(l, s, step), ip, from, w);
      |after| == |before|
        + (if step.CountAddress? && FromIp(LoginApply(l, s, step).begun[step.login], ip, from, w) then 1 else 0)
        - (if !step.CountAddress? && FromIp(s.begun[step.login], ip, from, w) then 1 else 0)
  {
    hide FromIp, IpKey, AccountKey, Count;
    var w := l.ip.windowMs;
    var before, after := Undecided(s, ip, from, w), Undecided(LoginApply(l, s, step), ip, from, w);
    if step.CountAddress? {
      var counted := LoginApply(l, s, step).begun[step.login];
      assert after == if FromIp(counted, ip, from, w) then before + {step.login} else before;
    } else {
      assert after == before - {step.login};
    }
  }

  /** How the counter of an address moves, and what the saturating limiter would say. */
  lemma AddressCounter(l: LoginLimits, s: Logins, step: LoginStep, limiter: Option<Window>, ip: string)
    requires l.ip.max >= 1 && LoginEnabled(s, step) && Simulates(l.ip, limiter, At(s.counters, IpKey(ip)))
    ensures var counts := step.CountAddress? && step.ip == ip;
      && Simulates(l.ip, if counts then Some(Admit(l.ip, limiter, step.now)) else limiter,
                   At(LoginApply(l, s, step).counters, IpKey(ip)))
      && (counts ==> LoginApply(l, s, step).begun[step.login] == Begun(ip, step.now, Admits(l.ip, limiter, step.now)))
  {
    hide IpKey, AccountKey;
    match step
    case CountAddress(_, other, _) => KeysApart(other, ip);
    case CountAccount(_, account, _) => KeysApart(ip, account);
    case Throw(_, _) =>
  }

  lemma {:induction false} IpIntervalBound(l: LoginLimits, s: Logins, limiter: Option<Window>, last: int,
                                           steps: seq<LoginStep>, ip: string, from: int, passed: nat, done: nat)
    requires l.ip.windowMs > 0 && l.ip.max >= 1 && LegalLogins(l, last, s, steps)
    requires Simulates(l.ip, limiter, At(s.counters, IpKey(ip))) && Accounted(l.ip, limiter, last, from, passed)
    requires done + |Undecided(s, ip, from, l.ip.windowMs)| <= passed
    ensures done + AdmittedFromIp(l, s, steps, ip, from) <= 2 * l.ip.max - 1
    decreases |steps|
  {
    hide IpKey, AccountKey, Simulates, LoginApply, Undecided;
    if steps == [] {
      PassedBound(l.ip, limiter, last, from, passed);
    } else {
      var step := steps[0];
      var counts := step.CountAddress? && step.ip == ip;
      var limiter' := if counts then Some(Admit(l.ip, limiter, step.now)) else limiter;
      var passes := counts && Admits(l.ip, limiter, step.now) && from <= step.now < from + l.ip.windowMs;
      var decided := LetThrough(l, s, step) && FromIp(s.begun[step.login], ip, from, l.ip.windowMs);
      AddressCounter(l, s, step, limiter, ip);
      UndecidedStep(l, s, step, ip, from);
      OtherAddress(l, s, step);
      IpIntervalBound(l, LoginApply(l, s, step), limiter', step.now, steps[1..], ip, from,
                      passed + (if passes then 1 else 0), done + if decided then 1 else 0);
    }
  }

  lemma OtherAddress(l: LoginLimits, s: Logins, step: LoginStep)
    ensures step.CountAddress? ==>
      step.login in LoginApply(l, s, step).begun && LoginApply(l, s, step).begun[step.login].ip == step.ip
  {
    hide IpKey, AccountKey, Count;
  }

  lemma PassedBound(l: Limit, w: Option<Window>, last: int, from: int, passed: nat)
    requires l.windowMs > 0 && Accounted(l, w, last, from, passed)
    ensures passed <= 2 * Ceiling(l) - 1
  {
  }

  lemma AccountCounter(l: LoginLimits, s: Logins, step: LoginStep, limiter: Option<Window>, account: string)
    requires l.account.max >= 1 && LoginEnabled(s, step)
        && Simulates(l.account, limiter, At(s.counters, AccountKey(account)))
    ensures var counts := step.CountAccount? && step.account == account;
      && Simulates(l.account, if counts then Some(Admit(l.account, limiter, step.now)) else limiter,
                   At(LoginApply(l, s, step).counters, AccountKey(account)))
      && (counts && LetThrough(l, s, step) ==> Admits(l.account, limiter, step.now))
  {
    hide IpKey, AccountKey;
    match step
    case CountAddress(_, ip, _) => KeysApart(ip, account);
    case CountAccount(_, other, _) => KeysApart(other, account);
    case Throw(_, _) =>
  }

  lemma {:induction false} AccountIntervalBound(l: LoginLimits, s: Logins, limiter: Option<Window>, last: int,
                                                steps: seq<LoginStep>, account: string, from: int,
                                                passed: nat, done: nat)
    requires l.account.windowMs > 0 && l.account.max >= 1 && LegalLogins(l, last, s, steps) && done <= passed
    requires Simulates(l.account, limiter, At(s.counters, AccountKey(account)))
        && Accounted(l.account, limiter, last, from, passed)
    ensures done + AdmittedToAccount(l, s, steps, account, from) <= 2 * l.account.max - 1
    decreases |steps|
  {
    hide IpKey, AccountKey, Simulates, LoginApply;
    if steps == [] {
      PassedBound(l.account, limiter, last, from, passed);
    } else {
      var step := steps[0];
      var counts := step.CountAccount? && step.account == account;
      var limiter' := if counts then Some(Admit(l.account, limiter, step.now)) else limiter;
      var inside := counts && from <= step.now < from + l.account.windowMs;
      AccountCounter(l, s, step, limiter, account);
      AccountIntervalBound(l, LoginApply(l, s, step), limiter', step.now, steps[1..], account, from,
                           passed + (if inside && Admits(l.account, limiter, step.now) then 1 else 0),
                           done + if inside && LetThrough(l, s, step) then 1 else 0);
    }
  }

  /**
   * In every interleaving of the two increments of any logins: those let through are bounded per address
   * and per account, whatever the pairings.
   */
  lemma LoginsAreBounded(l: LoginLimits, start: int, steps: seq<LoginStep>, ip: string, account: string, from: int)
    requires l.ip.windowMs > 0 && l.ip.max >= 1 && l.account.windowMs > 0 && l.account.max >= 1
    requires LegalLogins(l, start, Logins(map[], map[]), steps)
    ensures AdmittedFromIp(l, Logins(map[], map[]), steps, ip, from) <= 2 * l.ip.max - 1
    ensures AdmittedToAccount(l, Logins(map[], map[]), steps, account, from) <= 2 * l.account.max - 1
  {
    var s := Logins(map[], map[]);
    assert Undecided(s, ip, from, l.ip.windowMs) == {};
    IpIntervalBound(l, s, None, start, steps, ip, from, 0, 0);
    AccountIntervalBound(l, s, None, start, steps, account, from, 0, 0);
  }

  // ---- logins that must be let through ----

  function LoginExecute(l: LoginLimits, s: Logins, steps: seq<LoginStep>): Logins
    decreases |steps|
  {
    if steps == [] then s else LoginExecute(l, LoginApply(l, s, steps[0]), steps[1..])
  }

  /** When the address was counted. */
  function AddressTimes(steps: seq<LoginStep>, ip: string): seq<int> {
    if steps == [] then []
    else (if steps[0].CountAddress? && steps[0].ip == ip then [steps[0].now] else []) + AddressTimes(steps[1..], ip)
  }

  function AccountTimes(steps: seq<LoginStep>, account: string): seq<int> {
    if steps == [] then []
    else (if steps[0].CountAccount? && steps[0].account == account then [steps[0].now] else [])
         + AccountTimes(steps[1..], account)
  }

  /** How many of the times are later than this one. */
  function Later(times: seq<int>, after: int): nat {
    if times == [] then 0 else (if times[0] > after then 1 else 0) + Later(times[1..], after)
  }

  function CountAll(windowMs: int, w: Option<Window>, times: seq<int>): Option<Window>
    decreases |times|
  {
    if times == [] then w else CountAll(windowMs, Some(Count(windowMs, w, times[0])), times[1..])
  }

  /** A counter holds what the attempts on its own key make of it. */
  lemma {:induction false} CountersFollowAttempts(l: LoginLimits, s: Logins, steps: seq<LoginStep>, ip: string,
                                                  account: string)
    ensures At(LoginExecute(l, s, steps).counters, IpKey(ip))
         == CountAll(l.ip.windowMs, At(s.counters, IpKey(ip)), AddressTimes(steps, ip))
    ensures At(LoginExecute(l, s, steps).counters, AccountKey(account))
         == CountAll(l.account.windowMs, At(s.counters, AccountKey(account)), AccountTimes(steps, account))
    decreases |steps|
  {
    if steps != [] {
      CountersStep(l, s, steps[0], ip, account);
      hide IpKey, AccountKey, Count, LoginApply;
      CountAllCons(l.ip.windowMs, At(s.counters, IpKey(ip)), steps[0].now, AddressTimes(steps[1..], ip));
      CountAllCons(l.account.windowMs, At(s.counters, AccountKey(account)), steps[0].now,
                   AccountTimes(steps[1..], account));
      CountersFollowAttempts(l, LoginApply(l, s, steps[0]), steps[1..], ip, account);
    }
  }

  lemma CountAllCons(windowMs: int, w: Option<Window>, now: int, times: seq<int>)
    ensures CountAll(windowMs, w, [now] + times) == CountAll(windowMs, Some(Count(windowMs, w, now)), times)
    ensures [] + times == times
  {
    assert ([now] + times)[1..] == times;
  }

  lemma CountersStep(l: LoginLimits, s: Logins, step: LoginStep, ip: string, account: string)
    ensures At(LoginApply(l, s, step).counters, IpKey(ip))
         == if step.CountAddress? && step.ip == ip
            then Some(Count(l.ip.windowMs, At(s.counters, IpKey(ip)), step.now)) else At(s.counters, IpKey(ip))
    ensures At(LoginApply(l, s, step).counters, AccountKey(account))
         == if step.CountAccount? && step.account == account
            then Some(Count(l.account.windowMs, At(s.counters, AccountKey(account)), step.now))
            else At(s.counters, AccountKey(account))
  {
    hide IpKey, AccountKey, Count;
    match step
    case CountAddress(_, other, _) =>
      KeysApart(other, account);
      KeysApart(ip, other);
    case CountAccount(_, other, _) =>
      KeysApart(ip, other);
      KeysApart(other, account);
    case Throw(_, _) =>
  }

  /** What a window has counted, besides `before` earlier ones, are attempts made since it opened. */
  lemma {:induction false} CountedSinceOpening(windowMs: int, w: Option<Window>, times: seq<int>, last: int,
                                               before: nat)
    requires windowMs > 0 && Nondecreasing(last, times)
    requires w.Some? ==> w.value.resetAt - windowMs <= last && w.value.count <= before
    ensures var end := CountAll(windowMs, w, times);
      end.Some? ==>
        var since := end.value.resetAt - windowMs;
        && end.value.count
             <= Later(times, since - 1) + (if w.Some? && since == w.value.resetAt - windowMs then before else 0)
    decreases |times|
  {
    if times != [] {
      var next := Count(windowMs, w, times[0]);
      CountedSinceOpening(windowMs, Some(next), times[1..], times[0], if Opens(w, times[0]) then 1 else before + 1);
    }
  }

  lemma {:induction false} LaterShrinks(times: seq<int>, a: int, b: int)
    requires a <= b
    ensures Later(times, b) <= Later(times, a)
  {
    if times != [] { LaterShrinks(times[1..], a, b); }
  }

  /** With fewer than max attempts within the last window's length, the next one is within the limit. */
  lemma FewAttemptsAreWithin(l: Limit, times: seq<int>, start: int, now: int)
    requires l.windowMs > 0 && Nondecreasing(start, times) && Later(times, now - l.windowMs) < l.max
    ensures Count(l.windowMs, CountAll(l.windowMs, None, times), now).count <= l.max
  {
    var w := CountAll(l.windowMs, None, times);
    CountedSinceOpening(l.windowMs, None, times, start, 0);
    if w.Some? && !Opens(w, now) { LaterShrinks(times, now - l.windowMs, w.value.resetAt - l.windowMs - 1); }
  }

  lemma {:induction false} AttemptsInTime(l: LoginLimits, last: int, s: Logins, steps: seq<LoginStep>, ip: string,
                                          account: string)
    requires LegalLogins(l, last, s, steps)
    ensures Nondecreasing(last, AddressTimes(steps, ip)) && Nondecreasing(last, AccountTimes(steps, account))
    decreases |steps|
  {
    if steps != [] {
      var now := steps[0].now;
      AttemptsInTime(l, now, LoginApply(l, s, steps[0]), steps[1..], ip, account);
      StartEarlier(last, now, AddressTimes(steps[1..], ip));
      StartEarlier(last, now, AccountTimes(steps[1..], account));
      assert ([now] + AddressTimes(steps[1..], ip))[1..] == AddressTimes(steps[1..], ip);
      assert ([now] + AccountTimes(steps[1..], account))[1..] == AccountTimes(steps[1..], account);
      assert [] + AddressTimes(steps[1..], ip) == AddressTimes(steps[1..], ip);
      assert [] + AccountTimes(steps[1..], account) == AccountTimes(steps[1..], account);
    }
  }

  lemma StartEarlier(early: int, late: int, times: seq<int>)
    requires early <= late && Nondecreasing(late, times)
    ensures Nondecreasing(early, times)
  {
  }

  lemma {:induction false} LoginConcat(l: LoginLimits, last: int, s: Logins, a: seq<LoginStep>, b: seq<LoginStep>)
    requires LegalLogins(l, last, s, a + b)
    ensures LegalLogins(l, last, s, a) && LoginExecute(l, s, a + b) == LoginExecute(l, LoginExecute(l, s, a), b)
    decreases |a|
  {
    hide LoginApply;
    if a == [] {
      assert a + b == b;
    } else {
      assert (a + b)[1..] == a[1..] + b;
      LoginConcat(l, a[0].now, LoginApply(l, s, a[0]), a[1..], b);
    }
  }

  lemma {:induction false} OthersLeaveLogin(l: LoginLimits, s: Logins, steps: seq<LoginStep>, p: nat)
    requires forall i | 0 <= i < |steps| :: steps[i].login != p
    requires p in s.begun
    ensures p in LoginExecute(l, s, steps).begun && LoginExecute(l, s, steps).begun[p] == s.begun[p]
    decreases |steps|
  {
    if steps != [] {
      assert forall i | 0 <= i < |steps| - 1 :: steps[1..][i] == steps[i + 1];
      assert p in LoginApply(l, s, steps[0]).begun && LoginApply(l, s, steps[0]).begun[p] == s.begun[p];
      hide LoginApply;
      OthersLeaveLogin(l, LoginApply(l, s, steps[0]), steps[1..], p);
    }
  }

  const NO_LOGINS := Logins(map[], map[])

  lemma AddressIsWithin(l: LoginLimits, start: int, steps: seq<LoginStep>, p: nat, ip: string, now: int)
    requires l.ip.windowMs > 0 && LegalLogins(l, start, NO_LOGINS, steps)
    requires Later(AddressTimes(steps, ip), now - l.ip.windowMs) < l.ip.max
    ensures var s := LoginApply(l, LoginExecute(l, NO_LOGINS, steps), CountAddress(p, ip, now));
      p in s.begun && s.begun[p] == Begun(ip, now, true)
  {
    hide IpKey, AccountKey, Count;
    CountersFollowAttempts(l, NO_LOGINS, steps, ip, "");
    AttemptsInTime(l, start, NO_LOGINS, steps, ip, "");
    FewAttemptsAreWithin(l.ip, AddressTimes(steps, ip), start, now);
  }

  lemma AccountIsWithin(l: LoginLimits, start: int, steps: seq<LoginStep>, account: string, now: int)
    requires l.account.windowMs > 0 && LegalLogins(l, start, NO_LOGINS, steps)
    requires Later(AccountTimes(steps, account), now - l.account.windowMs) < l.account.max
    ensures Count(l.account.windowMs, At(LoginExecute(l, NO_LOGINS, steps).counters, AccountKey(account)), now).count
         <= l.account.max
  {
    hide IpKey, AccountKey, Count;
    CountersFollowAttempts(l, NO_LOGINS, steps, "", account);
    AttemptsInTime(l, start, NO_LOGINS, steps, "", account);
    FewAttemptsAreWithin(l.account, AccountTimes(steps, account), start, now);
  }

  /**
   * In every interleaving: a login is let through if its address had been counted fewer times than allowed
   * within the last window's length when it was counted, and its account likewise.
   */
  lemma FewAttemptsLetThrough(l: LoginLimits, start: int, before: seq<LoginStep>, between: seq<LoginStep>, p: nat,
                              ip: string, account: string, at: int, now: int)
    requires l.ip.windowMs > 0 && l.account.windowMs > 0
    requires LegalLogins(l, start, NO_LOGINS, before + [CountAddress(p, ip, at)] + between)
    requires forall i | 0 <= i < |between| :: between[i].login != p
    requires Later(AddressTimes(before, ip), at - l.ip.windowMs) < l.ip.max
    requires Later(AccountTimes(before + [CountAddress(p, ip, at)] + between, account), now - l.account.windowMs)
        < l.account.max
    ensures LetThrough(l, LoginExecute(l, NO_LOGINS, before + [CountAddress(p, ip, at)] + between),
                       CountAccount(p, account, now))
  {
    hide LoginApply, AccountKey, IpKey, Count, Later, AddressTimes, AccountTimes;
    var counted := before + [CountAddress(p, ip, at)];
    LoginConcat(l, start, NO_LOGINS, counted, between);
    LoginConcat(l, start, NO_LOGINS, before, [CountAddress(p, ip, at)]);
    assert [CountAddress(p, ip, at)][1..] == [];
    AddressIsWithin(l, start, before, p, ip, at);
    OthersLeaveLogin(l, LoginExecute(l, NO_LOGINS, counted), between, p);
    AccountIsWithin(l, start, counted + between, account, now);
  }

  /** `consumeLoginRateLimit`, from each await to the next. */
  class LoginRateLimiter {
    const limits: LoginLimits
    var counters: Windows
    var begun: map<nat, Begun>

    ghost function View(): Logins
      reads this
    {
      Logins(counters, begun)
    }

    constructor (limits: LoginLimits)
      ensures this.limits == limits && View() == Logins(map[], map[])
    {
      this.limits := limits;
      counters, begun := map[], map[];
    }

    method IncrementCounter(key: string, windowMs: int, now: int) returns (count: int)
      modifies this`counters
      ensures counters == Increment(windowMs, old(counters), key, now) && count == counters[key].count
    {
      if key !in counters || now >= counters[key].resetAt {
        counters := counters[key := Window(1, now + windowMs)];
        return 1;
      }
      var current := counters[key];
      current := current.(count := current.count + 1);
      counters := counters[key := current];
      count := current.count;
    }

    /** Up to the second await: an address or account digest that is not acceptable counts nothing. */
    method BeginConsume(login: nat, peerIp: Option<string>, accountValid: bool, now: int) returns (waits: bool)
      requires login !in begun
      modifies this
      ensures waits <==> peerIp.Some? && accountValid
      ensures View()
           == if waits then LoginApply(limits, old(View()), CountAddress(login, peerIp.value, now)) else old(View())
    {
      hide IpKey;
      if peerIp.None? || !accountValid { return false; }
      var ipCount := IncrementCounter(IpKey(peerIp.value), limits.ip.windowMs, now);
      begun := begun[login := Begun(peerIp.value, now, !(ipCount > limits.ip.max))];
      waits := true;
    }

    /** From the first count on: the account is counted, unless the counter throws, and the login decided. */
    method FinishConsume(login: nat, account: string, throws: bool, now: int) returns (decision: LoginDecision)
      requires login in begun
      modifies this
      ensures View() == LoginApply(limits, old(View()),
                                   if throws then Throw(login, now) else CountAccount(login, account, now))
      ensures decision.Unavailable? <==> throws
      ensures decision.Admitted? <==> !throws && LetThrough(limits, old(View()), CountAccount(login, account, now))
    {
      hide AccountKey;
      var ipLimited := !begun[login].within;
      begun := begun - {login};
      if throws { return Unavailable; }
      var accountCount := IncrementCounter(AccountKey(account), limits.account.windowMs, now);
      var accountLimited := accountCount > limits.account.max;
      decision := if !ipLimited && !accountLimited then Admitted else Limited;
    }
  }
}
