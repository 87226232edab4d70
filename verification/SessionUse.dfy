/**
 * One resolve run to completion, as the code performs it on the repository, and what a sequence of
 * such uses does to idle expiry although last-seen writes are throttled.
 */
module SessionUse {
  import opened Numbers
  import opened Wrappers
  import opened SessionStore
  import L = SessionLifecycle

  /** What resolving at `now` leaves in the store when nothing but the session decides. */
  function Use(c: L.Config, store: Store, hash: Digest, now: int): Store {
    if hash in store && L.Passes(store[hash], now)
    then Throttle(store, hash, now, now + c.idleTtl, now - c.lastSeenMinInterval)
    else store
  }

  predicate Usable(store: Store, hash: Digest, now: int) {
    hash in store && L.Passes(store[hash], now)
  }

  /** Every use in the list succeeds. */
  predicate AllSucceed(c: L.Config, store: Store, hash: Digest, times: seq<int>)
    decreases |times|
  {
    times == [] || (Usable(store, hash, times[0]) && AllSucceed(c, Use(c, store, hash, times[0]), hash, times[1..]))
  }

  /** No use in the list succeeds. */
  predicate AllFail(c: L.Config, store: Store, hash: Digest, times: seq<int>)
    decreases |times|
  {
    times == [] || (!Usable(store, hash, times[0]) && AllFail(c, Use(c, store, hash, times[0]), hash, times[1..]))
  }

  ghost predicate GapsAtMost(last: int, times: seq<int>, gap: int)
    decreases |times|
  {
    times == [] || (last <= times[0] <= last + gap && GapsAtMost(times[0], times[1..], gap))
  }

  /**
   * A session used at gaps of at most the idle TTL minus the write interval never idles out before
   * its absolute expiry, although most uses write nothing.
   */
  lemma {:induction false} RegularUseNeverIdlesOut(c: L.Config, store: Store, hash: Digest, last: int, times: seq<int>)
    requires c.lastSeenMinInterval > 0 && Live(store, hash) && L.Timed(c, store[hash])
    requires store[hash].lastSeenAt > last - c.lastSeenMinInterval
    requires GapsAtMost(last, times, c.idleTtl - c.lastSeenMinInterval)
    requires forall i | 0 <= i < |times| :: times[i] < store[hash].absoluteExpiresAt
    ensures AllSucceed(c, store, hash, times)
    decreases |times|
  {
    if times != [] {
      assert times[1..] == times[1..|times|];
      RegularUseNeverIdlesOut(c, Use(c, store, hash, times[0]), hash, times[0], times[1..]);
    }
  }

  /** A gap of at least the idle TTL after the last sighting always ends the session, for good. */
  lemma {:induction false} LongGapAlwaysIdlesOut(c: L.Config, store: Store, hash: Digest, last: int, times: seq<int>)
    requires hash in store && L.Timed(c, store[hash]) && store[hash].lastSeenAt <= last
    requires Nondecreasing(last + c.idleTtl, times)
    ensures AllFail(c, store, hash, times)
    decreases |times|
  {
    if times != [] {
      Later(last + c.idleTtl, times[0], times[1..]);
      LongGapAlwaysIdlesOut(c, store, hash, last, times[1..]);
    }
  }

  lemma Later(early: int, late: int, times: seq<int>)
    requires early <= late && Nondecreasing(late, times)
    ensures Nondecreasing(early, times)
  {
  }

  /** The regular-use bound is sharp: one millisecond more between two uses can end the session. */
  lemma BoundIsSharp(c: L.Config, store: Store, hash: Digest)
    requires 1 < c.lastSeenMinInterval <= c.idleTtl
    requires Live(store, hash) && L.Timed(c, store[hash]) && store[hash].absoluteExpiresAt > store[hash].idleExpiresAt
    ensures var early := store[hash].lastSeenAt + c.lastSeenMinInterval - 1;
      var next := early + (c.idleTtl - c.lastSeenMinInterval) + 1;
      Usable(store, hash, early) && !Usable(Use(c, store, hash, early), hash, next)
  {
  }

  /** The store once an organization that no longer binds the user is cleared from the user's sessions. */
  function Unbound(store: Store, hash: Digest, member: bool): Store
    requires hash in store
  {
    if member || store[hash].activeOrganizationId.None? then store
    else ClearOrganization(store, store[hash].userId, store[hash].activeOrganizationId.value)
  }

  /**
   * `executeResolveSession` without interleaving. The answers of the user, credential and membership
   * lookups are parameters; `member` says whether the session's organization still binds the user.
   */
  method ExecuteResolveSession(repository: MemorySessionRepository, c: L.Config, token: string, now: int,
                               userActive: bool, credentialRevision: Option<int>, member: bool)
    returns (resolved: Option<Session>)
    requires forall h | h in repository.byTokenHash :: repository.byTokenHash[h].tokenHash == h
    modifies repository
    ensures resolved.Some? <==>
      && |token| > 0 && Usable(old(repository.byTokenHash), OfSession(token), now) && userActive
      && credentialRevision == Some(old(repository.byTokenHash)[OfSession(token)].passwordRevision)
    ensures resolved.None? ==> repository.byTokenHash == old(repository.byTokenHash)
    ensures resolved.Some? ==>
      var h := OfSession(token);
      && repository.byTokenHash == Use(c, Unbound(old(repository.byTokenHash), h, member), h, now)
      && h in repository.byTokenHash && resolved.value == repository.byTokenHash[h]
    ensures resolved.Some? ==> resolved.value.revokedAt.None?
    ensures resolved.Some? && !member ==> resolved.value.activeOrganizationId.None?
  {
    if |token| == 0 { return None; }
    var tokenHash := OfSession(token);
    var found := repository.FindByTokenHash(tokenHash);
    if found.None? { return None; }
    var session := found.value;
    if session.revokedAt.Some? || now >= session.idleExpiresAt || now >= session.absoluteExpiresAt { return None; }
    if !userActive { return None; }
    if credentialRevision.None? || credentialRevision.value != session.passwordRevision { return None; }
    var organization := session.activeOrganizationId;
    if organization.Some? && !member {
      var _ := repository.ClearActiveOrganization(session.userId, organization.value);
      organization := None;
    }
    var updated := repository.UpdateThrottledLastSeen(session.tokenHash, now,
                                                      now + c.idleTtl, now - c.lastSeenMinInterval);
    resolved := if updated.Some? then updated else Some(session.(activeOrganizationId := organization));
  }

  // ---- the other use cases, without interleaving ----

  /** `sessionExpiresAt`: the earlier of the two expiries. */
  function SessionExpiresAt(session: Session): int {
    if session.idleExpiresAt <= session.absoluteExpiresAt then session.idleExpiresAt else session.absoluteExpiresAt
  }

  /** A session can be used exactly until it is revoked or reaches the expiry the client is told. */
  lemma UsableUntilExpiry(store: Store, hash: Digest, now: int)
    ensures Usable(store, hash, now) <==> Live(store, hash) && now < SessionExpiresAt(store[hash])
  {
  }

  /** The organization a login opens on: the only one of the user, if there is exactly one. */
  function OnlyOne(memberships: seq<nat>): Option<nat> { if |memberships| == 1 then Some(memberships[0]) else None }

  /** `issueSession`: exactly the new session is added, and it can be used exactly until the expiry returned. */
  method IssueSession(repository: MemorySessionRepository, c: L.Config, id: nat, userId: nat, passwordRevision: int,
                      memberships: seq<nat>, token: string, csrf: string, now: int)
    returns (expiresAt: int)
    modifies repository
    ensures var h := OfSession(token);
      var record := NewSession(id, L.LoginInput(c, userId, token, csrf, OnlyOne(memberships), passwordRevision, now));
      && repository.byTokenHash == old(repository.byTokenHash)[h := record]
      && L.Timed(c, record) && record.createdAt == record.lastSeenAt == now
      && (forall t :: Usable(repository.byTokenHash, h, t) <==> t < expiresAt)
  {
    var selected := None;
    if |memberships| == 1 { selected := Some(memberships[0]); }
    var session := repository.Create(id, CreateInput(userId, OfSession(token), OfCsrf(csrf), selected, passwordRevision,
                                                     now, now + c.idleTtl, now + c.absoluteTtl));
    expiresAt := SessionExpiresAt(session);
  }

  /** `readOnce`: a successful resolve, then a fresh CSRF token whose digest is stored. */
  method ReadOnce(repository: MemorySessionRepository, c: L.Config, token: string, csrf: string, now: int,
                  userActive: bool, credentialRevision: Option<int>, member: bool)
    returns (answer: Option<Session>)
    requires forall h | h in repository.byTokenHash :: repository.byTokenHash[h].tokenHash == h
    modifies repository
    ensures answer.Some? <==>
      && |token| > 0 && Usable(old(repository.byTokenHash), OfSession(token), now) && userActive
      && credentialRevision == Some(old(repository.byTokenHash)[OfSession(token)].passwordRevision)
    ensures answer.Some? ==> var h := OfSession(token);
      var resolved := Use(c, Unbound(old(repository.byTokenHash), h, member), h, now);
      && h in resolved && answer.value == resolved[h].(csrfTokenHash := OfCsrf(csrf))
      && repository.byTokenHash == resolved[h := answer.value]
    ensures answer.None? ==> repository.byTokenHash == old(repository.byTokenHash)
  {
    var resolved := ExecuteResolveSession(repository, c, token, now, userActive, credentialRevision, member);
    if resolved.None? { return None; }
    answer := repository.ReplaceCsrfToken(OfSession(token), OfCsrf(csrf));
  }

  /** `rotateOntoOrganization`: the session lives on under the new token alone, with its absolute expiry. */
  method RotateOntoOrganization(repository: MemorySessionRepository, c: L.Config, session: Session, bound: Option<nat>,
                                token: string, csrf: string, now: int)
    returns (rotated: Option<Session>)
    requires session.tokenHash != OfSession(token)
    modifies repository
    ensures rotated.Some? <==> bound.Some? && Live(old(repository.byTokenHash), session.tokenHash)
    ensures rotated.None? ==> repository.byTokenHash == old(repository.byTokenHash)
    ensures rotated.Some? ==>
      var h := OfSession(token); var store := repository.byTokenHash;
      var was := old(repository.byTokenHash)[session.tokenHash];
      && store == (old(repository.byTokenHash) - {session.tokenHash})[h := rotated.value]
      && rotated.value == was.(tokenHash := h, csrfTokenHash := OfCsrf(csrf), lastSeenAt := now,
                               idleExpiresAt := now + c.idleTtl, activeOrganizationId := bound)
      && (forall t :: Usable(store, h, t) <==> t < now + c.idleTtl && t < was.absoluteExpiresAt)
  {
    if bound.None? { return None; }
    rotated := repository.RotateSession(session.tokenHash, OfSession(token), OfCsrf(csrf), now, now + c.idleTtl, bound);
  }

  /** `executeLogout`: whatever the cookie held, the session it names can never be used again. */
  method ExecuteLogout(repository: MemorySessionRepository, token: Option<string>, now: int) returns (revoked: bool)
    modifies repository
    ensures revoked <==> token.Some? && token.value != "" && Live(old(repository.byTokenHash), OfSession(token.value))
    ensures token.Some? && token.value != "" ==> forall t :: !Usable(repository.byTokenHash, OfSession(token.value), t)
    ensures repository.byTokenHash.Keys == old(repository.byTokenHash).Keys
    ensures forall h | h in repository.byTokenHash && (token.None? || h != OfSession(token.value)) ::
      repository.byTokenHash[h] == old(repository.byTokenHash)[h]
  {
    if token.None? || token.value == "" { return false; }
    var record := repository.RevokeCurrent(OfSession(token.value), now);
    revoked := record.Some?;
  }
}
