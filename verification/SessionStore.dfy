/**
 * The session repository the auth use cases run on. Each operation is one atomic step on a map from
 * token digest to record. Times are integer milliseconds.
 */
module SessionStore {
  import opened Wrappers

  datatype Session = Session(
    id: nat,
    userId: nat,
    tokenHash: Digest,
    csrfTokenHash: Digest,
    activeOrganizationId: Option<nat>,
    passwordRevision: int,
    createdAt: int,
    lastSeenAt: int,
    idleExpiresAt: int,
    absoluteExpiresAt: int,
    revokedAt: Option<int>)

  /** What a login asks the repository to store. */
  datatype CreateInput = CreateInput(
    userId: nat,
    tokenHash: Digest,
    csrfTokenHash: Digest,
    activeOrganizationId: Option<nat>,
    passwordRevision: int,
    lastSeenAt: int,
    idleExpiresAt: int,
    absoluteExpiresAt: int)

  /** The record `create` builds: it was created when it was last seen, and is not revoked. */
  function NewSession(id: nat, input: CreateInput): Session {
    Session(id, input.userId, input.tokenHash, input.csrfTokenHash, input.activeOrganizationId, input.passwordRevision,
            input.lastSeenAt, input.lastSeenAt, input.idleExpiresAt, input.absoluteExpiresAt, None)
  }

  type Store = map<Digest, Session>

  predicate Live(store: Store, hash: Digest) {
    hash in store && store[hash].revokedAt.None?
  }

  predicate SeenRecently(record: Session, minLastSeenAt: int) {
    record.lastSeenAt > minLastSeenAt
  }

  function Throttle(store: Store, hash: Digest, lastSeenAt: int, idleExpiresAt: int, minLastSeenAt: int): Store {
    if Live(store, hash) && !SeenRecently(store[hash], minLastSeenAt)
    then store[hash := store[hash].(lastSeenAt := lastSeenAt, idleExpiresAt := idleExpiresAt)]
    else store
  }

  function Rotated(record: Session, next: Digest, csrf: Digest, lastSeenAt: int, idleExpiresAt: int,
                   organization: Option<nat>): Session {
    record.(tokenHash := next, csrfTokenHash := csrf, lastSeenAt := lastSeenAt, idleExpiresAt := idleExpiresAt,
            activeOrganizationId := if organization.None? then record.activeOrganizationId else organization)
  }

  function Rotate(store: Store, hash: Digest, next: Digest, csrf: Digest, lastSeenAt: int, idleExpiresAt: int,
                  organization: Option<nat>): Store {
    if Live(store, hash)
    then (store - {hash})[next := Rotated(store[hash], next, csrf, lastSeenAt, idleExpiresAt, organization)]
    else store
  }

  function ReplaceCsrf(store: Store, hash: Digest, csrf: Digest): Store {
    if Live(store, hash) then store[hash := store[hash].(csrfTokenHash := csrf)] else store
  }

  function Revoke(store: Store, hash: Digest, at: int): Store {
    if Live(store, hash) then store[hash := store[hash].(revokedAt := Some(at))] else store
  }

  predicate Bound(record: Session, userId: nat, organizationId: nat) {
    record.userId == userId && record.activeOrganizationId == Some(organizationId)
  }

  function Cleared(record: Session, userId: nat, organizationId: nat): Session {
    if Bound(record, userId, organizationId) then record.(activeOrganizationId := None) else record
  }

  /** Clears the organization on every record of the user bound to it, revoked records included. */
  function ClearOrganization(store: Store, userId: nat, organizationId: nat): Store {
    map h | h in store :: Cleared(store[h], userId, organizationId)
  }

  /** Those of the given records that are the user's and on the organization. */
  ghost function BoundTo(store: Store, among: set<Digest>, userId: nat, organizationId: nat): set<Digest> {
    set h | h in among && h in store && Bound(store[h], userId, organizationId)
  }

  /** The store when all but the records in `rest` have been visited. */
  ghost function ClearedBut(store: Store, rest: set<Digest>, userId: nat, organizationId: nat): Store {
    map h | h in store :: if h in rest then store[h] else Cleared(store[h], userId, organizationId)
  }

  /** Exactly the sessions of this user that were on this organization are on none; nothing else changes. */
  lemma ClearChanges(store: Store, userId: nat, organizationId: nat)
    ensures var after := ClearOrganization(store, userId, organizationId);
      && after.Keys == store.Keys
      && forall h | h in store ::
           var was, now := store[h], after[h];
           && now == was.(activeOrganizationId := now.activeOrganizationId)
           && now.activeOrganizationId == if was.userId == userId && was.activeOrganizationId == Some(organizationId)
                                          then None else was.activeOrganizationId
  {
  }

  lemma NothingVisited(store: Store, userId: nat, organizationId: nat)
    ensures ClearedBut(store, store.Keys, userId, organizationId) == store
    ensures BoundTo(store, store.Keys - store.Keys, userId, organizationId) == {}
  {
  }

  lemma AllVisited(store: Store, userId: nat, organizationId: nat)
    ensures ClearedBut(store, {}, userId, organizationId) == ClearOrganization(store, userId, organizationId)
    ensures store.Keys - {} == store.Keys
  {
  }

  lemma VisitOne(store: Store, rest: set<Digest>, hash: Digest, userId: nat, organizationId: nat)
    requires rest <= store.Keys && hash in rest
    ensures var before := ClearedBut(store, rest, userId, organizationId);
      && hash in before && before[hash] == store[hash]
      && ClearedBut(store, rest - {hash}, userId, organizationId)
           == before[hash := Cleared(store[hash], userId, organizationId)]
      && (!Bound(store[hash], userId, organizationId) ==> before == before[hash := store[hash]])
    ensures |BoundTo(store, store.Keys - (rest - {hash}), userId, organizationId)|
         == |BoundTo(store, store.Keys - rest, userId, organizationId)|
            + if Bound(store[hash], userId, organizationId) then 1 else 0
  {
    var before := BoundTo(store, store.Keys - rest, userId, organizationId);
    assert BoundTo(store, store.Keys - (rest - {hash}), userId, organizationId)
        == if Bound(store[hash], userId, organizationId) then before + {hash} else before;
  }

  class MemorySessionRepository {
    var byTokenHash: Store

    constructor (records: Store)
      ensures byTokenHash == records
    {
      byTokenHash := records;
    }

    /** The identifier is the one the repository generates. */
    method Create(id: nat, input: CreateInput) returns (record: Session)
      modifies this
      ensures record == NewSession(id, input) && byTokenHash == old(byTokenHash)[input.tokenHash := record]
      ensures record.id == id && record.tokenHash == input.tokenHash && record.csrfTokenHash == input.csrfTokenHash
      ensures record.userId == input.userId && record.activeOrganizationId == input.activeOrganizationId
      ensures record.createdAt == record.lastSeenAt == input.lastSeenAt && record.revokedAt == None
      ensures record.idleExpiresAt == input.idleExpiresAt && record.absoluteExpiresAt == input.absoluteExpiresAt
      ensures record.passwordRevision == input.passwordRevision
    {
      record := Session(id, input.userId, input.tokenHash, input.csrfTokenHash, input.activeOrganizationId,
                        input.passwordRevision, input.lastSeenAt, input.lastSeenAt, input.idleExpiresAt,
                        input.absoluteExpiresAt, None);
      byTokenHash := byTokenHash[record.tokenHash := record];
    }

    method FindByTokenHash(tokenHash: Digest) returns (found: Option<Session>)
      ensures found == if tokenHash in byTokenHash then Some(byTokenHash[tokenHash]) else None
    {
      found := if tokenHash in byTokenHash then Some(byTokenHash[tokenHash]) else None;
    }

    method UpdateThrottledLastSeen(tokenHash: Digest, lastSeenAt: int, idleExpiresAt: int, minLastSeenAt: int)
      returns (updated: Option<Session>)
      modifies this
      ensures byTokenHash == Throttle(old(byTokenHash), tokenHash, lastSeenAt, idleExpiresAt, minLastSeenAt)
      ensures updated.Some?
         <==> Live(old(byTokenHash), tokenHash) && !SeenRecently(old(byTokenHash)[tokenHash], minLastSeenAt)
      ensures updated.Some? ==> updated.value == byTokenHash[tokenHash]
      ensures updated.Some? ==>
        var record := old(byTokenHash)[tokenHash];
        && record.revokedAt == None && record.lastSeenAt <= minLastSeenAt
        && byTokenHash
             == old(byTokenHash)[tokenHash := record.(lastSeenAt := lastSeenAt, idleExpiresAt := idleExpiresAt)]
      ensures updated.None? ==> byTokenHash == old(byTokenHash)
    {
      if tokenHash !in byTokenHash { return None; }
      var current := byTokenHash[tokenHash];
      if current.revokedAt.Some? || current.lastSeenAt > minLastSeenAt { return None; }
      var next := current.(lastSeenAt := lastSeenAt, idleExpiresAt := idleExpiresAt);
      byTokenHash := byTokenHash[tokenHash := next];
      updated := Some(next);
    }

    method RotateSession(current: Digest, next: Digest, csrf: Digest, lastSeenAt: int, idleExpiresAt: int,
                         organization: Option<nat>)
      returns (updated: Option<Session>)
      modifies this
      ensures byTokenHash == Rotate(old(byTokenHash), current, next, csrf, lastSeenAt, idleExpiresAt, organization)
      ensures updated.Some? <==> Live(old(byTokenHash), current)
      ensures updated.Some? ==> next in byTokenHash && updated.value == byTokenHash[next]
      ensures updated.Some? ==>
        var was, record := old(byTokenHash)[current], updated.value;
        && byTokenHash == (old(byTokenHash) - {current})[next := record]
        && record.tokenHash == next && record.csrfTokenHash == csrf && record.lastSeenAt == lastSeenAt
        && record.idleExpiresAt == idleExpiresAt && record.absoluteExpiresAt == was.absoluteExpiresAt
        && record.id == was.id && record.userId == was.userId && record.createdAt == was.createdAt
        && record.passwordRevision == was.passwordRevision && record.revokedAt == None
        && record.activeOrganizationId == if organization.Some? then organization else was.activeOrganizationId
      ensures updated.None? ==> byTokenHash == old(byTokenHash)
    {
      if current !in byTokenHash || byTokenHash[current].revokedAt.Some? { return None; }
      var record := byTokenHash[current];
      byTokenHash := byTokenHash - {current};
      var organizationId := if organization.None? then record.activeOrganizationId else organization;
      record := record.(tokenHash := next, csrfTokenHash := csrf, lastSeenAt := lastSeenAt,
                        idleExpiresAt := idleExpiresAt, activeOrganizationId := organizationId);
      byTokenHash := byTokenHash[record.tokenHash := record];
      updated := Some(record);
    }

    method ReplaceCsrfToken(tokenHash: Digest, csrf: Digest) returns (updated: Option<Session>)
      modifies this
      ensures byTokenHash == ReplaceCsrf(old(byTokenHash), tokenHash, csrf)
      ensures updated.Some? <==> Live(old(byTokenHash), tokenHash)
      ensures updated.Some? ==> updated.value == byTokenHash[tokenHash]
      ensures updated.Some? ==>
        byTokenHash == old(byTokenHash)[tokenHash := old(byTokenHash)[tokenHash].(csrfTokenHash := csrf)]
      ensures updated.None? ==> byTokenHash == old(byTokenHash)
    {
      if tokenHash !in byTokenHash || byTokenHash[tokenHash].revokedAt.Some? { return None; }
      byTokenHash := byTokenHash[tokenHash := byTokenHash[tokenHash].(csrfTokenHash := csrf)];
      updated := Some(byTokenHash[tokenHash]);
    }

    method RevokeCurrent(tokenHash: Digest, at: int) returns (updated: Option<Session>)
      modifies this
      ensures byTokenHash == Revoke(old(byTokenHash), tokenHash, at)
      ensures updated.Some? <==> Live(old(byTokenHash), tokenHash)
      ensures updated.Some? ==> updated.value == byTokenHash[tokenHash]
      ensures updated.Some? ==>
        byTokenHash == old(byTokenHash)[tokenHash := old(byTokenHash)[tokenHash].(revokedAt := Some(at))]
      ensures updated.None? ==> byTokenHash == old(byTokenHash)
    {
      if tokenHash !in byTokenHash || byTokenHash[tokenHash].revokedAt.Some? { return None; }
      byTokenHash := byTokenHash[tokenHash := byTokenHash[tokenHash].(revokedAt := Some(at))];
      updated := Some(byTokenHash[tokenHash]);
    }

    /** The loop over the live map: each entry is visited once and at most replaced under its own key. */
    method ClearActiveOrganization(userId: nat, organizationId: nat) returns (count: nat)
      modifies this
      ensures byTokenHash == ClearOrganization(old(byTokenHash), userId, organizationId)
      ensures count == |BoundTo(old(byTokenHash), old(byTokenHash).Keys, userId, organizationId)|
      ensures forall h | h in byTokenHash && h in old(byTokenHash) ::
        var was, now := old(byTokenHash)[h], byTokenHash[h];
        if was.userId == userId && was.activeOrganizationId == Some(organizationId)
        then now == was.(activeOrganizationId := None) else now == was
    {
      hide BoundTo, ClearedBut;
      count := 0;
      ghost var was := byTokenHash;
      var rest := byTokenHash.Keys;
      NothingVisited(was, userId, organizationId);
      while rest != {}
        invariant rest <= was.Keys && byTokenHash == ClearedBut(was, rest, userId, organizationId)
        invariant count == |BoundTo(was, was.Keys - rest, userId, organizationId)|
        decreases |rest|
      {
        var hash :| hash in rest;
        VisitOne(was, rest, hash, userId, organizationId);
        rest := rest - {hash};
        var record := byTokenHash[hash];
        if Bound(record, userId, organizationId) {
          byTokenHash := byTokenHash[hash := record.(activeOrganizationId := None)];
          count := count + 1;
        }
      }
      AllVisited(was, userId, organizationId);
    }
  }
}
