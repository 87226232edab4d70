/**
 * The in-memory upload idempotency records: reserve, reclaim after expiry, finalize once, replay. The
 * clock is a parameter of each call and may do anything; the guarantees do not depend on it.
 */
module Idempotency {
  import opened Text
  import opened Wrappers

  /** The text an organization, a scope and a key hash are joined into. */
  datatype Key = Key(text: string)

  datatype Status = Started | Completed | Conflicted

  datatype Reservation = Reservation(
    fingerprint: string, status: Status, expiresAt: int, finalFingerprint: Option<string>, response: Option<string>)

  type Records = map<Key, Reservation>

  datatype Call =
    | Reserve(key: Key, fingerprint: string, expiresAt: int, now: int)
    | Find(key: Key, now: int)
    | Reclaim(key: Key, fingerprint: string, expiresAt: int, now: int)
    | Finalize(key: Key, fingerprint: string, finalFingerprint: string, response: string)
    | Resolve(key: Key, finalFingerprint: string)

  datatype Answer =
    | Acquired | UnexpiredStarted | ReclaimableExpired | AlreadyCompleted | Conflict
    | Found | Missing | Reclaimed | Finalized | Replay(response: string) | FingerprintMismatch

  predicate Running(s: Records, key: Key) { key in s && s[key].status == Started }

  predicate Done(s: Records, key: Key) { key in s && s[key].status == Completed }

  function Answered(s: Records, call: Call): Answer {
    match call
    case Reserve(key, fingerprint, expiresAt, now) =>
      if key !in s then Acquired
      else if s[key].status == Completed then AlreadyCompleted
      else if s[key].status == Started && s[key].expiresAt > now then
        (if s[key].fingerprint != fingerprint then Conflict else UnexpiredStarted)
      else if s[key].status == Started then ReclaimableExpired
      else Conflict
    case Find(key, now) => if Running(s, key) && s[key].expiresAt > now then Found else Missing
    case Reclaim(key, fingerprint, expiresAt, now) =>
      if !Running(s, key) || s[key].expiresAt > now then Conflict else Reclaimed
    case Finalize(key, fingerprint, finalFingerprint, response) =>
      if !Running(s, key) || s[key].fingerprint != fingerprint then Conflict else Finalized
    case Resolve(key, finalFingerprint) =>
      if !Done(s, key) || s[key].response.None? then Missing
      else if s[key].finalFingerprint != Some(finalFingerprint) then FingerprintMismatch
      else Replay(s[key].response.value)
  }

  function Apply(s: Records, call: Call): Records {
    match Answered(s, call)
    case Acquired => s[call.key := Reservation(call.fingerprint, Started, call.expiresAt, None, None)]
    case Reclaimed => s[call.key := s[call.key].(fingerprint := call.fingerprint, expiresAt := call.expiresAt)]
    case Finalized =>
      s[call.key := s[call.key].(status := Completed, finalFingerprint := Some(call.finalFingerprint),
                                 fingerprint := call.finalFingerprint, response := Some(call.response))]
    case _ => s
  }

  // ---- runs from an empty store ----

  /** The records after the first n calls. */
  function After(calls: seq<Call>, n: nat): Records
    requires n <= |calls|
  {
    if n == 0 then map[] else Apply(After(calls, n - 1), calls[n - 1])
  }

  function AnswerAt(calls: seq<Call>, i: nat): Answer
    requires i < |calls|
  {
    Answered(After(calls, i), calls[i])
  }

  /** Call i makes this fingerprint the holder of the key. */
  predicate Claims(calls: seq<Call>, i: nat, key: Key)
    requires i < |calls|
  {
    calls[i].key == key && AnswerAt(calls, i) in {Acquired, Reclaimed}
  }

  predicate Finalizes(calls: seq<Call>, i: nat, key: Key)
    requires i < |calls|
  {
    calls[i].key == key && AnswerAt(calls, i) == Finalized
  }

  lemma {:induction false} CompletedStays(calls: seq<Call>, i: nat, j: nat, key: Key)
    requires i <= j <= |calls| && Done(After(calls, i), key)
    ensures key in After(calls, j) && After(calls, j)[key] == After(calls, i)[key]
    decreases j - i
  {
    if i < j { CompletedStays(calls, i, j - 1, key); }
  }

  /** Over every run: at most one finalize succeeds per key, and what it stored never changes. */
  lemma FinalizedOnce(calls: seq<Call>, i: nat, j: nat, key: Key)
    requires i < j <= |calls| && Finalizes(calls, i, key)
    ensures key in After(calls, j)
    ensures After(calls, j)[key].response == Some(calls[i].response)
    ensures After(calls, j)[key].finalFingerprint == Some(calls[i].finalFingerprint)
    ensures After(calls, j)[key].fingerprint == calls[i].finalFingerprint && Done(After(calls, j), key)
    ensures j < |calls| ==> !Finalizes(calls, j, key)
  {
    assert After(calls, i + 1) == Apply(After(calls, i), calls[i]);
    CompletedStays(calls, i + 1, j, key);
  }

  /** A completed record was completed by one of the calls. */
  lemma {:induction false} CompletedBySomeone(calls: seq<Call>, n: nat, key: Key) returns (i: nat)
    requires n <= |calls| && Done(After(calls, n), key)
    ensures i < n && Finalizes(calls, i, key)
  {
    if Done(After(calls, n - 1), key) { i := CompletedBySomeone(calls, n - 1, key); } else { i := n - 1; }
  }

  /** Call i finalized the key of the replay n with this response and the replay's final fingerprint. */
  predicate StoredFor(calls: seq<Call>, i: nat, n: nat, response: string)
    requires n < |calls| && calls[n].Resolve?
  {
    i < n && Finalizes(calls, i, calls[n].key) && calls[i].response == response
    && calls[i].finalFingerprint == calls[n].finalFingerprint
  }

  /**
   * A replay hands out a response if and only if an earlier finalize of that key succeeded with that
   * response and that final fingerprint.
   */
  lemma ReplayIffFinalized(calls: seq<Call>, n: nat, response: string)
    requires n < |calls| && calls[n].Resolve?
    ensures AnswerAt(calls, n) == Replay(response)
       <==> exists i: nat :: StoredFor(calls, i, n, response)
  {
    var key := calls[n].key;
    if AnswerAt(calls, n) == Replay(response) {
      var i := CompletedBySomeone(calls, n, key);
      FinalizedOnce(calls, i, n, key);
      assert StoredFor(calls, i, n, response);
    }
    if i: nat :| StoredFor(calls, i, n, response) {
      FinalizedOnce(calls, i, n, key);
      assert After(calls, i + 1) == Apply(After(calls, i), calls[i]);
      CompletedStays(calls, i + 1, n, key);
    }
  }

  /** It reports a mismatch exactly when the key was finalized under another final fingerprint. */
  lemma MismatchIffFinalizedOtherwise(calls: seq<Call>, n: nat)
    requires n < |calls| && calls[n].Resolve?
    ensures AnswerAt(calls, n) == FingerprintMismatch
       <==> exists i: nat :: i < n && Finalizes(calls, i, calls[n].key)
                             && calls[i].finalFingerprint != calls[n].finalFingerprint
  {
    var key := calls[n].key;
    if Done(After(calls, n), key) {
      var i := CompletedBySomeone(calls, n, key);
      FinalizedOnce(calls, i, n, key);
    }
    if i: nat :| i < n && Finalizes(calls, i, key) { FinalizedOnce(calls, i, n, key); }
    forall i: nat | i < n && Finalizes(calls, i, key)
      ensures After(calls, n)[key].finalFingerprint == Some(calls[i].finalFingerprint)
    {
      FinalizedOnce(calls, i, n, key);
    }
  }

  /** The last claim of the key before call n. */
  predicate LastClaim(calls: seq<Call>, i: nat, n: nat, key: Key)
    requires n <= |calls|
  {
    i < n && Claims(calls, i, key) && forall j :: i < j < n ==> !Claims(calls, j, key)
  }

  lemma {:induction false} HeldByLastClaim(calls: seq<Call>, n: nat, key: Key) returns (i: nat)
    requires n <= |calls| && Running(After(calls, n), key)
    ensures LastClaim(calls, i, n, key) && After(calls, n)[key].fingerprint == calls[i].fingerprint
    ensures After(calls, n)[key].expiresAt == calls[i].expiresAt
  {
    if Claims(calls, n - 1, key) {
      i := n - 1;
    } else {
      i := HeldByLastClaim(calls, n - 1, key);
    }
  }

  lemma {:induction false} ClaimLasts(calls: seq<Call>, i: nat, n: nat, key: Key)
    requires n <= |calls| && LastClaim(calls, i, n, key) && forall j :: i < j < n ==> !Finalizes(calls, j, key)
    ensures Running(After(calls, n), key) && After(calls, n)[key].fingerprint == calls[i].fingerprint
    ensures After(calls, n)[key].expiresAt == calls[i].expiresAt
    decreases n
  {
    if n == i + 1 {
      assert After(calls, n) == Apply(After(calls, i), calls[i]);
    } else {
      assert LastClaim(calls, i, n - 1, key);
      ClaimLasts(calls, i, n - 1, key);
      assert !Claims(calls, n - 1, key) && !Finalizes(calls, n - 1, key);
    }
  }

  /** Call i is the last claim of the key finalize n is about, with its fingerprint, and is still open. */
  predicate HoldsFor(calls: seq<Call>, i: nat, n: nat)
    requires n < |calls| && calls[n].Finalize?
  {
    LastClaim(calls, i, n, calls[n].key) && calls[i].fingerprint == calls[n].fingerprint
    && forall j :: i < j < n ==> !Finalizes(calls, j, calls[n].key)
  }

  /**
   * A finalize succeeds if and only if the last claim of the key carried its fingerprint and nobody has
   * finalized since: a reclaim with another fingerprint fences whoever held the key before.
   */
  lemma FinalizesIffHolder(calls: seq<Call>, n: nat)
    requires n < |calls| && calls[n].Finalize?
    ensures AnswerAt(calls, n) == Finalized
       <==> exists i: nat :: HoldsFor(calls, i, n)
  {
    var key := calls[n].key;
    if AnswerAt(calls, n) == Finalized {
      var i := HeldByLastClaim(calls, n, key);
      forall j | i < j < n ensures !Finalizes(calls, j, key) {
        if Finalizes(calls, j, key) { FinalizedOnce(calls, j, n, key); }
      }
      assert HoldsFor(calls, i, n);
    }
    if i: nat :| HoldsFor(calls, i, n) {
      ClaimLasts(calls, i, n, key);
    }
  }

  /** Call i is the last claim of the key before call n, and nobody has finalized since. */
  predicate Open(calls: seq<Call>, i: nat, n: nat, key: Key)
    requires n <= |calls|
  {
    LastClaim(calls, i, n, key) && forall j :: i < j < n ==> !Finalizes(calls, j, key)
  }

  lemma FinalizedIsOver(calls: seq<Call>, n: nat, key: Key)
    requires n <= |calls| && Running(After(calls, n), key)
    ensures forall j: nat | j < n :: !Finalizes(calls, j, key)
  {
    forall j: nat | j < n ensures !Finalizes(calls, j, key) {
      if Finalizes(calls, j, key) { FinalizedOnce(calls, j, n, key); }
    }
  }

  lemma OpenIffRunning(calls: seq<Call>, n: nat, key: Key)
    requires n <= |calls|
    ensures Running(After(calls, n), key) <==> exists i: nat :: Open(calls, i, n, key)
    ensures forall i: nat | Open(calls, i, n, key) ::
              && After(calls, n)[key].fingerprint == calls[i].fingerprint
              && After(calls, n)[key].expiresAt == calls[i].expiresAt
  {
    hide After, Finalizes;
    if Running(After(calls, n), key) {
      var i := HeldByLastClaim(calls, n, key);
      FinalizedIsOver(calls, n, key);
      assert Open(calls, i, n, key);
    }
    forall i: nat | Open(calls, i, n, key)
      ensures Running(After(calls, n), key)
      ensures After(calls, n)[key].fingerprint == calls[i].fingerprint
      ensures After(calls, n)[key].expiresAt == calls[i].expiresAt
    {
      ClaimLasts(calls, i, n, key);
    }
  }

  /** An open claim of the key that had, or had not, run out at this time. */
  predicate OpenUntil(calls: seq<Call>, i: nat, n: nat, key: Key, now: int, expired: bool)
    requires n <= |calls|
  {
    Open(calls, i, n, key) && (calls[i].expiresAt <= now <==> expired)
  }

  /** Over every run: a reservation changes hands exactly when its last claim is open and had run out by then. */
  lemma ReclaimsIffExpired(calls: seq<Call>, n: nat)
    requires n < |calls| && calls[n].Reclaim?
    ensures AnswerAt(calls, n) == Reclaimed
       <==> exists i: nat :: OpenUntil(calls, i, n, calls[n].key, calls[n].now, true)
    ensures AnswerAt(calls, n) != Reclaimed ==> After(calls, n + 1) == After(calls, n)
  {
    var key := calls[n].key;
    OpenIffRunning(calls, n, key);
    if AnswerAt(calls, n) == Reclaimed {
      var i: nat :| Open(calls, i, n, key);
      assert OpenUntil(calls, i, n, key, calls[n].now, true);
    }
    if i: nat :| OpenUntil(calls, i, n, key, calls[n].now, true) { assert Open(calls, i, n, key); }
  }

  /** Over every run: find sees a reservation exactly while its last claim is open and has not run out. */
  lemma FindsIffUnexpired(calls: seq<Call>, n: nat)
    requires n < |calls| && calls[n].Find?
    ensures AnswerAt(calls, n) == Found <==> exists i: nat :: OpenUntil(calls, i, n, calls[n].key, calls[n].now, false)
  {
    var key := calls[n].key;
    OpenIffRunning(calls, n, key);
    if AnswerAt(calls, n) == Found {
      var i: nat :| Open(calls, i, n, key);
      assert OpenUntil(calls, i, n, key, calls[n].now, false);
    }
    if i: nat :| OpenUntil(calls, i, n, key, calls[n].now, false) { assert Open(calls, i, n, key); }
  }

  lemma {:induction false} StoredBySomeone(calls: seq<Call>, n: nat, key: Key)
    requires n <= |calls|
    ensures key in After(calls, n) <==> exists i: nat :: i < n && Claims(calls, i, key)
    ensures key in After(calls, n) ==> After(calls, n)[key].status != Conflicted
  {
    if n > 0 {
      StoredBySomeone(calls, n - 1, key);
      assert key in After(calls, n) && key !in After(calls, n - 1) ==> Claims(calls, n - 1, key);
    }
  }

  lemma DoneIffFinalized(calls: seq<Call>, n: nat, key: Key)
    requires n <= |calls|
    ensures Done(After(calls, n), key) <==> exists i: nat :: i < n && Finalizes(calls, i, key)
  {
    if Done(After(calls, n), key) { var i := CompletedBySomeone(calls, n, key); }
    if i: nat :| i < n && Finalizes(calls, i, key) { FinalizedOnce(calls, i, n, key); }
  }

  /**
   * What a reserve is answered, over every run: it acquires a key nobody claimed; while the last claim is
   * open, that depends on its expiry and its fingerprint; and after a finalize the key is completed.
   */
  lemma ReserveAnswers(calls: seq<Call>, n: nat)
    requires n < |calls| && calls[n].Reserve?
    ensures var key, answer := calls[n].key, AnswerAt(calls, n);
      && (answer == Acquired <==> !exists i: nat :: i < n && Claims(calls, i, key))
      && (answer == AlreadyCompleted <==> exists i: nat :: i < n && Finalizes(calls, i, key))
      && (forall i: nat | Open(calls, i, n, key) ::
            answer == if calls[i].expiresAt <= calls[n].now then ReclaimableExpired
                      else if calls[i].fingerprint == calls[n].fingerprint then UnexpiredStarted else Conflict)
      && (answer in {ReclaimableExpired, UnexpiredStarted, Conflict} <==> exists i: nat :: Open(calls, i, n, key))
  {
    var key := calls[n].key;
    OpenIffRunning(calls, n, key);
    StoredBySomeone(calls, n, key);
    DoneIffFinalized(calls, n, key);
    hide After, Open, Claims, Finalizes;
  }

  // ---- the key ----

  function KeyOf(organizationId: string, scope: string, keyHash: string): Key {
    Key(organizationId + [':'] + (scope + [':'] + keyHash))
  }

  /** The last part after a separator is found by cutting the first separators off one after the other. */
  lemma {:induction false} LastPart(a: string, b: string, c: string, d: string)
    requires ':' !in b && ':' !in d && a + [':'] + b == c + [':'] + d
    ensures a == c && b == d
  {
    var s := a + [':'] + b;
    assert s[|a|] == ':' && s[|c|] == ':';
    assert forall k | |a| < k < |s| :: s[k] == b[k - |a| - 1];
    assert forall k | |c| < k < |s| :: s[k] == (c + [':'] + d)[k] == d[k - |c| - 1];
    assert |a| == |c|;
    assert a == s[..|a|] == c && b == s[|a| + 1..] == d;
  }

  /** Scopes may hold colons; organization identifiers and hashes do not, so keys do not collide. */
  lemma KeysDoNotCollide(org1: string, scope1: string, hash1: string, org2: string, scope2: string, hash2: string)
    requires ':' !in org1 && ':' !in org2 && ':' !in hash1 && ':' !in hash2
    ensures KeyOf(org1, scope1, hash1) == KeyOf(org2, scope2, hash2)
       <==> (org1, scope1, hash1) == (org2, scope2, hash2)
  {
    if KeyOf(org1, scope1, hash1) == KeyOf(org2, scope2, hash2) {
      var rest1, rest2 := scope1 + [':'] + hash1, scope2 + [':'] + hash2;
      IndexOfPrefix(org1, ':', rest1);
      IndexOfPrefix(org2, ':', rest2);
      var s := org1 + [':'] + rest1;
      assert s == org2 + [':'] + rest2;
      assert org1 == s[..|org1|] == org2;
      assert rest1 == s[|org1| + 1..] == rest2;
      LastPart(scope1, hash1, scope2, hash2);
    }
  }

  // ---- records changed in place ----

  class ReservationRecord {
    var fingerprint: string
    var status: Status
    var expiresAt: int
    var finalFingerprint: Option<string>
    var response: Option<string>

    constructor (fingerprint: string, expiresAt: int)
      ensures View() == Reservation(fingerprint, Started, expiresAt, None, None)
    {
      this.fingerprint, this.expiresAt := fingerprint, expiresAt;
      status, finalFingerprint, response := Started, None, None;
    }

    function View(): Reservation
      reads this
    {
      Reservation(fingerprint, status, expiresAt, finalFingerprint, response)
    }
  }

  ghost predicate Holds(record: ReservationRecord, r: Reservation)
    reads record
  {
    record.View() == r
  }

  lemma HoldsView(record: ReservationRecord)
    ensures Holds(record, record.View())
  {}

  /** Different keys have different record objects, and the objects show these reservations. */
  ghost predicate Show(objects: map<Key, ReservationRecord>, repr: set<ReservationRecord>, s: Records)
    reads repr
  {
    && objects.Keys == s.Keys
    && (forall k | k in objects :: objects[k] in repr && Holds(objects[k], s[k]))
    && (forall k, other | k in objects && other in objects && k != other :: objects[k] != objects[other])
  }

  class MemoryIdempotency {
    var records: map<Key, ReservationRecord>
    ghost var repr: set<ReservationRecord>
    ghost var contents: Records

    ghost predicate Valid()
      reads this, repr
    {
      Show(records, repr, contents)
    }

    constructor ()
      ensures Valid() && fresh(repr) && contents == map[]
    {
      records, repr, contents := map[], {}, map[];
    }

    /** The record handed out is the stored object itself, not a copy. */
    method ReserveStarted(key: Key, fingerprint: string, expiresAt: int, now: int)
      returns (answer: Answer, record: ReservationRecord)
      requires Valid()
      modifies this
      ensures Valid() && fresh(repr - old(repr))
      ensures answer == Answered(old(contents), Reserve(key, fingerprint, expiresAt, now))
      ensures contents == Apply(old(contents), Reserve(key, fingerprint, expiresAt, now))
      ensures key in records && record == records[key]
    {
      if key !in records {
        record := new ReservationRecord(fingerprint, expiresAt);
        HoldsView(record);
        records, contents, repr := records[key := record], contents[key := record.View()], repr + {record};
        return Acquired, record;
      }
      record := records[key];
      assert Holds(record, contents[key]);
      if record.status == Completed { return AlreadyCompleted, record; }
      if record.status == Started && record.expiresAt > now {
        if record.fingerprint != fingerprint { return Conflict, record; }
        return UnexpiredStarted, record;
      }
      if record.status == Started && record.expiresAt <= now { return ReclaimableExpired, record; }
      answer := Conflict;
    }

    method FindUnexpiredStarted(key: Key, now: int) returns (answer: Answer, record: ReservationRecord?)
      requires Valid()
      ensures answer == Answered(contents, Find(key, now))
      ensures (record != null) == (answer == Found)
      ensures record != null ==> key in records && record == records[key]
    {
      if key in records {
        assert Holds(records[key], contents[key]);
        if records[key].status == Started && records[key].expiresAt > now { return Found, records[key]; }
      }
      answer, record := Missing, null;
    }

    method ReclaimExpiredStarted(key: Key, fingerprint: string, expiresAt: int, now: int) returns (answer: Answer)
      requires Valid()
      modifies this`contents, repr
      ensures Valid()
      ensures answer == Answered(old(contents), Reclaim(key, fingerprint, expiresAt, now))
      ensures contents == Apply(old(contents), Reclaim(key, fingerprint, expiresAt, now))
    {
      if key !in records { return Conflict; }
      var existing := records[key];
      assert Holds(existing, contents[key]);
      if existing.status != Started || existing.expiresAt > now { return Conflict; }
      Rewrite(key, fingerprint, Started, expiresAt, existing.finalFingerprint, existing.response);
      answer := Reclaimed;
    }

    method FinalizeCompleted(key: Key, fingerprint: string, finalFingerprint: string, response: string)
      returns (answer: Answer)
      requires Valid()
      modifies this`contents, repr
      ensures Valid()
      ensures answer == Answered(old(contents), Finalize(key, fingerprint, finalFingerprint, response))
      ensures contents == Apply(old(contents), Finalize(key, fingerprint, finalFingerprint, response))
    {
      if key !in records { return Conflict; }
      var existing := records[key];
      assert Holds(existing, contents[key]);
      if existing.status != Started || existing.fingerprint != fingerprint { return Conflict; }
      Rewrite(key, finalFingerprint, Completed, existing.expiresAt, Some(finalFingerprint), Some(response));
      answer := Finalized;
    }

    /** Assigns the fields of the stored record in place. */
    method Rewrite(key: Key, fingerprint: string, status: Status, expiresAt: int, finalFingerprint: Option<string>,
                   response: Option<string>)
      requires Valid() && key in records
      modifies this`contents, records[key]
      ensures Valid()
      ensures contents == old(contents)[key := Reservation(fingerprint, status, expiresAt, finalFingerprint, response)]
    {
      hide Holds;
      var existing := records[key];
      existing.status := status;
      existing.finalFingerprint := finalFingerprint;
      existing.fingerprint := fingerprint;
      existing.expiresAt := expiresAt;
      existing.response := response;
      contents := contents[key := existing.View()];
      HoldsView(existing);
    }

    method ResolveCompletedReplay(key: Key, finalFingerprint: string) returns (answer: Answer)
      requires Valid()
      ensures answer == Answered(contents, Resolve(key, finalFingerprint))
    {
      if key !in records { return Missing; }
      var existing := records[key];
      assert Holds(existing, contents[key]);
      if existing.status != Completed || existing.response == None { return Missing; }
      if existing.finalFingerprint != Some(finalFingerprint) { return FingerprintMismatch; }
      answer := Replay(existing.response.value);
    }
  }
}
