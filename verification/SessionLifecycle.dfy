/**
 * Logins, resolves, reads, organization switches and logouts over one session store. Every request is
 * a process that yields at each await; between two of its steps any other request may run and the
 * clock may advance. What users, credentials and memberships answer is left open (Abandon).
 * Freshly generated session tokens have never been issued before.
 */
module SessionLifecycle {
  import opened Wrappers
  import opened SessionStore

  /** Durations in milliseconds. */
  datatype Config = Config(absoluteTtl: nat, idleTtl: nat, lastSeenMinInterval: nat)

  datatype Goal = Resolve | Read | Select(organizationId: nat)

  datatype Process =
    | Issuing(userId: nat, now: int)
    | Creating(record: Session)
    | Looking(hash: Digest, goal: Goal)
    | Found(copy: Session, found: nat, goal: Goal)
    | Checked(copy: Session, now: int, found: nat, goal: Goal)
    | Settled(copy: Session, goal: Goal)
    | Refreshing(hash: Digest, csrf: Digest)
    | Rotating(hash: Digest, next: Digest, csrf: Digest, now: int, organizationId: nat)
    | LoggingOut(hash: Digest, at: int)

  /**
   * What happened to sessions, in order. `Opened` is a login choosing its time and the session's id,
   * and `found` is how many events preceded the lookup of a resolve, `at` the time of its guards.
   */
  datatype Event =
    | Opened(id: nat, at: int)
    | Resolved(id: nat, hash: Digest, at: int, found: nat)
    | Refreshed(id: nat)
    | Moved(id: nat, from: Digest)
    | Revoked(id: nat)

  datatype State = State(
    clock: int, store: Store, issued: set<Digest>, nextId: nat, processes: map<nat, Process>, log: seq<Event>)

  datatype Step =
    | Tick(ms: nat)
    | StartLogin(p: nat, userId: nat)
    | GenerateLogin(p: nat, token: string, csrf: string, organization: Option<nat>, passwordRevision: int)
    | Create(p: nat)
    | StartResolve(p: nat, token: string, goal: Goal)
    | Find(p: nat)
    | Check(p: nat)
    | Clear(p: nat)
    | Touch(p: nat)
    | GenerateRead(p: nat, csrf: string)
    | Refresh(p: nat)
    | GenerateSelect(p: nat, token: string, csrf: string)
    | Move(p: nat)
    | StartLogout(p: nat, token: string)
    | Logout(p: nat)
    | Abandon(p: nat)

  const INITIAL := State(0, map[], {}, 0, map[], [])

  predicate Enabled(s: State, step: Step) {
    match step
    case Tick(_) => true
    case StartLogin(p, _) => p !in s.processes
    case GenerateLogin(p, token, _, _, _) =>
      p in s.processes && s.processes[p].Issuing? && OfSession(token) !in s.issued
    case Create(p) => p in s.processes && s.processes[p].Creating?
    case StartResolve(p, token, _) => p !in s.processes && |token| > 0
    case Find(p) => p in s.processes && s.processes[p].Looking?
    case Check(p) => p in s.processes && s.processes[p].Found?
    case Clear(p) => p in s.processes && s.processes[p].Checked? && s.processes[p].copy.activeOrganizationId.Some?
    case Touch(p) => p in s.processes && s.processes[p].Checked?
    case GenerateRead(p, _) => p in s.processes && s.processes[p].Settled? && s.processes[p].goal.Read?
    case Refresh(p) => p in s.processes && s.processes[p].Refreshing?
    case GenerateSelect(p, token, _) =>
      p in s.processes && s.processes[p].Settled? && s.processes[p].goal.Select? && OfSession(token) !in s.issued
    case Move(p) => p in s.processes && s.processes[p].Rotating?
    case StartLogout(p, token) => p !in s.processes && |token| > 0
    case Logout(p) => p in s.processes && s.processes[p].LoggingOut?
    case Abandon(p) => p in s.processes
  }

  /** The three guards of resolve on the record it found. */
  predicate Passes(copy: Session, now: int) {
    copy.revokedAt.None? && now < copy.idleExpiresAt && now < copy.absoluteExpiresAt
  }

  function Become(s: State, p: nat, process: Process): State { s.(processes := s.processes[p := process]) }

  function Leave(s: State, p: nat): State { s.(processes := s.processes - {p}) }

  function Log(s: State, e: Event): State { s.(log := s.log + [e]) }

  /** What `issueSession` asks for at the time it read the clock. */
  function LoginInput(c: Config, userId: nat, token: string, csrf: string, organization: Option<nat>,
                      passwordRevision: int, now: int): CreateInput {
    CreateInput(userId, OfSession(token), OfCsrf(csrf), organization, passwordRevision,
                now, now + c.idleTtl, now + c.absoluteTtl)
  }

  function Apply(c: Config, s: State, step: Step): State
    requires Enabled(s, step)
  {
    match step
    case Tick(ms) => s.(clock := s.clock + ms)
    case StartLogin(p, userId) => Become(s, p, Issuing(userId, s.clock))
    case GenerateLogin(p, token, csrf, organization, passwordRevision) =>
      var now := s.processes[p].now;
      var input := LoginInput(c, s.processes[p].userId, token, csrf, organization, passwordRevision, now);
      var record := NewSession(s.nextId, input);
      Log(Become(s, p, Creating(record)), Opened(s.nextId, now))
        .(issued := s.issued + {OfSession(token)}, nextId := s.nextId + 1)
    case Create(p) =>
      var record := s.processes[p].record;
      Leave(s, p).(store := s.store[record.tokenHash := record])
    case StartResolve(p, token, goal) => Become(s, p, Looking(OfSession(token), goal))
    case Find(p) =>
      var hash := s.processes[p].hash;
      if hash in s.store then Become(s, p, Found(s.store[hash], |s.log|, s.processes[p].goal)) else Leave(s, p)
    case Check(p) =>
      var process := s.processes[p];
      if Passes(process.copy, s.clock)
      then Become(s, p, Checked(process.copy, s.clock, process.found, process.goal))
      else Leave(s, p)
    case Clear(p) =>
      var copy := s.processes[p].copy;
      s.(store := ClearOrganization(s.store, copy.userId, copy.activeOrganizationId.value))
    case Touch(p) =>
      var process := s.processes[p];
      var s1 := s.(store := Throttle(s.store, process.copy.tokenHash, process.now,
                                     process.now + c.idleTtl, process.now - c.lastSeenMinInterval));
      var s2 := Log(s1, Resolved(process.copy.id, process.copy.tokenHash, process.now, process.found));
      if process.goal.Resolve? then Leave(s2, p) else Become(s2, p, Settled(process.copy, process.goal))
    case GenerateRead(p, csrf) => Become(s, p, Refreshing(s.processes[p].copy.tokenHash, OfCsrf(csrf)))
    case Refresh(p) =>
      var hash := s.processes[p].hash;
      var s1 := Leave(s, p).(store := ReplaceCsrf(s.store, hash, s.processes[p].csrf));
      if Live(s.store, hash) then Log(s1, Refreshed(s.store[hash].id)) else s1
    case GenerateSelect(p, token, csrf) =>
      Become(s, p, Rotating(s.processes[p].copy.tokenHash, OfSession(token), OfCsrf(csrf), s.clock,
                            s.processes[p].goal.organizationId))
        .(issued := s.issued + {OfSession(token)})
    case Move(p) =>
      var r := s.processes[p];
      var moved := Rotate(s.store, r.hash, r.next, r.csrf, r.now, r.now + c.idleTtl, Some(r.organizationId));
      var s1 := Leave(s, p).(store := moved);
      if Live(s.store, r.hash) then Log(s1, Moved(s.store[r.hash].id, r.hash)) else s1
    case StartLogout(p, token) => Become(s, p, LoggingOut(OfSession(token), s.clock))
    case Logout(p) =>
      var hash := s.processes[p].hash;
      var s1 := Leave(s, p).(store := Revoke(s.store, hash, s.processes[p].at));
      if Live(s.store, hash) then Log(s1, Revoked(s.store[hash].id)) else s1
    case Abandon(p) => Leave(s, p)
  }

  ghost predicate Legal(c: Config, s: State, steps: seq<Step>)
    decreases |steps|
  {
    steps == [] || (Enabled(s, steps[0]) && Legal(c, Apply(c, s, steps[0]), steps[1..]))
  }

  function Execute(c: Config, s: State, steps: seq<Step>): State
    requires Legal(c, s, steps)
    decreases |steps|
  {
    if steps == [] then s else Execute(c, Apply(c, s, steps[0]), steps[1..])
  }

  // ---- what every step keeps ----

  /** Expiry follows from the login and last-seen times. */
  predicate Timed(c: Config, r: Session) {
    r.absoluteExpiresAt == r.createdAt + c.absoluteTtl && r.idleExpiresAt == r.lastSeenAt + c.idleTtl
  }

  function Ids(store: Store): set<nat> { set h | h in store :: store[h].id }

  /** The login time a record carries is the one its login logged. */
  ghost predicate OpenedAt(log: seq<Event>, r: Session) {
    forall i | 0 <= i < |log| && log[i].Opened? && log[i].id == r.id :: log[i].at == r.createdAt
  }

  ghost predicate NotRevoked(log: seq<Event>, id: nat) {
    forall i | 0 <= i < |log| :: log[i] != Revoked(id)
  }

  ghost predicate NotMoved(log: seq<Event>, hash: Digest) {
    forall i | 0 <= i < |log| && log[i].Moved? :: log[i].from != hash
  }

  ghost predicate RecordOk(c: Config, s: State, h: Digest, r: Session) {
    && r.tokenHash == h && h in s.issued && r.id < s.nextId && Timed(c, r)
    && OpenedAt(s.log, r) && NotMoved(s.log, h) && (r.revokedAt.None? ==> NotRevoked(s.log, r.id))
  }

  ghost predicate StoreOk(c: Config, s: State) {
    && (forall h | h in s.store :: RecordOk(c, s, h, s.store[h]))
    && (forall h, g | h in s.store && g in s.store && s.store[h].id == s.store[g].id :: h == g)
  }

  ghost predicate LogOk(s: State) {
    forall i | 0 <= i < |s.log| ::
      && s.log[i].id < s.nextId
      && (s.log[i].Moved? ==> s.log[i].from in s.issued)
      && (s.log[i].Resolved? ==> s.log[i].found <= i)
  }

  /** A record read from the store when the log was `found` events long. */
  ghost predicate CopyOk(c: Config, s: State, copy: Session, found: nat) {
    && found <= |s.log| && copy.id < s.nextId && Timed(c, copy) && OpenedAt(s.log, copy)
    && NotMoved(s.log[..found], copy.tokenHash) && (copy.revokedAt.None? ==> NotRevoked(s.log[..found], copy.id))
  }

  /** A digest generated for a session that is not stored under it yet. */
  ghost predicate PendingOk(s: State, next: Digest) {
    next in s.issued && next !in s.store && NotMoved(s.log, next)
  }

  function Pending(process: Process): Option<Digest> {
    if process.Creating? then Some(process.record.tokenHash) else if process.Rotating? then Some(process.next) else None
  }

  ghost predicate ProcessOk(c: Config, s: State, process: Process) {
    match process
    case Found(copy, found, _) => CopyOk(c, s, copy, found)
    case Checked(copy, now, found, _) => CopyOk(c, s, copy, found) && Passes(copy, now)
    case Creating(record) =>
      && PendingOk(s, record.tokenHash) && RecordOk(c, s, record.tokenHash, record)
      && record.revokedAt.None? && record.id !in Ids(s.store)
    case Rotating(_, next, _, _, _) => PendingOk(s, next)
    case _ => true
  }

  /** Two processes never hold the same generated digest or the same new id. */
  ghost predicate Apart(a: Process, b: Process) {
    && (Pending(a).Some? ==> Pending(a) != Pending(b))
    && (a.Creating? && b.Creating? ==> a.record.id != b.record.id)
  }

  ghost predicate ProcessesOk(c: Config, s: State) {
    && (forall p | p in s.processes :: ProcessOk(c, s, s.processes[p]))
    && (forall p, q | p in s.processes && q in s.processes && p != q :: Apart(s.processes[p], s.processes[q]))
  }

  ghost predicate ClaimExpiry(c: Config, log: seq<Event>) {
    forall i, j | 0 <= i < |log| && 0 <= j < |log| && log[i].Opened? && log[j].Resolved? && log[i].id == log[j].id ::
      log[j].at < log[i].at + c.absoluteTtl
  }

  ghost predicate ClaimRevoked(log: seq<Event>) {
    && (forall i, j | 0 <= i < |log| && 0 <= j < |log| && log[i].Revoked? && log[j].Resolved? ::
          log[i].id == log[j].id ==> log[j].found <= i)
    && (forall i, j | 0 <= i < j < |log| && log[i].Revoked? && log[i].id == log[j].id :: log[j].Resolved?)
  }

  ghost predicate ClaimMoved(log: seq<Event>) {
    forall i, j | 0 <= i < |log| && 0 <= j < |log| && log[i].Moved? && log[j].Resolved? && log[i].from == log[j].hash ::
      log[j].found <= i
  }

  /** The claims themselves, as facts about what was logged. */
  ghost predicate Claims(c: Config, log: seq<Event>) { ClaimExpiry(c, log) && ClaimRevoked(log) && ClaimMoved(log) }

  ghost predicate Inv(c: Config, s: State) {
    StoreOk(c, s) && LogOk(s) && ProcessesOk(c, s) && Claims(c, s.log)
  }

  // ---- what a step does to everybody else ----

  /**
   * At most one event is logged: a new id is new, a revocation or move concerns a stored session. At
   * most the record `added` joins the store; no other id appears there.
   */
  ghost predicate Evolves(s: State, s': State, added: Option<Session>) {
    && s.log <= s'.log && |s'.log| <= |s.log| + 1 && s.issued <= s'.issued && s.nextId <= s'.nextId
    && (|s'.log| > |s.log| ==>
          var e := s'.log[|s.log|];
          && (e.Opened? ==> e.id >= s.nextId)
          && (e.Moved? ==> e.from in s.store)
          && (e.Revoked? ==> e.id in Ids(s.store)))
    && s'.store.Keys <= s.store.Keys + (if added.Some? then {added.value.tokenHash} else {})
    && Ids(s'.store) <= Ids(s.store) + (if added.Some? then {added.value.id} else {})
  }

  lemma OtherProcessKeeps(c: Config, s: State, s': State, added: Option<Session>, process: Process)
    requires Evolves(s, s', added) && ProcessOk(c, s, process)
    requires added.Some? ==> Pending(process) != Some(added.value.tokenHash)
    requires added.Some? && process.Creating? ==> process.record.id != added.value.id
    ensures ProcessOk(c, s', process)
  {
    if process.Found? || process.Checked? {
      assert s'.log[..process.found] == s.log[..process.found];
    }
  }

  /** The acting process leaves or moves on; the others see only an evolving state. */
  lemma ProcessesKeep(c: Config, s: State, s': State, added: Option<Session>, p: nat)
    requires ProcessesOk(c, s) && Evolves(s, s', added)
    requires s'.processes.Keys <= s.processes.Keys + {p} && s'.processes - {p} == s.processes - {p}
    requires added.Some? ==> p in s.processes && Pending(s.processes[p]) == Some(added.value.tokenHash)
    requires added.Some? ==>
      added.value.id in Ids(s.store) || (s.processes[p].Creating? && s.processes[p].record.id == added.value.id)
    requires p in s'.processes ==> ProcessOk(c, s', s'.processes[p])
    requires p in s'.processes ==>
      forall q | q in s.processes && q != p ::
        Apart(s'.processes[p], s.processes[q]) && Apart(s.processes[q], s'.processes[p])
    ensures ProcessesOk(c, s')
  {
    forall q | q in s'.processes && q != p ensures q in s.processes && s'.processes[q] == s.processes[q] {
      assert q in s'.processes - {p};
    }
    forall q | q in s'.processes && q != p ensures ProcessOk(c, s', s'.processes[q]) {
      if added.Some? { assert Apart(s.processes[p], s.processes[q]); }
      OtherProcessKeeps(c, s, s', added, s.processes[q]);
    }
  }

  // ---- the steps, by what they touch ----

  /** Neither store nor log changes: only the acting process is new. */
  lemma UnchangedStoreKeepsInv(c: Config, s: State, s': State, p: nat)
    requires Inv(c, s) && s'.store == s.store && s'.log == s.log && s'.nextId == s.nextId && s.issued <= s'.issued
    requires s'.processes.Keys <= s.processes.Keys + {p} && s'.processes - {p} == s.processes - {p}
    requires p in s'.processes ==> ProcessOk(c, s', s'.processes[p])
    requires p in s'.processes ==>
      forall q | q in s.processes && q != p ::
        Apart(s'.processes[p], s.processes[q]) && Apart(s.processes[q], s'.processes[p])
    ensures Inv(c, s')
  {
    forall h | h in s'.store ensures RecordOk(c, s', h, s'.store[h]) { assert RecordOk(c, s, h, s.store[h]); }
    ProcessesKeep(c, s, s', None, p);
  }

  lemma FindKeepsInv(c: Config, s: State, step: Step)
    requires Inv(c, s) && Enabled(s, step) && step.Find?
    ensures Inv(c, Apply(c, s, step))
  {
    hide Claims, LogOk;
    var s' := Apply(c, s, step);
    var hash := s.processes[step.p].hash;
    if hash in s.store {
      assert s.log[..|s.log|] == s.log;
      assert RecordOk(c, s, hash, s.store[hash]);
      assert CopyOk(c, s', s.store[hash], |s.log|);
    }
    UnchangedStoreKeepsInv(c, s, s', step.p);
  }

  lemma CheckKeepsInv(c: Config, s: State, step: Step)
    requires Inv(c, s) && Enabled(s, step) && step.Check?
    ensures Inv(c, Apply(c, s, step))
  {
    hide Claims, LogOk, StoreOk;
    assert ProcessOk(c, s, s.processes[step.p]);
    UnchangedStoreKeepsInv(c, s, Apply(c, s, step), step.p);
  }

  lemma GenerateSelectKeepsInv(c: Config, s: State, step: Step)
    requires Inv(c, s) && Enabled(s, step) && step.GenerateSelect?
    ensures Inv(c, Apply(c, s, step))
  {
    hide Claims, LogOk, StoreOk;
    GeneratedIsFresh(c, s, step.token);
    UnchangedStoreKeepsInv(c, s, Apply(c, s, step), step.p);
  }

  lemma OtherQuietStepKeepsInv(c: Config, s: State, step: Step)
    requires Inv(c, s) && Enabled(s, step)
    requires step.Tick? || step.StartLogin? || step.StartResolve? || step.GenerateRead?
          || step.StartLogout? || step.Abandon?
    ensures Inv(c, Apply(c, s, step))
  {
    hide Claims, LogOk, StoreOk;
    if step.Tick? {
      if 0 in s.processes { OtherProcessKeeps(c, s, Apply(c, s, step), None, s.processes[0]); }
      UnchangedStoreKeepsInv(c, s, Apply(c, s, step), 0);
    } else {
      UnchangedStoreKeepsInv(c, s, Apply(c, s, step), step.p);
    }
  }

  /** A token never issued before is held by no session, no process and no logged move. */
  lemma GeneratedIsFresh(c: Config, s: State, token: string)
    requires Inv(c, s) && OfSession(token) !in s.issued
    ensures OfSession(token) !in s.store && NotMoved(s.log, OfSession(token))
    ensures forall q | q in s.processes :: Pending(s.processes[q]) != Some(OfSession(token))
  {
    assert forall h | h in s.store :: RecordOk(c, s, h, s.store[h]);
    assert forall q | q in s.processes :: ProcessOk(c, s, s.processes[q]);
  }

  lemma StoredIdsAreOld(c: Config, s: State)
    requires StoreOk(c, s)
    ensures s.nextId !in Ids(s.store)
  {
    forall h | h in s.store ensures s.store[h].id < s.nextId { assert RecordOk(c, s, h, s.store[h]); }
  }

  lemma GenerateLoginKeepsStore(c: Config, s: State, step: Step)
    requires StoreOk(c, s) && Enabled(s, step) && step.GenerateLogin?
    ensures StoreOk(c, Apply(c, s, step))
  {
    var s' := Apply(c, s, step);
    forall h | h in s'.store ensures RecordOk(c, s', h, s'.store[h]) { assert RecordOk(c, s, h, s.store[h]); }
  }

  lemma OpenedKeepsClaims(c: Config, s: State, e: Event)
    requires LogOk(s) && Claims(c, s.log) && e.Opened? && e.id == s.nextId
    ensures Claims(c, s.log + [e])
  {
    assert forall i | 0 <= i < |s.log| :: (s.log + [e])[i] == s.log[i];
  }

  lemma GenerateLoginEvolves(c: Config, s: State, step: Step)
    requires LogOk(s) && Enabled(s, step) && step.GenerateLogin?
    ensures LogOk(Apply(c, s, step)) && Evolves(s, Apply(c, s, step), None)
  {
  }

  lemma GenerateLoginKeepsInv(c: Config, s: State, step: Step)
    requires Inv(c, s) && Enabled(s, step) && step.GenerateLogin?
    ensures Inv(c, Apply(c, s, step))
  {
    hide Claims, StoreOk;
    GenerateLoginKeepsStore(c, s, step);
    OpenedKeepsClaims(c, s, Opened(s.nextId, s.processes[step.p].now));
    GeneratedIsFresh(c, s, step.token);
    StoredIdsAreOld(c, s);
    GenerateLoginEvolves(c, s, step);
    var s' := Apply(c, s, step);
    forall q | q in s.processes && q != step.p
      ensures Apart(s'.processes[step.p], s.processes[q]) && Apart(s.processes[q], s'.processes[step.p])
    {
      assert ProcessOk(c, s, s.processes[q]);
    }
    ProcessesKeep(c, s, s', None, step.p);
  }

  lemma CreateKeepsInv(c: Config, s: State, step: Step)
    requires Inv(c, s) && Enabled(s, step) && step.Create?
    ensures Inv(c, Apply(c, s, step))
  {
    hide Claims;
    var s' := Apply(c, s, step);
    var record := s.processes[step.p].record;
    assert ProcessOk(c, s, s.processes[step.p]);
    forall h | h in s'.store ensures RecordOk(c, s', h, s'.store[h]) {
      if h != record.tokenHash { assert RecordOk(c, s, h, s.store[h]); }
    }
    forall h | h in s.store ensures s.store[h].id != record.id { assert s.store[h].id in Ids(s.store); }
    ProcessesKeep(c, s, s', Some(record), step.p);
  }

  /** Records keep their key, id, login time and expiry rule; revocation is never undone. */
  ghost predicate SameSessions(c: Config, store: Store, store': Store) {
    && store'.Keys == store.Keys
    && forall h | h in store ::
         && store'[h].id == store[h].id && store'[h].tokenHash == store[h].tokenHash
         && store'[h].createdAt == store[h].createdAt
         && Timed(c, store'[h]) && (store[h].revokedAt.Some? ==> store'[h].revokedAt.Some?)
  }

  lemma InPlaceKeepsStore(c: Config, s: State, s': State)
    requires StoreOk(c, s) && SameSessions(c, s.store, s'.store)
    requires s'.issued == s.issued && s'.nextId == s.nextId && s.log <= s'.log && |s'.log| <= |s.log| + 1
    requires |s'.log| > |s.log| ==> !s'.log[|s.log|].Opened? && !s'.log[|s.log|].Moved?
    requires |s'.log| > |s.log| && s'.log[|s.log|].Revoked? ==>
      forall h | h in s'.store && s'.store[h].id == s'.log[|s.log|].id :: s'.store[h].revokedAt.Some?
    ensures StoreOk(c, s') && Ids(s'.store) == Ids(s.store)
  {
    forall h | h in s'.store ensures RecordOk(c, s', h, s'.store[h]) { assert RecordOk(c, s, h, s.store[h]); }
    forall id | id in Ids(s.store) ensures id in Ids(s'.store) {
      var h :| h in s.store && s.store[h].id == id;
      assert s'.store[h].id == id;
    }
  }

  /** A session that is live in the store has not been revoked, so the claims survive its next event. */
  lemma LiveEventKeepsClaims(c: Config, s: State, hash: Digest, e: Event)
    requires StoreOk(c, s) && LogOk(s) && Claims(c, s.log) && Live(s.store, hash) && e.id == s.store[hash].id
    requires e.Refreshed? || e.Revoked? || (e.Moved? && e.from == hash)
    ensures Claims(c, s.log + [e])
  {
    assert RecordOk(c, s, hash, s.store[hash]);
    var log := s.log + [e];
    assert forall i | 0 <= i < |s.log| :: log[i] == s.log[i];
    assert forall i | 0 <= i < |s.log| && s.log[i].Revoked? :: s.log[i] == Revoked(s.log[i].id);
  }

  lemma ResolvedKeepsClaims(c: Config, s: State, copy: Session, now: int, found: nat)
    requires LogOk(s) && Claims(c, s.log) && CopyOk(c, s, copy, found) && Passes(copy, now)
    ensures Claims(c, s.log + [Resolved(copy.id, copy.tokenHash, now, found)])
  {
    var log := s.log + [Resolved(copy.id, copy.tokenHash, now, found)];
    assert forall i | 0 <= i < |s.log| :: log[i] == s.log[i];
    assert forall i | 0 <= i < found :: s.log[..found][i] == s.log[i];
    assert ClaimExpiry(c, log) by { hide ClaimRevoked, ClaimMoved, NotMoved, NotRevoked; }
    assert ClaimRevoked(log) by {
      hide ClaimExpiry, ClaimMoved, NotMoved, OpenedAt;
      assert forall i | 0 <= i < found && s.log[i].Revoked? :: s.log[i] == Revoked(s.log[i].id);
    }
    assert ClaimMoved(log) by { hide ClaimExpiry, ClaimRevoked, NotRevoked, OpenedAt; }
  }

  lemma ThrottleKeepsSessions(c: Config, store: Store, hash: Digest, now: int, min: int)
    requires forall h | h in store :: Timed(c, store[h])
    ensures SameSessions(c, store, Throttle(store, hash, now, now + c.idleTtl, min))
  {
  }

  lemma ClearKeepsInv(c: Config, s: State, step: Step)
    requires Inv(c, s) && Enabled(s, step) && step.Clear?
    ensures Inv(c, Apply(c, s, step))
  {
    var s' := Apply(c, s, step);
    forall h | h in s.store ensures Timed(c, s.store[h]) { assert RecordOk(c, s, h, s.store[h]); }
    InPlaceKeepsStore(c, s, s');
    OtherProcessKeeps(c, s, s', None, s.processes[step.p]);
    ProcessesKeep(c, s, s', None, step.p);
  }

  lemma TouchKeepsStore(c: Config, s: State, step: Step)
    requires StoreOk(c, s) && Enabled(s, step) && step.Touch?
    ensures StoreOk(c, Apply(c, s, step)) && Ids(Apply(c, s, step).store) == Ids(s.store)
  {
    hide Throttle, NotMoved, NotRevoked, OpenedAt;
    var process := s.processes[step.p];
    forall h | h in s.store ensures Timed(c, s.store[h]) { assert RecordOk(c, s, h, s.store[h]); }
    ThrottleKeepsSessions(c, s.store, process.copy.tokenHash, process.now, process.now - c.lastSeenMinInterval);
    InPlaceKeepsStore(c, s, Apply(c, s, step));
  }

  lemma TouchEvolves(c: Config, s: State, step: Step)
    requires LogOk(s) && Enabled(s, step) && step.Touch? && s.processes[step.p].found <= |s.log|
    requires s.processes[step.p].copy.id < s.nextId && Ids(Apply(c, s, step).store) == Ids(s.store)
    ensures LogOk(Apply(c, s, step)) && Evolves(s, Apply(c, s, step), None)
  {
  }

  lemma TouchKeepsInv(c: Config, s: State, step: Step)
    requires Inv(c, s) && Enabled(s, step) && step.Touch?
    ensures Inv(c, Apply(c, s, step))
  {
    hide Claims, StoreOk, Throttle;
    var process := s.processes[step.p];
    TouchKeepsStore(c, s, step);
    assert ProcessOk(c, s, process);
    ResolvedKeepsClaims(c, s, process.copy, process.now, process.found);
    TouchEvolves(c, s, step);
    ProcessesKeep(c, s, Apply(c, s, step), None, step.p);
  }

  lemma ReplaceOrRevokeKeepsSessions(c: Config, store: Store, hash: Digest, csrf: Digest, at: int)
    requires forall h | h in store :: Timed(c, store[h])
    ensures SameSessions(c, store, ReplaceCsrf(store, hash, csrf)) && SameSessions(c, store, Revoke(store, hash, at))
    ensures Live(store, hash) ==> Revoke(store, hash, at)[hash].revokedAt.Some?
  {
  }

  lemma RefreshOrLogoutKeepsStore(c: Config, s: State, step: Step)
    requires StoreOk(c, s) && Enabled(s, step) && (step.Refresh? || step.Logout?)
    ensures StoreOk(c, Apply(c, s, step)) && Ids(Apply(c, s, step).store) == Ids(s.store)
  {
    hide Revoke, ReplaceCsrf, NotMoved, NotRevoked, OpenedAt;
    var process := s.processes[step.p];
    forall h | h in s.store ensures Timed(c, s.store[h]) { assert RecordOk(c, s, h, s.store[h]); }
    if step.Refresh? {
      ReplaceOrRevokeKeepsSessions(c, s.store, process.hash, process.csrf, 0);
    } else {
      ReplaceOrRevokeKeepsSessions(c, s.store, process.hash, process.hash, process.at);
    }
    InPlaceKeepsStore(c, s, Apply(c, s, step));
  }

  lemma RefreshOrLogoutKeepsLog(c: Config, s: State, step: Step)
    requires StoreOk(c, s) && LogOk(s) && Claims(c, s.log) && Enabled(s, step) && (step.Refresh? || step.Logout?)
    ensures LogOk(Apply(c, s, step)) && Claims(c, Apply(c, s, step).log)
  {
    hide Revoke, ReplaceCsrf, Claims;
    var hash := s.processes[step.p].hash;
    if Live(s.store, hash) {
      LiveEventKeepsClaims(c, s, hash, Apply(c, s, step).log[|s.log|]);
      assert RecordOk(c, s, hash, s.store[hash]);
    }
  }

  lemma RefreshOrLogoutKeepsInv(c: Config, s: State, step: Step)
    requires Inv(c, s) && Enabled(s, step) && (step.Refresh? || step.Logout?)
    ensures Inv(c, Apply(c, s, step))
  {
    hide Claims, StoreOk;
    RefreshOrLogoutKeepsStore(c, s, step);
    RefreshOrLogoutKeepsLog(c, s, step);
    ProcessesKeep(c, s, Apply(c, s, step), None, step.p);
  }

  lemma MoveKeepsStore(c: Config, s: State, s': State, from: Digest, record: Session)
    requires StoreOk(c, s) && Live(s.store, from) && PendingOk(s, record.tokenHash)
    requires record.id == s.store[from].id && record.createdAt == s.store[from].createdAt
    requires Timed(c, record) && record.revokedAt.None?
    requires s' == s.(store := (s.store - {from})[record.tokenHash := record], log := s.log + [Moved(record.id, from)])
    ensures StoreOk(c, s') && Ids(s'.store) <= Ids(s.store)
  {
    assert RecordOk(c, s, from, s.store[from]);
    forall h | h in s'.store ensures RecordOk(c, s', h, s'.store[h]) {
      if h != record.tokenHash { assert RecordOk(c, s, h, s.store[h]); }
    }
    forall id | id in Ids(s'.store) ensures id in Ids(s.store) {
      var h :| h in s'.store && s'.store[h].id == id;
      if h == record.tokenHash { assert s.store[from].id == id; } else { assert s.store[h].id == id; }
    }
  }

  lemma MoveKeepsInv(c: Config, s: State, step: Step)
    requires Inv(c, s) && Enabled(s, step) && step.Move?
    ensures Inv(c, Apply(c, s, step))
  {
    hide Claims;
    var s' := Apply(c, s, step);
    var r := s.processes[step.p];
    assert ProcessOk(c, s, r);
    if Live(s.store, r.hash) {
      assert RecordOk(c, s, r.hash, s.store[r.hash]);
      var record := s'.store[r.next];
      MoveKeepsStore(c, s, s'.(processes := s.processes), r.hash, record);
      LiveEventKeepsClaims(c, s, r.hash, s'.log[|s.log|]);
      assert s.store[r.hash].id in Ids(s.store);
      ProcessesKeep(c, s, s', Some(record), step.p);
    } else {
      assert s'.log == s.log;
      ProcessesKeep(c, s, s', None, step.p);
    }
  }

  lemma StepKeepsInv(c: Config, s: State, step: Step)
    requires Inv(c, s) && Enabled(s, step)
    ensures Inv(c, Apply(c, s, step))
  {
    hide Inv, Apply;
    match step
    case GenerateLogin(_, _, _, _, _) => GenerateLoginKeepsInv(c, s, step);
    case Create(_) => CreateKeepsInv(c, s, step);
    case Find(_) => FindKeepsInv(c, s, step);
    case Check(_) => CheckKeepsInv(c, s, step);
    case GenerateSelect(_, _, _) => GenerateSelectKeepsInv(c, s, step);
    case Clear(_) => ClearKeepsInv(c, s, step);
    case Touch(_) => TouchKeepsInv(c, s, step);
    case Refresh(_) => RefreshOrLogoutKeepsInv(c, s, step);
    case Logout(_) => RefreshOrLogoutKeepsInv(c, s, step);
    case Move(_) => MoveKeepsInv(c, s, step);
    case _ => OtherQuietStepKeepsInv(c, s, step);
  }

  lemma {:induction false} RunKeepsInv(c: Config, s: State, steps: seq<Step>)
    requires Inv(c, s) && Legal(c, s, steps)
    ensures Inv(c, Execute(c, s, steps))
    decreases |steps|
  {
    if steps != [] {
      StepKeepsInv(c, s, steps[0]);
      RunKeepsInv(c, Apply(c, s, steps[0]), steps[1..]);
    }
  }

  // ---- main results, over every run ----

  ghost function LogOf(c: Config, steps: seq<Step>): seq<Event>
    requires Legal(c, INITIAL, steps)
  {
    Execute(c, INITIAL, steps).log
  }

  /** No session passes the guards of a resolve at or after its login time plus the absolute TTL. */
  lemma NeverResolvesPastAbsoluteExpiry(c: Config, steps: seq<Step>, i: nat, j: nat)
    requires Legal(c, INITIAL, steps) && i < |LogOf(c, steps)| && j < |LogOf(c, steps)|
    requires LogOf(c, steps)[i].Opened? && LogOf(c, steps)[j].Resolved?
    requires LogOf(c, steps)[i].id == LogOf(c, steps)[j].id
    ensures LogOf(c, steps)[j].at < LogOf(c, steps)[i].at + c.absoluteTtl
  {
    RunKeepsInv(c, INITIAL, steps);
  }

  /**
   * After a session is revoked it is never moved, refreshed or revoked again, and a resolve of it
   * succeeds only if it had looked the session up before the revocation.
   */
  lemma RevokedSessionIsDead(c: Config, steps: seq<Step>, i: nat, j: nat)
    requires Legal(c, INITIAL, steps) && i < j < |LogOf(c, steps)|
    requires LogOf(c, steps)[i].Revoked? && LogOf(c, steps)[i].id == LogOf(c, steps)[j].id
    ensures LogOf(c, steps)[j].Resolved? && LogOf(c, steps)[j].found <= i
  {
    RunKeepsInv(c, INITIAL, steps);
  }

  /** A rotated-away token resolves only for a request that had looked it up before the rotation. */
  lemma RotatedTokenIsDead(c: Config, steps: seq<Step>, i: nat, j: nat)
    requires Legal(c, INITIAL, steps) && i < |LogOf(c, steps)| && j < |LogOf(c, steps)|
    requires LogOf(c, steps)[i].Moved? && LogOf(c, steps)[j].Resolved?
    requires LogOf(c, steps)[j].hash == LogOf(c, steps)[i].from
    ensures LogOf(c, steps)[j].found <= i
  {
    RunKeepsInv(c, INITIAL, steps);
  }

  /** Every stored session keeps idle expiry equal to last-seen plus the idle TTL. */
  lemma StoredExpiryFollowsTimes(c: Config, steps: seq<Step>, h: Digest)
    requires Legal(c, INITIAL, steps) && h in Execute(c, INITIAL, steps).store
    ensures Timed(c, Execute(c, INITIAL, steps).store[h])
  {
    RunKeepsInv(c, INITIAL, steps);
    assert RecordOk(c, Execute(c, INITIAL, steps), h, Execute(c, INITIAL, steps).store[h]);
  }

  lemma {:induction false} Join(c: Config, s: State, a: seq<Step>, b: seq<Step>)
    requires Legal(c, s, a) && Legal(c, Execute(c, s, a), b)
    ensures Legal(c, s, a + b) && Execute(c, s, a + b) == Execute(c, Execute(c, s, a), b)
    decreases |a|
  {
    if a == [] {
      assert a + b == b;
    } else {
      assert (a + b)[1..] == a[1..] + b;
      Join(c, Apply(c, s, a[0]), a[1..], b);
    }
  }

  lemma Chain(c: Config, s: State, step: Step, rest: seq<Step>, end: State)
    requires Enabled(s, step) && Legal(c, Apply(c, s, step), rest) && Execute(c, Apply(c, s, step), rest) == end
    ensures Legal(c, s, [step] + rest) && Execute(c, s, [step] + rest) == end
  {
    assert ([step] + rest)[1..] == rest;
  }
}
