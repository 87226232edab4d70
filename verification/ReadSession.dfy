/**
 * Reading a session hands out a fresh CSRF token and stores its digest. Reads of one session go
 * through the turnstile; the resolves they make, and resolves made by any other request, touch the
 * store at any moment in between. A read may throw before its replacement took effect or after.
 */
module ReadSession {
  import opened Wrappers
  import opened SessionStore
  import T = Turnstile
  import L = SessionLifecycle
  import U = SessionUse

  datatype Progress =
    | Queued                              // behind the turnstile
    | Resolving                           // inside resolveSession.execute
    | Replacing(csrfToken: string)        // token generated, replaceCsrfToken pending
    | Returning(result: Option<string>)   // readOnce settled: a token, or authentication required
    | Throwing(stored: Option<string>)    // it threw; the token whose digest it had stored by then, if any

  // A read that succeeded, in the order callers got their answers.
  datatype Answer = Answer(ticket: nat, key: Digest, csrfToken: string)

  datatype State = State(turnstile: T.State, progress: seq<Progress>, store: Store, answers: seq<Answer>)

  datatype Step =
    | Read(sessionToken: string)
    | SettleTail(t: nat)
    | Begin(t: nat)
    | Throttled(hash: Digest, lastSeenAt: int, idleExpiresAt: int, minLastSeenAt: int) // a resolve's effects
    | Cleared(userId: nat, organizationId: nat)
    | ResolveFailed(t: nat)
    | Resolved(t: nat, csrfToken: string)
    | Replace(t: nat)
    | ThrowAfterReplace(t: nat)
    | Throw(t: nat)
    | Return(t: nat)

  function Initial(store: Store): State { State(T.INITIAL, [], store, []) }

  predicate Enabled(s: State, step: Step) {
    match step
    case Read(_) => true
    case SettleTail(t) => T.Enabled(s.turnstile, T.Settle(t))
    case Begin(t) => T.Enabled(s.turnstile, T.Resume(t)) && t < |s.progress|
    case Throttled(_, _, _, _) => true
    case Cleared(_, _) => true
    case ResolveFailed(t) => t < |s.progress| && s.progress[t].Resolving?
    case Resolved(t, _) => t < |s.progress| && s.progress[t].Resolving?
    case Replace(t) => t < |s.progress| && s.progress[t].Replacing? && t < |s.turnstile.calls|
    case ThrowAfterReplace(t) => t < |s.progress| && s.progress[t].Replacing? && t < |s.turnstile.calls|
    case Throw(t) => t < |s.progress| && (s.progress[t].Resolving? || s.progress[t].Replacing?)
    case Return(t) =>
      && t < |s.progress| && (s.progress[t].Returning? || s.progress[t].Throwing?)
      && T.Enabled(s.turnstile, T.Finish(t, s.progress[t].Throwing?))
  }

  function Apply(s: State, step: Step): State
    requires Enabled(s, step)
  {
    match step
    case Read(sessionToken) =>
      s.(turnstile := T.Apply(s.turnstile, T.Enter(OfSession(sessionToken))), progress := s.progress + [Queued])
    case SettleTail(t) => s.(turnstile := T.Apply(s.turnstile, T.Settle(t)))
    case Begin(t) => s.(turnstile := T.Apply(s.turnstile, T.Resume(t)), progress := s.progress[t := Resolving])
    case Throttled(hash, lastSeenAt, idleExpiresAt, minLastSeenAt) =>
      s.(store := Throttle(s.store, hash, lastSeenAt, idleExpiresAt, minLastSeenAt))
    case Cleared(userId, organizationId) => s.(store := ClearOrganization(s.store, userId, organizationId))
    case ResolveFailed(t) => s.(progress := s.progress[t := Returning(None)])
    case Resolved(t, csrfToken) => s.(progress := s.progress[t := Replacing(csrfToken)])
    case Replace(t) =>
      var key := s.turnstile.calls[t].key;
      var csrfToken := s.progress[t].csrfToken;
      s.(store := ReplaceCsrf(s.store, key, OfCsrf(csrfToken)),
         progress := s.progress[t := Returning(if Live(s.store, key) then Some(csrfToken) else None)])
    case ThrowAfterReplace(t) =>
      var key := s.turnstile.calls[t].key;
      var csrfToken := s.progress[t].csrfToken;
      s.(store := ReplaceCsrf(s.store, key, OfCsrf(csrfToken)),
         progress := s.progress[t := Throwing(if Live(s.store, key) then Some(csrfToken) else None)])
    case Throw(t) => s.(progress := s.progress[t := Throwing(None)])
    case Return(t) =>
      s.(turnstile := T.Apply(s.turnstile, T.Finish(t, s.progress[t].Throwing?)),
         answers := s.answers + (if s.progress[t].Returning? && s.progress[t].result.Some?
                                 then [Answer(t, s.turnstile.calls[t].key, s.progress[t].result.value)] else []))
  }

  ghost predicate Legal(s: State, steps: seq<Step>)
    decreases |steps|
  {
    steps == [] || (Enabled(s, steps[0]) && Legal(Apply(s, steps[0]), steps[1..]))
  }

  function Execute(s: State, steps: seq<Step>): State
    requires Legal(s, steps)
    decreases |steps|
  {
    if steps == [] then s else Execute(Apply(s, steps[0]), steps[1..])
  }

  /** The digest the last successful read on the key announced, or the one stored at the start. */
  function LastAnswered(answers: seq<Answer>, key: Digest, atStart: Digest): Digest {
    if answers == [] then atStart
    else
      var last := answers[|answers| - 1];
      if last.key == key then OfCsrf(last.csrfToken) else LastAnswered(answers[..|answers| - 1], key, atStart)
  }

  /** The token whose digest the read has stored, if it got that far. */
  function Wrote(p: Progress): Option<string> {
    match p case Returning(result) => result case Throwing(stored) => stored case _ => None
  }

  datatype Write = Write(key: Digest, token: Option<string>)

  /** What each call has written, in call order. */
  ghost function Writes(s: State): (w: seq<Write>)
    requires |s.progress| == |s.turnstile.calls|
    ensures |w| == |s.progress|
    ensures forall t | 0 <= t < |w| :: w[t] == Write(s.turnstile.calls[t].key, Wrote(s.progress[t]))
  {
    seq(|s.progress|, t requires 0 <= t < |s.progress| => Write(s.turnstile.calls[t].key, Wrote(s.progress[t])))
  }

  /** The digest of the last call on the key that has written one, or the one stored at the start. */
  function LastWritten(writes: seq<Write>, key: Digest, atStart: Digest): Digest {
    if writes == [] then atStart
    else
      var last := writes[|writes| - 1];
      if last.key == key && last.token.Some? then OfCsrf(last.token.value)
      else LastWritten(writes[..|writes| - 1], key, atStart)
  }

  // ---- what every step keeps ----

  ghost predicate InStep(s: State) {
    && |s.progress| == |s.turnstile.calls|
    && forall t | 0 <= t < |s.progress| ::
         && (s.progress[t].Queued? <==> s.turnstile.calls[t].phase.Waiting?)
         && (s.progress[t].Resolving? || s.progress[t].Replacing? ==> s.turnstile.calls[t].phase.Working?)
  }

  ghost predicate DigestsAgree(s: State, start: Store)
    requires |s.progress| == |s.turnstile.calls|
  {
    && s.store.Keys == start.Keys
    && forall k | k in s.store :: s.store[k].csrfTokenHash == LastWritten(Writes(s), k, start[k].csrfTokenHash)
  }

  /** Each answer is that of a finished read, and they come in call order on every key. */
  ghost predicate AnswersOrdered(s: State) {
    && (forall i | 0 <= i < |s.answers| :: AnswerOf(s, s.answers[i]))
    && (forall i, j | 0 <= i < j < |s.answers| && s.answers[i].key == s.answers[j].key ::
          s.answers[i].ticket < s.answers[j].ticket)
  }

  ghost predicate AnswerOf(s: State, a: Answer) {
    && a.ticket < |s.turnstile.calls| && a.ticket < |s.progress|
    && s.turnstile.calls[a.ticket].key == a.key && s.turnstile.calls[a.ticket].phase.Done?
    && s.progress[a.ticket] == Returning(Some(a.csrfToken))
  }

  ghost predicate Answered(s: State, t: nat) { exists i :: 0 <= i < |s.answers| && s.answers[i].ticket == t }

  /** Every finished read that has a token to hand out has handed it out. */
  ghost predicate AllAnswered(s: State) {
    forall t | 0 <= t < |s.progress| && t < |s.turnstile.calls| && s.turnstile.calls[t].phase.Done? ::
      s.progress[t].Returning? && s.progress[t].result.Some? ==> Answered(s, t)
  }

  ghost predicate Inv(s: State, start: Store) {
    T.Inv(s.turnstile) && InStep(s) && AnswersOrdered(s) && AllAnswered(s) && DigestsAgree(s, start)
  }

  /** A call that has not written, behind all that have, changes nothing. */
  lemma NoWriteAtEnd(writes: seq<Write>, w: Write, key: Digest, atStart: Digest)
    requires w.token.None?
    ensures LastWritten(writes + [w], key, atStart) == LastWritten(writes, key, atStart)
  {
    assert (writes + [w])[..|writes|] == writes;
  }

  /** A write with none on its key behind it is the last one, and other keys do not see it. */
  lemma {:induction false} WriteIsLast(writes: seq<Write>, t: nat, token: string, key: Digest, atStart: Digest)
    requires t < |writes|
    requires forall u | t < u < |writes| && writes[u].key == writes[t].key :: writes[u].token.None?
    requires writes[t].token.None?
    ensures var after := writes[t := Write(writes[t].key, Some(token))];
      LastWritten(after, key, atStart)
        == if key == writes[t].key then OfCsrf(token) else LastWritten(writes, key, atStart)
    decreases |writes|
  {
    var n := |writes| - 1;
    var after := writes[t := Write(writes[t].key, Some(token))];
    if t < n {
      assert after[..n] == writes[..n][t := Write(writes[t].key, Some(token))];
      WriteIsLast(writes[..n], t, token, key, atStart);
    } else {
      assert after[..n] == writes[..n];
    }
  }

  /** Nothing is stored, written or answered. */
  lemma QuietStepKeeps(s: State, s': State, entered: Option<Digest>, start: Store)
    requires InStep(s) && InStep(s') && AnswersOrdered(s) && AllAnswered(s) && DigestsAgree(s, start)
    requires s'.store.Keys == s.store.Keys && s'.answers == s.answers
    requires forall k | k in s.store :: s'.store[k].csrfTokenHash == s.store[k].csrfTokenHash
    requires Writes(s') == if entered.Some? then Writes(s) + [Write(entered.value, None)] else Writes(s)
    requires forall t | 0 <= t < |s.progress| ::
      && t < |s'.progress| && s'.turnstile.calls[t].key == s.turnstile.calls[t].key
      && (s.turnstile.calls[t].phase.Done? <==> s'.turnstile.calls[t].phase.Done?)
      && (s.turnstile.calls[t].phase.Done? ==> s'.progress[t] == s.progress[t])
    requires forall t | |s.progress| <= t < |s'.progress| :: !s'.turnstile.calls[t].phase.Done?
    ensures AnswersOrdered(s') && AllAnswered(s') && DigestsAgree(s', start)
  {
    forall t | 0 <= t < |s'.progress| && s'.turnstile.calls[t].phase.Done? && s'.progress[t].Returning?
                 && s'.progress[t].result.Some?
      ensures Answered(s', t)
    {
      assert Answered(s, t);
      var i :| 0 <= i < |s.answers| && s.answers[i].ticket == t;
      assert s'.answers[i].ticket == t;
    }
    forall i | 0 <= i < |s'.answers| ensures AnswerOf(s', s'.answers[i]) { assert AnswerOf(s, s.answers[i]); }
    forall k | k in s'.store
      ensures s'.store[k].csrfTokenHash == LastWritten(Writes(s'), k, start[k].csrfTokenHash)
    {
      if entered.Some? { NoWriteAtEnd(Writes(s), Write(entered.value, None), k, start[k].csrfTokenHash); }
    }
  }

  /** Entering, settling and resuming: a queued read becomes at most a resolving one. */
  lemma TurnstileStepKeeps(s: State, step: Step, inner: T.Step, start: Store)
    requires InStep(s) && AnswersOrdered(s) && AllAnswered(s) && DigestsAgree(s, start) && Enabled(s, step)
    requires || (step.SettleTail? && inner == T.Settle(step.t))
             || (step.Read? && inner == T.Enter(OfSession(step.sessionToken)))
             || (step.Begin? && inner == T.Resume(step.t))
    ensures var s' := Apply(s, step);
      InStep(s') && AnswersOrdered(s') && AllAnswered(s') && DigestsAgree(s', start)
  {
    hide LastWritten, AnswersOrdered, AllAnswered;
    var s' := Apply(s, step);
    if step.Read? {
      assert Writes(s') == Writes(s) + [Write(OfSession(step.sessionToken), None)];
      QuietStepKeeps(s, s', Some(OfSession(step.sessionToken)), start);
    } else {
      assert Writes(s') == Writes(s);
      QuietStepKeeps(s, s', None, start);
    }
  }

  /** Store effects of a resolve, and a read moving on without touching the store. */
  lemma LocalStepKeeps(s: State, step: Step, start: Store)
    requires InStep(s) && AnswersOrdered(s) && AllAnswered(s) && DigestsAgree(s, start) && Enabled(s, step)
    requires step.Throttled? || step.Cleared? || step.ResolveFailed? || step.Resolved? || step.Throw?
    ensures var s' := Apply(s, step);
      InStep(s') && AnswersOrdered(s') && AllAnswered(s') && DigestsAgree(s', start)
  {
    hide LastWritten, AnswersOrdered, AllAnswered;
    var s' := Apply(s, step);
    assert Writes(s') == Writes(s);
    QuietStepKeeps(s, s', None, start);
  }

  lemma ReplaceKeepsAnswers(s: State, step: Step)
    requires InStep(s) && AnswersOrdered(s) && AllAnswered(s)
    requires Enabled(s, step) && (step.Replace? || step.ThrowAfterReplace?)
    ensures var s' := Apply(s, step); InStep(s') && AnswersOrdered(s') && AllAnswered(s')
  {
    hide ReplaceCsrf;
    var s' := Apply(s, step);
    forall i | 0 <= i < |s'.answers| ensures AnswerOf(s', s'.answers[i]) { assert AnswerOf(s, s.answers[i]); }
    assert forall u: nat | Answered(s, u) :: Answered(s', u);
  }

  /** A replacement, whether it is going to be answered or to throw, is the last write on its key. */
  lemma ReplaceKeepsDigests(s: State, step: Step, start: Store)
    requires InStep(s) && DigestsAgree(s, start)
    requires T.InOrder(s.turnstile.calls) && Enabled(s, step) && (step.Replace? || step.ThrowAfterReplace?)
    ensures DigestsAgree(Apply(s, step), start)
  {
    hide LastWritten, T.InOrder;
    var s' := Apply(s, step);
    var t, key, token := step.t, s.turnstile.calls[step.t].key, s.progress[step.t].csrfToken;
    T.LaterCallsWait(s.turnstile.calls, t);
    if Live(s.store, key) {
      assert Writes(s') == Writes(s)[t := Write(key, Some(token))];
      forall k | k in s'.store
        ensures s'.store[k].csrfTokenHash == LastWritten(Writes(s'), k, start[k].csrfTokenHash)
      {
        WriteIsLast(Writes(s), t, token, k, start[k].csrfTokenHash);
      }
    } else {
      assert Writes(s') == Writes(s);
    }
  }

  /** What a return changes: its call is done, and its token, if it has one to hand out, is answered. */
  lemma ReturnEffect(s: State, t: nat)
    requires InStep(s) && Enabled(s, Return(t))
    ensures var s' := Apply(s, Return(t)); var calls, calls' := s.turnstile.calls, s'.turnstile.calls;
      && s'.store == s.store && s'.progress == s.progress && |calls'| == |calls| && t < |calls|
      && calls[t].phase.Working? && calls'[t].phase.Done? && calls'[t].key == calls[t].key
      && (forall u | 0 <= u < |calls| && u != t :: calls'[u] == calls[u])
      && s'.answers == s.answers + if s.progress[t].Returning? && s.progress[t].result.Some?
                                   then [Answer(t, calls[t].key, s.progress[t].result.value)] else []
  {
  }

  lemma ReturnKeepsOrder(s: State, t: nat)
    requires InStep(s) && AnswersOrdered(s) && T.InOrder(s.turnstile.calls) && Enabled(s, Return(t))
    ensures AnswersOrdered(Apply(s, Return(t)))
  {
    hide Apply, T.InOrder;
    ReturnEffect(s, t);
    var s' := Apply(s, Return(t));
    T.LaterCallsWait(s.turnstile.calls, t);
    forall i | 0 <= i < |s.answers|
      ensures AnswerOf(s', s.answers[i])
      ensures s.answers[i].key == s.turnstile.calls[t].key ==> s.answers[i].ticket < t
    {
      assert AnswerOf(s, s.answers[i]);
    }
  }

  lemma ReturnKeepsAnswered(s: State, t: nat)
    requires InStep(s) && AllAnswered(s) && Enabled(s, Return(t))
    ensures AllAnswered(Apply(s, Return(t)))
  {
    hide Apply;
    ReturnEffect(s, t);
    var s' := Apply(s, Return(t));
    forall u: nat | Answered(s, u) ensures Answered(s', u) {
      var i :| 0 <= i < |s.answers| && s.answers[i].ticket == u;
      assert s'.answers[i].ticket == u;
    }
    if |s'.answers| > |s.answers| { assert s'.answers[|s.answers|].ticket == t; }
  }

  lemma ReturnKeeps(s: State, t: nat, start: Store)
    requires InStep(s) && AnswersOrdered(s) && AllAnswered(s) && DigestsAgree(s, start)
    requires T.InOrder(s.turnstile.calls) && Enabled(s, Return(t))
    ensures var s' := Apply(s, Return(t));
      InStep(s') && AnswersOrdered(s') && AllAnswered(s') && DigestsAgree(s', start)
  {
    hide LastWritten, Apply, AnswersOrdered, AllAnswered, T.InOrder;
    ReturnEffect(s, t);
    ReturnKeepsOrder(s, t);
    ReturnKeepsAnswered(s, t);
    assert Writes(Apply(s, Return(t))) == Writes(s);
  }

  lemma StepKeepsTurnstile(s: State, step: Step)
    requires T.Inv(s.turnstile) && Enabled(s, step)
    ensures T.Inv(Apply(s, step).turnstile)
  {
    hide T.Inv;
    match step
    case Read(sessionToken) => T.StepKeepsInv(s.turnstile, T.Enter(OfSession(sessionToken)));
    case SettleTail(t) => T.StepKeepsInv(s.turnstile, T.Settle(t));
    case Begin(t) => T.StepKeepsInv(s.turnstile, T.Resume(t));
    case Return(t) => T.StepKeepsInv(s.turnstile, T.Finish(t, s.progress[t].Throwing?));
    case _ =>
  }

  lemma InOrder(s: T.State)
    requires T.Inv(s)
    ensures T.InOrder(s.calls)
  {
  }

  lemma StepKeepsInv(s: State, step: Step, start: Store)
    requires Inv(s, start) && Enabled(s, step)
    ensures Inv(Apply(s, step), start)
  {
    hide T.Inv, T.InOrder, AnswersOrdered, AllAnswered, LastWritten, Apply;
    StepKeepsTurnstile(s, step);
    InOrder(s.turnstile);
    match step
    case Read(sessionToken) => TurnstileStepKeeps(s, step, T.Enter(OfSession(sessionToken)), start);
    case SettleTail(t) => TurnstileStepKeeps(s, step, T.Settle(t), start);
    case Begin(t) => TurnstileStepKeeps(s, step, T.Resume(t), start);
    case Replace(_) =>
      ReplaceKeepsAnswers(s, step);
      ReplaceKeepsDigests(s, step, start);
    case ThrowAfterReplace(_) =>
      ReplaceKeepsAnswers(s, step);
      ReplaceKeepsDigests(s, step, start);
    case Return(t) => ReturnKeeps(s, t, start);
    case _ => LocalStepKeeps(s, step, start);
  }

  lemma {:induction false} RunKeepsInv(s: State, steps: seq<Step>, start: Store)
    requires Inv(s, start) && Legal(s, steps)
    ensures Inv(Execute(s, steps), start)
    decreases |steps|
  {
    hide Inv, Apply;
    if steps != [] {
      StepKeepsInv(s, steps[0], start);
      RunKeepsInv(Apply(s, steps[0]), steps[1..], start);
    }
  }

  lemma InitialInv(start: Store)
    ensures Inv(Initial(start), start)
  {
  }

  // ---- main results ----

  /** All reads of the session have finished. */
  ghost predicate Drained(s: State, key: Digest) {
    forall t | 0 <= t < |s.turnstile.calls| && s.turnstile.calls[t].key == key :: s.turnstile.calls[t].phase.Done?
  }

  /** A read threw after its replacement took effect, and no later read of the session was answered. */
  ghost predicate Lost(s: State, key: Digest, t: nat) {
    && t < |s.progress| && t < |s.turnstile.calls| && s.turnstile.calls[t].key == key
    && s.progress[t].Throwing? && s.progress[t].stored.Some?
    && forall i | 0 <= i < |s.answers| && s.answers[i].key == key :: s.answers[i].ticket < t
  }

  /** The tokens stored for the session are all different, and none was stored at the start. */
  ghost predicate TokensFresh(s: State, key: Digest, atStart: Digest)
    requires |s.progress| == |s.turnstile.calls|
  {
    && (forall t | 0 <= t < |Writes(s)| && Writes(s)[t].key == key && Writes(s)[t].token.Some? ::
          OfCsrf(Writes(s)[t].token.value) != atStart)
    && (forall t, u | 0 <= t < u < |Writes(s)| && Writes(s)[t].key == key && Writes(s)[u].key == key ::
          Writes(s)[t].token.Some? ==> Writes(s)[t].token != Writes(s)[u].token)
  }

  lemma {:induction false} LastWriter(writes: seq<Write>, key: Digest, atStart: Digest) returns (w: Option<nat>)
    ensures w.None? ==> LastWritten(writes, key, atStart) == atStart
    ensures w.None? ==> forall t | 0 <= t < |writes| && writes[t].key == key :: writes[t].token.None?
    ensures w.Some? ==>
      && w.value < |writes| && writes[w.value].key == key && writes[w.value].token.Some?
      && LastWritten(writes, key, atStart) == OfCsrf(writes[w.value].token.value)
      && forall t | w.value < t < |writes| && writes[t].key == key :: writes[t].token.None?
    decreases |writes|
  {
    if writes == [] {
      w := None;
    } else {
      var n := |writes| - 1;
      if writes[n].key == key && writes[n].token.Some? {
        w := Some(n);
      } else {
        w := LastWriter(writes[..n], key, atStart);
        assert forall t | 0 <= t < n :: writes[..n][t] == writes[t];
      }
    }
  }

  lemma {:induction false} LastAnswer(answers: seq<Answer>, key: Digest, atStart: Digest) returns (a: Option<nat>)
    ensures a.None? ==> LastAnswered(answers, key, atStart) == atStart
    ensures a.None? ==> forall i | 0 <= i < |answers| :: answers[i].key != key
    ensures a.Some? ==>
      && a.value < |answers| && answers[a.value].key == key
      && LastAnswered(answers, key, atStart) == OfCsrf(answers[a.value].csrfToken)
      && forall i | a.value < i < |answers| :: answers[i].key != key
    decreases |answers|
  {
    if answers == [] {
      a := None;
    } else {
      var n := |answers| - 1;
      if answers[n].key == key {
        a := Some(n);
      } else {
        a := LastAnswer(answers[..n], key, atStart);
        assert forall i | 0 <= i < n :: answers[..n][i] == answers[i];
      }
    }
  }

  /** Where all reads are finished, the last write was answered or lost. */
  lemma LastWriteAnsweredOrLost(s: State, key: Digest, w: nat)
    requires InStep(s) && AnswersOrdered(s) && AllAnswered(s) && Drained(s, key)
    requires w < |Writes(s)| && Writes(s)[w].key == key && Writes(s)[w].token.Some?
    requires forall t | w < t < |Writes(s)| && Writes(s)[t].key == key :: Writes(s)[t].token.None?
    ensures Answered(s, w) || Lost(s, key, w)
    ensures forall i | 0 <= i < |s.answers| && s.answers[i].key == key :: s.answers[i].ticket <= w
  {
    forall i | 0 <= i < |s.answers| && s.answers[i].key == key
      ensures s.answers[i].ticket <= w && s.progress[s.answers[i].ticket].Returning?
    {
      assert AnswerOf(s, s.answers[i]);
      assert Writes(s)[s.answers[i].ticket].token.Some?;
    }
  }

  /**
   * In every interleaving of reads and resolves, once the reads of a session have drained: the stored
   * digest is that of the token handed out by the last read to succeed, unless a later read threw after
   * its replacement had taken effect; with fresh tokens, if and only if none did.
   */
  lemma StoredDigestIsLastAnswered(start: Store, steps: seq<Step>, key: Digest)
    requires Legal(Initial(start), steps) && key in start && Drained(Execute(Initial(start), steps), key)
    ensures var s := Execute(Initial(start), steps); var atStart := start[key].csrfTokenHash;
      && key in s.store && |s.progress| == |s.turnstile.calls|
      && ((forall t: nat :: !Lost(s, key, t)) ==> s.store[key].csrfTokenHash == LastAnswered(s.answers, key, atStart))
      && (TokensFresh(s, key, atStart) ==>
            (s.store[key].csrfTokenHash == LastAnswered(s.answers, key, atStart)
             <==> forall t: nat :: !Lost(s, key, t)))
  {
    hide T.Inv, Execute, Legal, LastWritten, LastAnswered;
    InitialInv(start);
    RunKeepsInv(Initial(start), steps, start);
    DrainedDigest(Execute(Initial(start), steps), start, key);
  }

  lemma DrainedDigest(s: State, start: Store, key: Digest)
    requires InStep(s) && AnswersOrdered(s) && AllAnswered(s) && DigestsAgree(s, start)
    requires key in start && Drained(s, key)
    ensures var atStart := start[key].csrfTokenHash;
      && ((forall t: nat :: !Lost(s, key, t)) ==> s.store[key].csrfTokenHash == LastAnswered(s.answers, key, atStart))
      && (TokensFresh(s, key, atStart) ==>
            (s.store[key].csrfTokenHash == LastAnswered(s.answers, key, atStart)
             <==> forall t: nat :: !Lost(s, key, t)))
  {
    hide LastWritten, LastAnswered;
    var atStart := start[key].csrfTokenHash;
    var w := LastWriter(Writes(s), key, atStart);
    var a := LastAnswer(s.answers, key, atStart);
    if a.Some? { assert AnswerOf(s, s.answers[a.value]); }
    if w.Some? {
      LastWriteAnsweredOrLost(s, key, w.value);
      forall t: nat | Lost(s, key, t) ensures t <= w.value && (a.Some? ==> s.answers[a.value].ticket < t) {
        assert Writes(s)[t].token.Some?;
      }
      if Answered(s, w.value) {
        var i :| 0 <= i < |s.answers| && s.answers[i].ticket == w.value;
        assert AnswerOf(s, s.answers[i]);
      }
    } else {
      assert forall t | 0 <= t < |s.progress| && s.turnstile.calls[t].key == key :: Writes(s)[t].token.None?;
    }
  }

  /** Any read about to replace the digest of a live session can be lost so, from any state of any run. */
  lemma LateThrowLoses(s: State, start: Store, t: nat)
    requires Inv(s, start) && Enabled(s, ThrowAfterReplace(t)) && Live(s.store, s.turnstile.calls[t].key)
    ensures Enabled(Apply(s, ThrowAfterReplace(t)), Return(t))
    ensures Lost(Apply(Apply(s, ThrowAfterReplace(t)), Return(t)), s.turnstile.calls[t].key, t)
  {
    hide DigestsAgree, AllAnswered, T.Inv, T.InOrder, ReplaceCsrf;
    InOrder(s.turnstile);
    T.LaterCallsWait(s.turnstile.calls, t);
    forall i | 0 <= i < |s.answers| && s.answers[i].key == s.turnstile.calls[t].key ensures s.answers[i].ticket < t {
      assert AnswerOf(s, s.answers[i]);
    }
  }

  // ---- what one read does ----

  lemma StepBefore(s: State, step: Step, rest: seq<Step>)
    requires Enabled(s, step) && Legal(Apply(s, step), rest)
    ensures Legal(s, [step] + rest) && Execute(s, [step] + rest) == Execute(Apply(s, step), rest)
  {
    hide Apply;
    assert ([step] + rest)[1..] == rest;
  }

  lemma OneStep(s: State, step: Step)
    requires Enabled(s, step)
    ensures Legal(s, [step]) && Execute(s, [step]) == Apply(s, step)
  {
    hide Apply, Enabled;
    assert [step][1..] == [];
  }

  /**
   * From any state of any run: a read with its new token ready is answered with that token exactly when its session
   * is live, and then the digest of the token is what is stored; otherwise it answers and changes nothing.
   */
  lemma ReplacementIsAnswered(s: State, start: Store, t: nat) returns (s': State)
    requires Inv(s, start) && t < |s.progress| && s.progress[t].Replacing?
    ensures Legal(s, [Replace(t)] + [Return(t)]) && s' == Execute(s, [Replace(t)] + [Return(t)])
    ensures var key, csrf := s.turnstile.calls[t].key, s.progress[t].csrfToken;
      && t < |s'.turnstile.calls| && s'.turnstile.calls[t].phase.Done?
      && s'.answers == s.answers + (if Live(s.store, key) then [Answer(t, key, csrf)] else [])
      && s'.store == if Live(s.store, key) then s.store[key := s.store[key].(csrfTokenHash := OfCsrf(csrf))]
                     else s.store
  {
    hide T.Inv, DigestsAgree, AnswersOrdered, AllAnswered;
    var replaced := Apply(s, Replace(t));
    OneStep(replaced, Return(t));
    StepBefore(s, Replace(t), [Return(t)]);
    s' := Apply(replaced, Return(t));
  }

  /** A read whose resolve fails, or that throws before it has replaced anything, answers and changes nothing. */
  lemma RefusedReadChangesNothing(s: State, start: Store, t: nat, throws: bool)
    requires Inv(s, start) && t < |s.progress| && s.progress[t].Resolving?
    ensures var first := if throws then Throw(t) else ResolveFailed(t);
      && Legal(s, [first] + [Return(t)])
      && Execute(s, [first] + [Return(t)]).answers == s.answers && Execute(s, [first] + [Return(t)]).store == s.store
  {
    hide T.Inv, DigestsAgree, AnswersOrdered, AllAnswered;
    var first := if throws then Throw(t) else ResolveFailed(t);
    OneStep(Apply(s, first), Return(t));
    StepBefore(s, first, [Return(t)]);
  }

  /** Where a step of the resolve leaves the reads. */
  predicate SameReads(s: State, s': State) {
    s'.turnstile == s.turnstile && s'.progress == s.progress && s'.answers == s.answers
  }

  /** What the resolve inside a read writes: the organization that no longer binds the user, and last-seen. */
  lemma ResolveWrites(c: L.Config, s: State, h: Digest, now: int, member: bool) returns (steps: seq<Step>)
    requires U.Usable(s.store, h, now)
    ensures Legal(s, steps) && SameReads(s, Execute(s, steps))
    ensures Execute(s, steps).store == U.Use(c, U.Unbound(s.store, h, member), h, now)
  {
    hide Throttle;
    var touch := Throttled(h, now, now + c.idleTtl, now - c.lastSeenMinInterval);
    if U.Unbound(s.store, h, member) == s.store {
      OneStep(s, touch);
      steps := [touch];
    } else {
      var clear := Cleared(s.store[h].userId, s.store[h].activeOrganizationId.value);
      OneStep(Apply(s, clear), touch);
      StepBefore(s, clear, [touch]);
      steps := [clear] + [touch];
    }
  }

  lemma {:induction false} ExecuteConcat(s: State, a: seq<Step>, b: seq<Step>)
    requires Legal(s, a) && Legal(Execute(s, a), b)
    ensures Legal(s, a + b) && Execute(s, a + b) == Execute(Execute(s, a), b)
    decreases |a|
  {
    hide Apply, Enabled;
    if a == [] {
      assert a + b == b;
    } else {
      assert (a + b)[1..] == a[1..] + b;
      ExecuteConcat(Apply(s, a[0]), a[1..], b);
    }
  }

  /** A read of an idle session starts its work at once. */
  lemma IdleReadBegins(s: State, start: Store, token: string)
    requires Inv(s, start) && OfSession(token) !in s.turnstile.tails
    ensures var t, steps := |s.progress|, [Read(token)] + [Begin(|s.progress|)];
      && Legal(s, steps) && Inv(Execute(s, steps), start)
      && Execute(s, steps).store == s.store && Execute(s, steps).answers == s.answers
      && |Execute(s, steps).progress| == t + 1 && Execute(s, steps).progress[t].Resolving?
      && Execute(s, steps).turnstile.calls[t].key == OfSession(token)
  {
    hide DigestsAgree, AnswersOrdered, AllAnswered;
    var t := |s.progress|;
    var s1 := Apply(s, Read(token));
    StepKeepsInv(s, Read(token), start);
    OneStep(s1, Begin(t));
    StepKeepsInv(s1, Begin(t), start);
    StepBefore(s, Read(token), [Begin(t)]);
  }

  /**
   * A read that nothing interleaves with, from any state of any run in which its session is idle and
   * usable: it is answered with its token, and leaves in the store what `readOnce` on its own leaves.
   */
  lemma ReadAloneIsReadOnce(c: L.Config, s: State, start: Store, token: string, csrf: string, now: int, member: bool)
    returns (steps: seq<Step>)
    requires Inv(s, start) && OfSession(token) !in s.turnstile.tails && U.Usable(s.store, OfSession(token), now)
    ensures Legal(s, steps)
    ensures var s' := Execute(s, steps); var h := OfSession(token);
      var resolved := U.Use(c, U.Unbound(s.store, h, member), h, now);
      && s'.answers == s.answers + [Answer(|s.progress|, h, csrf)]
      && h in resolved && s'.store == resolved[h := resolved[h].(csrfTokenHash := OfCsrf(csrf))]
  {
    hide Execute, Legal, Inv, Enabled;
    var h, t := OfSession(token), |s.progress|;
    var entry := [Read(token)] + [Begin(t)];
    IdleReadBegins(s, start, token);
    var s1 := Execute(s, entry);
    var writes := ResolveWrites(c, s1, h, now, member);
    var s2 := Execute(s1, writes);
    RunKeepsInv(s1, writes, start);
    UseKeepsLive(c, s.store, h, now, member);
    Settles(s2, start, t, csrf);
    var finish := [Resolved(t, csrf)] + ([Replace(t)] + [Return(t)]);
    ExecuteConcat(s1, writes, finish);
    ExecuteConcat(s, entry, writes + finish);
    steps := entry + (writes + finish);
  }

  lemma UseKeepsLive(c: L.Config, store: Store, h: Digest, now: int, member: bool)
    requires U.Usable(store, h, now)
    ensures Live(U.Use(c, U.Unbound(store, h, member), h, now), h)
  {
  }

  /** From a resolve that has succeeded on, with the session live. */
  lemma Settles(s: State, start: Store, t: nat, csrf: string)
    requires Inv(s, start) && t < |s.progress| && s.progress[t].Resolving? && Live(s.store, s.turnstile.calls[t].key)
    ensures var steps := [Resolved(t, csrf)] + ([Replace(t)] + [Return(t)]); var key := s.turnstile.calls[t].key;
      && Legal(s, steps) && Execute(s, steps).answers == s.answers + [Answer(t, key, csrf)]
      && Execute(s, steps).store == s.store[key := s.store[key].(csrfTokenHash := OfCsrf(csrf))]
  {
    hide T.Inv, DigestsAgree, AnswersOrdered, AllAnswered, Execute, Legal;
    var s1 := Apply(s, Resolved(t, csrf));
    StepKeepsInv(s, Resolved(t, csrf), start);
    var s2 := ReplacementIsAnswered(s1, start, t);
    StepBefore(s, Resolved(t, csrf), [Replace(t)] + [Return(t)]);
  }

  /** Callers of one session are answered in the order they called. */
  lemma AnswersInCallOrder(start: Store, steps: seq<Step>, i: nat, j: nat)
    requires Legal(Initial(start), steps)
    requires i < j < |Execute(Initial(start), steps).answers|
    requires Execute(Initial(start), steps).answers[i].key == Execute(Initial(start), steps).answers[j].key
    ensures Execute(Initial(start), steps).answers[i].ticket < Execute(Initial(start), steps).answers[j].ticket
  {
    hide T.Inv, DigestsAgree, Execute, Legal, InStep, AllAnswered;
    InitialInv(start);
    RunKeepsInv(Initial(start), steps, start);
  }
}
