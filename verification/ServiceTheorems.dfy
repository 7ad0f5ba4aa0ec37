/** The guarantees of the service, each over every run, every operation and every later state. */
module ServiceTheorems {
  import opened Text16
  import opened JsonText
  import opened Domain
  import opened EventLog
  import opened Service
  import opened ServiceInvariants
  import opened ServiceProofs
  import opened ServiceRuns

  // ---------------------------------------------------------------- streams

  /**
   * In every reachable state a stream is empty, a creation, or a creation and one terminal event, with
   * versions 1 and 2 and one id; it replays without error, and the deadline was respected.
   */
  lemma StreamsAreAlwaysLegal(cfg: Config, actions: seq<Action>, id: Id)
    ensures var s := Stream(Run(cfg, actions).log, id);
      LegalStream(s) && ContinuesStream(id, 0, s) &&
      ReplayContinuation(s) == Success(if s == [] then None else Some(StateOf(s))) &&
      (s != [] ==> s[0].occurredAt < s[0].expiresAt) &&
      (|s| == 2 && s[1].WasCancelled? ==> s[1].occurredAt < s[0].expiresAt) &&
      (|s| == 2 && s[1].WasExpired? ==> s[1].occurredAt >= s[0].expiresAt)
  {
    RunKeepsInv(cfg, actions);
    ReplayAcceptsLegalStreams(Stream(Run(cfg, actions).log, id));
  }

  lemma {:induction false} RunSplits(cfg: Config, first: seq<Action>, more: seq<Action>)
    ensures more != [] ==>
      Run(cfg, first + more) == Apply(cfg, Run(cfg, first + more[..|more| - 1]), more[|more| - 1])
    ensures more == [] ==> Run(cfg, first + more) == Run(cfg, first)
  {
    if more == [] {
      assert first + more == first;
    } else {
      assert (first + more)[..|first + more| - 1] == first + more[..|more| - 1];
    }
  }

  /** Whatever happens next, no event leaves the log, and a closed stream never changes again. */
  lemma {:induction false} LogOnlyGrows(cfg: Config, first: seq<Action>, more: seq<Action>)
    ensures Grows(Run(cfg, first).log, Run(cfg, first + more).log)
    ensures forall id | |Stream(Run(cfg, first).log, id)| == 2 ::
      Stream(Run(cfg, first + more).log, id) == Stream(Run(cfg, first).log, id)
  {
    RunSplits(cfg, first, more);
    RunKeepsInv(cfg, first);
    RunKeepsInv(cfg, first + more);
    if more != [] {
      LogOnlyGrows(cfg, first, more[..|more| - 1]);
      RunKeepsInv(cfg, first + more[..|more| - 1]);
      ApplyKeepsInv(cfg, Run(cfg, first + more[..|more| - 1]), more[|more| - 1]);
    }
    forall id | |Stream(Run(cfg, first).log, id)| == 2
      ensures Stream(Run(cfg, first + more).log, id) == Stream(Run(cfg, first).log, id)
    {
      PrefixOfGoodStream(id, Stream(Run(cfg, first).log, id), Stream(Run(cfg, first + more).log, id));
    }
  }

  // ---------------------------------------------------------------- one winner

  /** At most one operation of a run closes a continuation, and a closed one was closed by exactly one. */
  lemma OneOperationCloses(cfg: Config, actions: seq<Action>, id: Id)
    ensures var s := Run(cfg, actions);
      forall o, p | o in s.ops && p in s.ops && s.ops[o].committed.Some? && s.ops[p].committed.Some? &&
        !s.ops[o].committed.value.WasCreated? && !s.ops[p].committed.value.WasCreated? &&
        s.ops[o].committed.value.continuationId == s.ops[p].committed.value.continuationId == id :: o == p
    ensures var s := Run(cfg, actions);
      |Stream(s.log, id)| == 2 ==> exists o | o in s.ops :: s.ops[o].committed == Some(Stream(s.log, id)[1])
  {
    var s := Run(cfg, actions);
    RunKeepsInv(cfg, actions);
    forall o, p | o in s.ops && p in s.ops && s.ops[o].committed.Some? && s.ops[p].committed.Some? &&
      !s.ops[o].committed.value.WasCreated? && !s.ops[p].committed.value.WasCreated? &&
      s.ops[o].committed.value.continuationId == s.ops[p].committed.value.continuationId == id
      ensures o == p
    {
      CommittedIsInLog(cfg, s.log, s.ops[o]);
      CommittedIsInLog(cfg, s.log, s.ops[p]);
      assert SamePlace(s.ops[o].committed.value, s.ops[p].committed.value);
    }
    if |Stream(s.log, id)| == 2 {
      assert HasAuthor(Stream(s.log, id)[1], s.ops);
    }
  }

  /** What the i-th announcement announces: the event that its operation stored. */
  lemma AnnouncedEvent(cfg: Config, s: State, i: nat)
    requires Inv(cfg, s) && i < |s.facts| && s.facts[i].Transitioned?
    ensures var f := s.facts[i];
      f.op in s.ops && s.ops[f.op].committed.Some? &&
      var c := s.ops[f.op].committed.value;
      f.id == c.continuationId && f.version == c.version && f.status == StatusAfter(c) &&
      1 <= f.version <= |Stream(s.log, f.id)| && Stream(s.log, f.id)[f.version - 1] == c
  {
    assert FactFits(s.facts[i], s.ops);
    CommittedIsInLog(cfg, s.log, s.ops[s.facts[i].op]);
  }

  lemma OneAnnouncement(s: State, i: nat, j: nat)
    requires OneAuthor(s.ops) && FactsFit(s.facts, s.ops) && i < |s.facts| && j < |s.facts|
    requires s.facts[i].Transitioned? && s.facts[j].Transitioned?
    requires s.facts[i].id == s.facts[j].id && s.facts[i].version == s.facts[j].version
    ensures i == j
  {
    assert FactFits(s.facts[i], s.ops) && FactFits(s.facts[j], s.ops);
    assert SamePlace(s.ops[s.facts[i].op].committed.value, s.ops[s.facts[j].op].committed.value);
  }

  /** Each stored event is announced to the observer at most once, and what is announced is stored. */
  lemma TransitionsAreObservedOnce(cfg: Config, actions: seq<Action>, i: nat, j: nat)
    requires i < |Run(cfg, actions).facts| && j < |Run(cfg, actions).facts|
    requires Run(cfg, actions).facts[i].Transitioned? && Run(cfg, actions).facts[j].Transitioned?
    ensures var s := Run(cfg, actions);
      var f, g := s.facts[i], s.facts[j];
      (f.id == g.id && f.version == g.version ==> i == j) &&
      1 <= f.version <= |Stream(s.log, f.id)| && f.status == StatusAfter(Stream(s.log, f.id)[f.version - 1])
  {
    RunKeepsInv(cfg, actions);
    var s := Run(cfg, actions);
    AnnouncedEvent(cfg, s, i);
    if s.facts[i].id == s.facts[j].id && s.facts[i].version == s.facts[j].version {
      OneAnnouncement(s, i, j);
    }
  }

  // ---------------------------------------------------------------- resume

  ghost predicate ResumedWith(s: State, o: nat, id: Id, state: Envelope) {
    o in s.ops && s.ops[o].request.Resume? && s.ops[o].request.continuationId == id &&
    s.ops[o].pc == Done(Success(state))
  }

  lemma OpOf(cfg: Config, actions: seq<Action>, o: nat)
    requires o in Run(cfg, actions).ops
    ensures GoodLog(Run(cfg, actions).log) && OpFits(cfg, Run(cfg, actions).log, Run(cfg, actions).ops[o])
    ensures forall id :: GoodStream(id, Stream(Run(cfg, actions).log, id))
  {
    RunKeepsInv(cfg, actions);
  }

  /** What one successful resume says about its stream. */
  lemma ResumeSuccessMeans(cfg: Config, op: Op, s: seq<Event>, state: Envelope)
    requires op.request.Resume? && GoodStream(op.request.continuationId, s) && PcFits(cfg, op, s)
    requires op.pc == Done(Success(state))
    ensures ReplayContinuation(s) == Success(Some(state)) && state.Resumed? && TokenFits(cfg, op.request, s)
    ensures op.request.idempotencyKey == state.idempotencyKey
    ensures CanonicalJson(op.request.resumePayload) == CanonicalJson(state.resumePayload)
  {
    ReplayAcceptsLegalStreams(s);
  }

  /**
   * Every successful resume of a continuation, winner or not, returns the replay of its final stream,
   * and had the token, the idempotency key and the canonical payload of the one that won.
   */
  lemma SuccessfulResumesAgree(cfg: Config, actions: seq<Action>, o: nat, p: nat, id: Id, a: Envelope, b: Envelope)
    requires ResumedWith(Run(cfg, actions), o, id, a) && ResumedWith(Run(cfg, actions), p, id, b)
    ensures a == b
    ensures var s := Run(cfg, actions);
      ReplayContinuation(Stream(s.log, id)) == Success(Some(a)) && a.Resumed? &&
      s.ops[o].request.idempotencyKey == s.ops[p].request.idempotencyKey == a.idempotencyKey &&
      CanonicalJson(s.ops[o].request.resumePayload) == CanonicalJson(s.ops[p].request.resumePayload) &&
      TokenFits(cfg, s.ops[o].request, Stream(s.log, id)) && TokenFits(cfg, s.ops[p].request, Stream(s.log, id))
  {
    var s := Run(cfg, actions);
    OpOf(cfg, actions, o);
    OpOf(cfg, actions, p);
    ResumeSuccessMeans(cfg, s.ops[o], Stream(s.log, id), a);
    ResumeSuccessMeans(cfg, s.ops[p], Stream(s.log, id), b);
  }

  /** An operation that arrived later has seen at least what the log held before it arrived. */
  lemma {:induction false} LateArrivalsSawTheLog(cfg: Config, first: seq<Action>, more: seq<Action>, o: nat)
    requires o !in Run(cfg, first).ops && o in Run(cfg, first + more).ops
    requires !Run(cfg, first + more).ops[o].request.Create?
    ensures var op := Run(cfg, first + more).ops[o];
      Stream(Run(cfg, first).log, op.request.continuationId) <= op.seen
  {
    RunSplits(cfg, first, more);
    if more != [] {
      var before := Run(cfg, first + more[..|more| - 1]);
      if o in before.ops {
        RequestNeverChanges(cfg, before, more[|more| - 1], o);
        LateArrivalsSawTheLog(cfg, first, more[..|more| - 1], o);
      } else {
        LogOnlyGrows(cfg, first, more[..|more| - 1]);
      }
    }
  }

  lemma RequestNeverChanges(cfg: Config, s: State, a: Action, o: nat)
    requires o in s.ops
    ensures var s' := Apply(cfg, s, a);
      o in s'.ops && s'.ops[o].request == s.ops[o].request && s'.ops[o].seen == s.ops[o].seen
  {
    if a.Advance? && a.o == o {
      StepShape(cfg, s.log, o, s.ops[o], a.env);
    }
  }

  // ---------------------------------------------------------------- failures

  /** What an error of the store, or of an append, is owed to at the step that ends the operation with it. */
  ghost predicate IsCause(op: Op, env: Env, e: Error) {
    match e
    case StoreFailed => Fails(env.fault)
    case BadEvent => Appends(op.pc) && !Storable(op.pc.event)
    case StreamTooLarge => Appends(op.pc) && env.fault.BoundExceeded?
    case _ => true
  }

  /** Before its outcome, the operation met the cause of that error at the k-th action of the run. */
  ghost predicate MetCauseAt(cfg: Config, actions: seq<Action>, o: nat, e: Error, k: int) {
    0 <= k < |actions| && o in Run(cfg, actions[..k]).ops && !Run(cfg, actions[..k]).ops[o].pc.Done? &&
    actions[k].Advance? && actions[k].o == o && IsCause(Run(cfg, actions[..k]).ops[o], actions[k].env, e)
  }

  ghost predicate MetCause(cfg: Config, actions: seq<Action>, o: nat, e: Error) {
    exists k :: MetCauseAt(cfg, actions, o, e, k)
  }

  /** Before its outcome, the operation met a failing call of its own. */
  ghost predicate MetFault(cfg: Config, actions: seq<Action>, o: nat) {
    MetCause(cfg, actions, o, StoreFailed)
  }

  lemma FailureHasCause(cfg: Config, log: Log, o: nat, op: Op, env: Env, e: Error)
    requires GoodLog(log) && OpFits(cfg, log, op) && !op.pc.Done?
    requires Step(cfg, log, o, op, env).op.pc == Done(Failure(e))
    ensures IsCause(op, env, e)
  {
    if op.request.Create? {
      CreateFailureHasCause(cfg, log, o, op, env, e);
    } else if op.pc.AppendExpired? || op.pc.AppendTransition? {
      AppendFailureHasCause(cfg, log, o, op, env, e);
    } else if op.pc.Start? || op.pc.Reload? || op.pc.ReloadExpired? {
      LoadFailureHasCause(cfg, log, o, op, env, e);
    } else if op.pc.CheckToken? || op.pc.RecheckToken? {
      CheckFailureHasCause(cfg, op, env, op.pc.loaded, op.pc.storedHash,
                           if op.pc.CheckToken? then None else Some(op.pc.conflict), e);
    } else if op.pc.Settled? {
      SettledFailureHasCause(op, env, op.pc.current, e);
    }
  }

  predicate NeedsCause(e: Error) { e == StoreFailed || IsBatchRefusal(e) }

  lemma CreateFailureHasCause(cfg: Config, log: Log, o: nat, op: Op, env: Env, e: Error)
    requires GoodLog(log) && op.request.Create? && CreateFits(cfg, log, op) && !op.pc.Done?
    requires Step(cfg, log, o, op, env).op.pc == Done(Failure(e))
    ensures IsCause(op, env, e)
  {
    if op.pc.AppendCreated? && CompareAndAppend(log, op.pc.event.continuationId, 0, [op.pc.event]).Refused? {
      RefusedAppend(log, op.pc.event.continuationId, 0, op.pc.event);
    }
  }

  lemma AppendFailureHasCause(cfg: Config, log: Log, o: nat, op: Op, env: Env, e: Error)
    requires GoodLog(log) && !op.request.Create? && OpFits(cfg, log, op)
    requires op.pc.AppendExpired? || op.pc.AppendTransition?
    requires Step(cfg, log, o, op, env).op.pc == Done(Failure(e))
    ensures IsCause(op, env, e)
  {
    var s := Stream(log, op.request.continuationId);
    ClosingEvent(cfg, op, s, op.pc.pending, op.pc.event);
    AppendRefusalHasCause(log, op, env, op.pc.event, 1, OnConflict(op.pc, |s|), OnCommit(op.pc), e);
  }

  lemma AppendRefusalHasCause(
    log: Log, op: Op, env: Env, event: Event, expected: int, onConflict: Pc, onCommit: Pc, e: Error)
    requires Appends(op.pc) && op.pc.event == event && event.version == expected + 1
    requires Append(log, op, event, expected, env, onConflict, onCommit).op.pc == Done(Failure(e))
    requires onConflict == Done(Failure(e)) ==> !NeedsCause(e)
    requires onCommit == Done(Failure(e)) ==>
      CompareAndAppend(log, event.continuationId, expected, [event]).Stored? ==> !NeedsCause(e)
    ensures IsCause(op, env, e)
  {
    if CompareAndAppend(log, event.continuationId, expected, [event]).Refused? {
      RefusedAppend(log, event.continuationId, expected, event);
    }
  }

  lemma LoadFailureHasCause(cfg: Config, log: Log, o: nat, op: Op, env: Env, e: Error)
    requires GoodLog(log) && !op.request.Create? && OpFits(cfg, log, op)
    requires op.pc.Start? || op.pc.Reload? || op.pc.ReloadExpired?
    requires Step(cfg, log, o, op, env).op.pc == Done(Failure(e))
    ensures IsCause(op, env, e)
  {
    ReplayOfStream(op.request.continuationId, Stream(log, op.request.continuationId));
  }

  lemma CheckFailureHasCause(
    cfg: Config, op: Op, env: Env, state: Envelope, hash: Text, conflict: Option<Error>, e: Error)
    requires op.request.Resume? && (conflict.Some? ==> !NeedsCause(conflict.value))
    requires StepCheckToken(cfg, op, state, hash, env, conflict).op.pc == Done(Failure(e))
    ensures IsCause(op, env, e)
  {
  }

  lemma SettledFailureHasCause(op: Op, env: Env, state: Envelope, e: Error)
    requires !op.request.Create? && StepSettled(op, state, env).op.pc == Done(Failure(e))
    ensures !NeedsCause(e)
  {
  }

  /**
   * An operation ends with a failure of the store only if one of its own awaited calls failed, with a bad
   * event only if the event that it offered fits no schema, and with a stream too large only if one of its
   * own appends met the bound.
   */
  lemma {:induction false} FailuresHaveCauses(cfg: Config, actions: seq<Action>, o: nat, e: Error)
    requires o in Run(cfg, actions).ops && Run(cfg, actions).ops[o].pc == Done(Failure(e))
    ensures MetCause(cfg, actions, o, e)
  {
    var init, last := actions[..|actions| - 1], actions[|actions| - 1];
    var before := Run(cfg, init);
    if o in before.ops && before.ops[o].pc == Done(Failure(e)) {
      FailuresHaveCauses(cfg, init, o, e);
      var k :| MetCauseAt(cfg, init, o, e, k);
      assert init[..k] == actions[..k];
      assert MetCauseAt(cfg, actions, o, e, k);
    } else {
      FailsNow(cfg, before, last, o, e);
      OpOf(cfg, init, o);
      FailureHasCause(cfg, before.log, o, before.ops[o], last.env, e);
      assert MetCauseAt(cfg, actions, o, e, |actions| - 1);
    }
  }

  lemma FailsNow(cfg: Config, s: State, a: Action, o: nat, e: Error)
    requires o in Apply(cfg, s, a).ops && Apply(cfg, s, a).ops[o].pc == Done(Failure(e))
    requires !(o in s.ops && s.ops[o].pc == Done(Failure(e)))
    ensures a.Advance? && a.o == o && o in s.ops && !s.ops[o].pc.Done?
    ensures Step(cfg, s.log, o, s.ops[o], a.env).op.pc == Done(Failure(e))
  {
  }

  // ---------------------------------------------------------------- retries

  /**
   * What an operation is told of a closed continuation when it gets past its token without a stored result
   * of its own: after it has lost the expiry it offered, or because it came late.
   */
  function ClosedAnswer(stream: seq<Event>, r: Request): Result<Envelope>
    requires !r.Create? && |stream| == 2 && LegalStream(stream)
  {
    var id := r.continuationId;
    if r.Inspect? then Success(StateOf(stream))
    else
      match stream[1]
      case WasResumed(_, _, _, _, _, _) =>
        Failure(if r.Resume? then TokenAlreadyUsed(id) else InvalidTransition(id, IsResumed, CancelledType))
      case WasCancelled(_, _, _, _, reason) =>
        if r.Resume? then Failure(ContinuationCancelled(id))
        else if reason != r.reason then Failure(InvalidTransition(id, IsCancelled, CancelledType))
        else if r.expectedVersion.Some? && r.expectedVersion.value != 1 then
          Failure(VersionConflict(id, r.expectedVersion.value, 2))
        else Success(StateOf(stream))
      case WasExpired(_, _, _, _) => Failure(ContinuationExpired(id))
  }

  /** What a request is told that arrives after its continuation was closed. */
  function RetryAnswer(cfg: Config, stream: seq<Event>, r: Request): Result<Envelope>
    requires !r.Create? && |stream| == 2 && LegalStream(stream)
  {
    var id := r.continuationId;
    if !r.Resume? then ClosedAnswer(stream, r)
    else if !TokenHashesEqual(stream[0].resumeTokenHash, cfg.hash(r.resumeToken)) then Failure(TokenMismatch(id))
    else if !stream[1].WasResumed? then ClosedAnswer(stream, r)
    else if stream[1].idempotencyKey != r.idempotencyKey then Failure(TokenAlreadyUsed(id))
    else if CanonicalJson(stream[1].resumePayload) != CanonicalJson(r.resumePayload) then
      Failure(IdempotencyConflict(id))
    else Success(StateOf(stream))
  }

  lemma LateOutcome(cfg: Config, op: Op, s: seq<Event>, outcome: Result<Envelope>)
    requires !op.request.Create? && OutcomeFits(cfg, op, s, outcome) && |op.seen| == 2
    requires |s| == 2 && LegalStream(s)
    ensures outcome == RetryAnswer(cfg, s, op.request) || outcome == Failure(StoreFailed)
  {
  }

  /**
   * A request that arrives after its continuation was closed, be it the retry of one whose acknowledgement
   * was lost, commits nothing and is answered by the stored events alone: a resume gets the stored envelope
   * exactly when token, key and canonical payload match, a cancel the stored cancellation when reason and
   * version do, and otherwise the error that says what did not. It fails otherwise only if a call of its
   * own failed. So it is in every later state.
   */
  lemma RetryAfterCommit(cfg: Config, first: seq<Action>, more: seq<Action>, o: nat)
    requires o !in Run(cfg, first).ops && o in Run(cfg, first + more).ops
    requires var op := Run(cfg, first + more).ops[o];
      !op.request.Create? && op.pc.Done? && |Stream(Run(cfg, first).log, op.request.continuationId)| == 2
    ensures var op := Run(cfg, first + more).ops[o];
      var stream := Stream(Run(cfg, first).log, op.request.continuationId);
      LegalStream(stream) && op.committed.None? &&
      (op.pc.outcome == RetryAnswer(cfg, stream, op.request) ||
       (op.pc.outcome == Failure(StoreFailed) && MetFault(cfg, first + more, o)))
  {
    LateArrivalsSawTheLog(cfg, first, more, o);
    LogOnlyGrows(cfg, first, more);
    OpOf(cfg, first + more, o);
    var op := Run(cfg, first + more).ops[o];
    var stream := Stream(Run(cfg, first + more).log, op.request.continuationId);
    assert op.seen == stream && LegalStream(stream);
    LateOutcome(cfg, op, stream, op.pc.outcome);
    LateArrivalsCommitNothing(cfg, first, more, o);
    if op.pc.outcome == Failure(StoreFailed) {
      FailuresHaveCauses(cfg, first + more, o, StoreFailed);
    }
  }

  ghost predicate Late(log: Log, op: Op) {
    !op.request.Create? && op.committed.None? && |Stream(log, op.request.continuationId)| == 2
  }

  lemma LateApply(cfg: Config, s: State, a: Action, o: nat)
    requires Inv(cfg, s) && o in s.ops && Late(s.log, s.ops[o])
    ensures var s' := Apply(cfg, s, a); o in s'.ops && Late(s'.log, s'.ops[o])
  {
    RequestNeverChanges(cfg, s, a, o);
    ClosedStreamStays(cfg, s, a, s.ops[o].request.continuationId);
    if a.Advance? && a.o == o {
      ClosedStreamsTakeNothing(cfg, s.log, o, s.ops[o], a.env);
    } else {
      OthersCommitNothingForIt(cfg, s, a, o);
    }
  }

  lemma ClosedStreamStays(cfg: Config, s: State, a: Action, id: Id)
    requires Inv(cfg, s) && |Stream(s.log, id)| == 2
    ensures Stream(Apply(cfg, s, a).log, id) == Stream(s.log, id)
  {
    ApplyKeepsInv(cfg, s, a);
    PrefixOfGoodStream(id, Stream(s.log, id), Stream(Apply(cfg, s, a).log, id));
  }

  lemma OthersCommitNothingForIt(cfg: Config, s: State, a: Action, o: nat)
    requires o in s.ops && !(a.Advance? && a.o == o)
    ensures o in Apply(cfg, s, a).ops && Apply(cfg, s, a).ops[o].committed == s.ops[o].committed
  {
  }

  /** An operation that arrives after its continuation is closed commits nothing. */
  lemma {:induction false} LateArrivalsCommitNothing(cfg: Config, first: seq<Action>, more: seq<Action>, o: nat)
    requires o !in Run(cfg, first).ops && o in Run(cfg, first + more).ops
    requires var op := Run(cfg, first + more).ops[o];
      !op.request.Create? && |Stream(Run(cfg, first).log, op.request.continuationId)| == 2
    ensures Late(Run(cfg, first + more).log, Run(cfg, first + more).ops[o])
  {
    RunSplits(cfg, first, more);
    if more != [] {
      var init := more[..|more| - 1];
      var before := Run(cfg, first + init);
      LogOnlyGrows(cfg, first, init);
      LogOnlyGrows(cfg, first, more);
      if o in before.ops {
        RequestNeverChanges(cfg, before, more[|more| - 1], o);
        LateArrivalsCommitNothing(cfg, first, init, o);
        RunKeepsInv(cfg, first + init);
        LateApply(cfg, before, more[|more| - 1], o);
      }
    }
  }

  lemma ClosedStreamsTakeNothing(cfg: Config, log: Log, o: nat, op: Op, env: Env)
    requires GoodLog(log) && OpFits(cfg, log, op) && !op.request.Create? && op.committed.None?
    requires |Stream(log, op.request.continuationId)| == 2
    ensures Step(cfg, log, o, op, env).op.committed.None?
  {
    HistoryOfStep(cfg, log, o, op, env);
    if op.pc.AppendExpired? || op.pc.AppendTransition? {
      ClosingEvent(cfg, op, Stream(log, op.request.continuationId), op.pc.pending, op.pc.event);
    } else {
      StepShape(cfg, log, o, op, env);
    }
  }

  lemma LoadedRetry(cfg: Config, s: State, o: nat, r: Request, load: Env, stream: seq<Event>)
    requires o !in s.ops && r.Resume? && !Fails(load.fault) && stream == Stream(s.log, r.continuationId)
    requires |stream| == 2 && LegalStream(stream)
    ensures var begun := Op(r, stream, None, None, None, None, Start);
      Apply(cfg, Apply(cfg, s, Begin(o, r)), Advance(o, load)) ==
      s.(ops := s.ops[o := begun.(pc := CheckToken(StateOf(stream), stream[0].resumeTokenHash))])
  {
    var begun := Op(r, stream, None, None, None, None, Start);
    assert Apply(cfg, s, Begin(o, r)) == s.(ops := s.ops[o := begun]);
    ReplayAcceptsLegalStreams(stream);
  }

  lemma CheckedRetry(cfg: Config, s: State, o: nat, op: Op, check: Env, stream: seq<Event>)
    requires o in s.ops && s.ops[o] == op && op.request.Resume? && !Fails(check.fault)
    requires |stream| == 2 && LegalStream(stream) && stream[1].WasResumed?
    requires op.pc == CheckToken(StateOf(stream), stream[0].resumeTokenHash)
    ensures var answer := RetryAnswer(cfg, stream, op.request);
      var next := Apply(cfg, s, Advance(o, check));
      next.log == s.log && o in next.ops &&
      next.ops[o].pc ==
        if answer == Failure(TokenMismatch(op.request.continuationId)) then RejectToken else Done(answer)
  {
  }

  /** The retry of a resume, left alone by faults, is decided at its second step and leaves the log alone. */
  lemma RetryIsAnswered(cfg: Config, actions: seq<Action>, o: nat, r: Request, load: Env, check: Env)
    requires o !in Run(cfg, actions).ops && r.Resume? && !Fails(load.fault) && !Fails(check.fault)
    requires var stream := Stream(Run(cfg, actions).log, r.continuationId);
      |stream| == 2 && LegalStream(stream) && stream[1].WasResumed?
    ensures var stream := Stream(Run(cfg, actions).log, r.continuationId);
      var s := Apply(cfg, Apply(cfg, Apply(cfg, Run(cfg, actions), Begin(o, r)), Advance(o, load)), Advance(o, check));
      s.log == Run(cfg, actions).log && o in s.ops &&
      if RetryAnswer(cfg, stream, r) == Failure(TokenMismatch(r.continuationId)) then s.ops[o].pc == RejectToken
      else s.ops[o].pc == Done(RetryAnswer(cfg, stream, r))
  {
    var stream := Stream(Run(cfg, actions).log, r.continuationId);
    LoadedRetry(cfg, Run(cfg, actions), o, r, load, stream);
    var loaded := Apply(cfg, Apply(cfg, Run(cfg, actions), Begin(o, r)), Advance(o, load));
    CheckedRetry(cfg, loaded, o, loaded.ops[o], check, stream);
  }

  // ---------------------------------------------------------------- lost races

  /** A lost append is lost to a terminal event: every reload after a conflict finds the stream closed. */
  lemma ConflictsMeanClosed(cfg: Config, actions: seq<Action>, o: nat)
    requires o in Run(cfg, actions).ops && !Run(cfg, actions).ops[o].request.Create?
    requires Run(cfg, actions).ops[o].pc.ReloadExpired? || Run(cfg, actions).ops[o].pc.Reload?
    ensures var s := Run(cfg, actions);
      var stream := Stream(s.log, s.ops[o].request.continuationId);
      |stream| == 2 && LegalStream(stream) && !StateOf(stream).Pending? &&
      ReplayContinuation(stream) == Success(Some(StateOf(stream))) && s.ops[o].committed.None?
    ensures Run(cfg, actions).ops[o].pc.Reload? ==>
      Run(cfg, actions).ops[o].pc.conflict == VersionConflict(Run(cfg, actions).ops[o].request.continuationId, 1, 2)
  {
    RunKeepsInv(cfg, actions);
    var op := Run(cfg, actions).ops[o];
    assert OpFits(cfg, Run(cfg, actions).log, op);
    ReplayOfStream(op.request.continuationId, Stream(Run(cfg, actions).log, op.request.continuationId));
  }

  /**
   * The refusals of resume and cancel name the winner: a version conflict of a resume is lost to a
   * cancellation or an expiry, that of a cancel to a resumption, and every other refusal of a closed
   * continuation says what closed it.
   */
  lemma LostRacesAreClassified(cfg: Config, actions: seq<Action>, o: nat, e: Error)
    requires o in Run(cfg, actions).ops && Run(cfg, actions).ops[o].pc == Done(Failure(e))
    requires Run(cfg, actions).ops[o].request.Resume? || Run(cfg, actions).ops[o].request.Cancel?
    ensures var s := Run(cfg, actions);
      Classified(s.ops[o].request, Stream(s.log, s.ops[o].request.continuationId), e)
  {
    OpOf(cfg, actions, o);
    var s := Run(cfg, actions);
    FailuresAreClassified(cfg, s.ops[o], Stream(s.log, s.ops[o].request.continuationId), e);
  }

  ghost predicate Classified(r: Request, stream: seq<Event>, e: Error)
    requires r.Resume? || r.Cancel?
  {
    var id := r.continuationId;
    (r.Resume? && e.VersionConflict? ==> e == VersionConflict(id, 1, 2) && |stream| == 2 && !stream[1].WasResumed?) &&
    (r.Cancel? && e == VersionConflict(id, 1, 2) ==> |stream| == 2 && stream[1].WasResumed?) &&
    (r.Cancel? && e.VersionConflict? && e != VersionConflict(id, 1, 2) ==>
      r.expectedVersion == Some(e.expected) && e.expected != 1) &&
    (e.ContinuationExpired? ==> |stream| == 2 && stream[1].WasExpired?) &&
    (e.ContinuationCancelled? ==> |stream| == 2 && stream[1].WasCancelled?) &&
    (e.TokenAlreadyUsed? || e.IdempotencyConflict? ==> |stream| == 2 && stream[1].WasResumed?) &&
    (e.InvalidTransition? ==>
      r.Cancel? && e.event == CancelledType && |stream| == 2 &&
      if stream[1].WasCancelled? then e.from == IsCancelled && stream[1].reason != r.reason
      else e.from == IsResumed && stream[1].WasResumed?)
  }

  lemma FailuresAreClassified(cfg: Config, op: Op, s: seq<Event>, e: Error)
    requires (op.request.Resume? || op.request.Cancel?) && PcFits(cfg, op, s) && op.pc == Done(Failure(e))
    ensures Classified(op.request, s, e)
  {
  }

  /** What a resume or a cancel is told once its own append has been lost to another terminal event. */
  function LostAppendAnswer(stream: seq<Event>, r: Request): Result<Envelope>
    requires (r.Resume? || r.Cancel?) && |stream| == 2 && LegalStream(stream)
  {
    var id := r.continuationId;
    match stream[1]
    case WasResumed(_, _, _, _, key, payload) =>
      if r.Cancel? then Failure(VersionConflict(id, 1, 2))
      else if key != r.idempotencyKey then Failure(TokenAlreadyUsed(id))
      else if CanonicalJson(payload) != CanonicalJson(r.resumePayload) then Failure(IdempotencyConflict(id))
      else Success(StateOf(stream))
    case WasCancelled(_, _, _, _, reason) =>
      if r.Resume? then Failure(VersionConflict(id, 1, 2))
      else if reason != r.reason then Failure(InvalidTransition(id, IsCancelled, CancelledType))
      else Success(StateOf(stream))
    case WasExpired(_, _, _, _) =>
      Failure(if r.Resume? then VersionConflict(id, 1, 2) else ContinuationExpired(id))
  }

  /** Where an operation that lost its append can be on its way to the answer. */
  ghost predicate LostAppend(cfg: Config, op: Op, stream: seq<Event>) {
    var r := op.request;
    (r.Resume? || r.Cancel?) && IsClosed(stream) && (r.Resume? ==> TokenFits(cfg, r, stream)) &&
    (r.Cancel? ==> r.expectedVersion.None? || r.expectedVersion.value == 1) &&
    match op.pc
    case Reload(conflict) => conflict == VersionConflict(r.continuationId, 1, 2)
    case RecheckToken(state, hash, conflict) =>
      r.Resume? && state == StateOf(stream) && hash == stream[0].resumeTokenHash &&
      conflict == VersionConflict(r.continuationId, 1, 2)
    case Done(outcome) => outcome == LostAppendAnswer(stream, r) || outcome == Failure(StoreFailed)
    case Crashed => true
    case _ => false
  }

  ghost predicate LostExpiry(op: Op, stream: seq<Event>) {
    !op.request.Create? && IsClosed(stream) &&
    match op.pc
    case ReloadExpired => true
    case Settled(state) => state == StateOf(stream)
    case Done(outcome) => outcome == ClosedAnswer(stream, op.request) || outcome == Failure(StoreFailed)
    case Crashed => true
    case _ => false
  }

  lemma LostAppendStep(cfg: Config, log: Log, o: nat, op: Op, env: Env, stream: seq<Event>)
    requires !op.request.Create? && stream == Stream(log, op.request.continuationId) && LostAppend(cfg, op, stream)
    requires GoodStream(op.request.continuationId, stream)
    ensures LostAppend(cfg, Step(cfg, log, o, op, env).op, stream)
  {
    ReplayOfStream(op.request.continuationId, stream);
  }

  lemma LostExpiryStep(cfg: Config, log: Log, o: nat, op: Op, env: Env, stream: seq<Event>)
    requires !op.request.Create? && stream == Stream(log, op.request.continuationId) && LostExpiry(op, stream)
    requires GoodStream(op.request.continuationId, stream)
    ensures LostExpiry(Step(cfg, log, o, op, env).op, stream)
  {
    ReplayOfStream(op.request.continuationId, stream);
  }

  ghost predicate Lost(cfg: Config, log: Log, op: Op, byAppend: bool) {
    !op.request.Create? &&
    var stream := Stream(log, op.request.continuationId);
    if byAppend then LostAppend(cfg, op, stream) else LostExpiry(op, stream)
  }

  lemma LostStep(cfg: Config, log: Log, o: nat, op: Op, env: Env, byAppend: bool)
    requires GoodLog(log) && Lost(cfg, log, op, byAppend)
    ensures Lost(cfg, log, Step(cfg, log, o, op, env).op, byAppend)
  {
    StepShape(cfg, log, o, op, env);
    var stream := Stream(log, op.request.continuationId);
    if byAppend {
      LostAppendStep(cfg, log, o, op, env, stream);
    } else {
      LostExpiryStep(cfg, log, o, op, env, stream);
    }
  }

  lemma LostLogStays(cfg: Config, s: State, a: Action, op: Op, byAppend: bool)
    requires Inv(cfg, s) && Lost(cfg, s.log, op, byAppend)
    ensures Lost(cfg, Apply(cfg, s, a).log, op, byAppend)
  {
    ApplyKeepsInv(cfg, s, a);
    var id := op.request.continuationId;
    PrefixOfGoodStream(id, Stream(s.log, id), Stream(Apply(cfg, s, a).log, id));
  }

  lemma LostApply(cfg: Config, s: State, a: Action, o: nat, byAppend: bool)
    requires Inv(cfg, s) && o in s.ops && Lost(cfg, s.log, s.ops[o], byAppend)
    ensures var s' := Apply(cfg, s, a);
      o in s'.ops && s'.ops[o].request == s.ops[o].request && Lost(cfg, s'.log, s'.ops[o], byAppend)
  {
    RequestNeverChanges(cfg, s, a, o);
    var next := if a.Advance? && a.o == o then Step(cfg, s.log, o, s.ops[o], a.env).op else s.ops[o];
    if a.Advance? && a.o == o {
      LostStep(cfg, s.log, o, s.ops[o], a.env, byAppend);
    }
    LostLogStays(cfg, s, a, next, byAppend);
    CrashStaysLost(cfg, Apply(cfg, s, a).log, next, byAppend);
    NextOp(cfg, s, a, o);
  }

  /** The state of one operation after an action, but for its own crash. */
  lemma NextOp(cfg: Config, s: State, a: Action, o: nat)
    requires o in s.ops
    ensures var next := if a.Advance? && a.o == o then Step(cfg, s.log, o, s.ops[o], a.env).op else s.ops[o];
      var after := Apply(cfg, s, a).ops[o];
      after == next || after == next.(pc := Crashed)
  {
  }

  lemma CrashStaysLost(cfg: Config, log: Log, op: Op, byAppend: bool)
    requires Lost(cfg, log, op, byAppend)
    ensures Lost(cfg, log, op.(pc := Crashed), byAppend)
  {
  }

  lemma LostStarts(cfg: Config, log: Log, op: Op)
    requires GoodLog(log) && OpFits(cfg, log, op) && !op.request.Create? && (op.pc.Reload? || op.pc.ReloadExpired?)
    ensures Lost(cfg, log, op, op.pc.Reload?)
  {
    assert GoodStream(op.request.continuationId, Stream(log, op.request.continuationId));
  }

  lemma {:induction false} LostStaysLost(cfg: Config, first: seq<Action>, more: seq<Action>, o: nat)
    requires o in Run(cfg, first).ops && !Run(cfg, first).ops[o].request.Create?
    requires Run(cfg, first).ops[o].pc.Reload? || Run(cfg, first).ops[o].pc.ReloadExpired?
    ensures var s := Run(cfg, first + more);
      o in s.ops && s.ops[o].request == Run(cfg, first).ops[o].request &&
      Lost(cfg, s.log, s.ops[o], Run(cfg, first).ops[o].pc.Reload?)
  {
    RunSplits(cfg, first, more);
    if more == [] {
      OpOf(cfg, first, o);
      LostStarts(cfg, Run(cfg, first).log, Run(cfg, first).ops[o]);
    } else {
      var init := more[..|more| - 1];
      LostStaysLost(cfg, first, init, o);
      RunKeepsInv(cfg, first + init);
      LostApply(cfg, Run(cfg, first + init), more[|more| - 1], o, Run(cfg, first).ops[o].pc.Reload?);
    }
  }

  /**
   * After a lost append, the answer is a function of the stream: whatever else happens, an operation that
   * has to reload ends with the answer its continuation's final event gives, unless a call of its own failed.
   */
  lemma LostRacesAreAnswered(cfg: Config, first: seq<Action>, more: seq<Action>, o: nat)
    requires o in Run(cfg, first).ops && !Run(cfg, first).ops[o].request.Create?
    requires Run(cfg, first).ops[o].pc.Reload? || Run(cfg, first).ops[o].pc.ReloadExpired?
    requires o in Run(cfg, first + more).ops && Run(cfg, first + more).ops[o].pc.Done?
    ensures var s := Run(cfg, first + more);
      var r := Run(cfg, first).ops[o].request;
      var stream := Stream(s.log, r.continuationId);
      s.ops[o].request == r && |stream| == 2 && LegalStream(stream) &&
      (s.ops[o].pc.outcome == Failure(StoreFailed) ==> MetFault(cfg, first + more, o)) &&
      (s.ops[o].pc.outcome != Failure(StoreFailed) ==>
        if Run(cfg, first).ops[o].pc.Reload? then
          (r.Resume? || r.Cancel?) && s.ops[o].pc.outcome == LostAppendAnswer(stream, r)
        else s.ops[o].pc.outcome == ClosedAnswer(stream, r))
  {
    LostStaysLost(cfg, first, more, o);
    if Run(cfg, first + more).ops[o].pc.outcome == Failure(StoreFailed) {
      FailuresHaveCauses(cfg, first + more, o, StoreFailed);
    }
  }

  ghost predicate ExactRetry(cfg: Config, r: Request, stream: seq<Event>)
    requires r.Resume?
  {
    |stream| == 2 && stream[1].WasResumed? && TokenFits(cfg, r, stream) &&
    stream[1].idempotencyKey == r.idempotencyKey &&
    CanonicalJson(stream[1].resumePayload) == CanonicalJson(r.resumePayload)
  }

  /** Outcomes that have to do with calls that failed, a missing continuation, or an event nobody could store. */
  ghost predicate Obstructed(op: Op, outcome: Result<Envelope>)
    requires !op.request.Create?
  {
    outcome.Failure? &&
    (outcome.error == StoreFailed || (outcome.error == NotFound(op.request.continuationId) && op.seen == []) ||
     (IsBatchRefusal(outcome.error) && |op.seen| < 2))
  }

  lemma OutcomeOf(cfg: Config, actions: seq<Action>, o: nat, outcome: Result<Envelope>)
    requires o in Run(cfg, actions).ops && Run(cfg, actions).ops[o].pc == Done(outcome)
    requires !Run(cfg, actions).ops[o].request.Create?
    ensures var s := Run(cfg, actions);
      var stream := Stream(s.log, s.ops[o].request.continuationId);
      OutcomeFits(cfg, s.ops[o], stream, outcome) && (stream != [] ==> LegalStream(stream))
  {
    OpOf(cfg, actions, o);
  }

  lemma ExactRetryOutcome(cfg: Config, op: Op, s: seq<Event>, outcome: Result<Envelope>)
    requires op.request.Resume? && ResumeOutcome(cfg, op, s, outcome)
    requires ExactRetry(cfg, op.request, s) && LegalStream(s) && !Obstructed(op, outcome)
    ensures outcome ==
      if ReadDue(op, s) then Failure(TokenAlreadyUsed(op.request.continuationId)) else Success(StateOf(s))
    ensures ReadDue(op, s) ==> |op.seen| < 2
  {
  }

  /**
   * A finished request identical to the winning resume is told that the token is already used exactly if
   * it read its clock at or past the deadline, which only a request that arrived before the commit can
   * have done, and is answered with the stored envelope exactly if it did not.
   */
  lemma ExactRetryIsRefusedExactlyWhenDue(cfg: Config, actions: seq<Action>, o: nat, outcome: Result<Envelope>)
    requires o in Run(cfg, actions).ops && Run(cfg, actions).ops[o].request.Resume?
    requires Run(cfg, actions).ops[o].pc == Done(outcome)
    requires var s := Run(cfg, actions);
      ExactRetry(cfg, s.ops[o].request, Stream(s.log, s.ops[o].request.continuationId))
    ensures var s := Run(cfg, actions);
      var op := s.ops[o];
      var stream := Stream(s.log, op.request.continuationId);
      LegalStream(stream) &&
      if Obstructed(op, outcome) then MetCause(cfg, actions, o, outcome.error)
      else
        (outcome == Success(StateOf(stream)) <==> !ReadDue(op, stream)) &&
        (outcome == Failure(TokenAlreadyUsed(op.request.continuationId)) <==> ReadDue(op, stream)) &&
        (ReadDue(op, stream) ==> |op.seen| < 2)
  {
    OutcomeOf(cfg, actions, o, outcome);
    var op := Run(cfg, actions).ops[o];
    if !Obstructed(op, outcome) {
      ExactRetryOutcome(cfg, op, Stream(Run(cfg, actions).log, op.request.continuationId), outcome);
    } else {
      FailuresHaveCauses(cfg, actions, o, outcome.error);
    }
  }

  // ---------------------------------------------------------------- clocks

  /**
   * A committed resume was preceded, in its own operation, by a clock reading before the deadline and a
   * matching token, and is stamped with its second reading, whatever that is; a committed cancellation is
   * stamped with its own reading, before the deadline; a committed expiry with its own reading, at or past it.
   */
  lemma CommitsRespectTheDeadline(cfg: Config, actions: seq<Action>, o: nat)
    requires o in Run(cfg, actions).ops && !Run(cfg, actions).ops[o].request.Create?
    requires Run(cfg, actions).ops[o].committed.Some?
    ensures var s := Run(cfg, actions);
      var op := s.ops[o];
      var stream := Stream(s.log, op.request.continuationId);
      |stream| == 2 && stream[0].WasCreated? && stream[1] == op.committed.value && op.reading.Some? &&
      (stream[1].WasResumed? ==>
        op.reading.value < stream[0].expiresAt && op.request.Resume? && TokenFits(cfg, op.request, stream) &&
        op.stamp == Some(stream[1].occurredAt)) &&
      (stream[1].WasCancelled? ==> op.reading.value == stream[1].occurredAt < stream[0].expiresAt) &&
      (stream[1].WasExpired? ==> op.reading.value == stream[1].occurredAt >= stream[0].expiresAt)
  {
    RunKeepsInv(cfg, actions);
  }

  // ---------------------------------------------------------------- create, inspect, cancel

  /**
   * A successful create returns the envelope of the first event of its stream, filled as requested and dated
   * with its reading, and a token whose hash that event carries.
   */
  lemma SuccessfulCreateOwnsItsStream(cfg: Config, actions: seq<Action>, o: nat, state: Envelope)
    requires o in Run(cfg, actions).ops && Run(cfg, actions).ops[o].request.Create?
    requires Run(cfg, actions).ops[o].pc == Done(Success(state))
    ensures var s := Run(cfg, actions);
      var r := s.ops[o].request;
      var stream := Stream(s.log, state.base.continuationId);
      IsPendingOf(stream, state) && s.ops[o].committed == Some(stream[0]) &&
      NamedAsAsked(cfg, r, state.base.continuationId, state.base.correlationId, state.base.createdAt,
                   state.base.expiresAt) &&
      state.base.payload == r.payload && state.base.metadata == r.metadata &&
      s.ops[o].reading == Some(state.base.createdAt) &&
      s.ops[o].token.Some? && stream[0].resumeTokenHash == cfg.hash(s.ops[o].token.value)
  {
    RunKeepsInv(cfg, actions);
    var s := Run(cfg, actions);
    assert CreateFits(cfg, s.log, s.ops[o]);
    var stream := Stream(s.log, state.base.continuationId);
    assert stream[..1] == [s.ops[o].committed.value];
  }

  /**
   * A finished create is refused for its deadline exactly if the deadline it asked for, or its clock reading
   * and the lifetime of a token if it asked for none, is not after that reading.
   */
  lemma CreateIsRefusedExactlyWhenTooLate(cfg: Config, actions: seq<Action>, o: nat, outcome: Result<Envelope>)
    requires o in Run(cfg, actions).ops && Run(cfg, actions).ops[o].request.Create?
    requires Run(cfg, actions).ops[o].pc == Done(outcome)
    ensures var op := Run(cfg, actions).ops[o];
      op.reading.Some? &&
      var now := op.reading.value;
      outcome == Failure(BadExpiry) <==>
        (if op.request.expiresAt.Some? then op.request.expiresAt.value else now + cfg.tokenTtl) <= now
  {
    RunKeepsInv(cfg, actions);
    assert CreateFits(cfg, Run(cfg, actions).log, Run(cfg, actions).ops[o]);
  }

  /**
   * A finished inspect returns the final envelope of its stream, or the pending one together with a
   * clock reading before the deadline; it reports a missing continuation only if there was none.
   */
  lemma InspectTellsTheTruth(cfg: Config, actions: seq<Action>, o: nat, outcome: Result<Envelope>)
    requires o in Run(cfg, actions).ops && Run(cfg, actions).ops[o].request.Inspect?
    requires Run(cfg, actions).ops[o].pc == Done(outcome)
    ensures var s := Run(cfg, actions);
      var op := s.ops[o];
      var stream := Stream(s.log, op.request.continuationId);
      if outcome.Success? && outcome.value.Pending? then
        IsPendingOf(stream, outcome.value) && op.reading.Some? && op.reading.value < outcome.value.base.expiresAt &&
        |op.seen| < 2
      else if outcome.Success? then ReplayContinuation(stream) == Success(Some(outcome.value))
      else Obstructed(op, outcome) && MetCause(cfg, actions, o, outcome.error)
  {
    OpOf(cfg, actions, o);
    var op := Run(cfg, actions).ops[o];
    InspectOutcomeMeans(op, Stream(Run(cfg, actions).log, op.request.continuationId), outcome);
    if outcome.Failure? {
      FailuresHaveCauses(cfg, actions, o, outcome.error);
    }
  }

  lemma InspectOutcomeMeans(op: Op, stream: seq<Event>, outcome: Result<Envelope>)
    requires op.request.Inspect? && GoodStream(op.request.continuationId, stream) && InspectOutcome(op, stream, outcome)
    ensures
      if outcome.Success? && outcome.value.Pending? then
        op.reading.Some? && op.reading.value < outcome.value.base.expiresAt
      else if outcome.Success? then ReplayContinuation(stream) == Success(Some(outcome.value))
      else Obstructed(op, outcome)
  {
    ReplayOfStream(op.request.continuationId, stream);
    if stream != [] { assert stream[..1][0] == stream[0]; }
  }

  /** Every successful cancel of a continuation, first or repeated, returns the one stored cancellation. */
  lemma SuccessfulCancelsAgree(cfg: Config, actions: seq<Action>, o: nat, state: Envelope)
    requires o in Run(cfg, actions).ops && Run(cfg, actions).ops[o].request.Cancel?
    requires Run(cfg, actions).ops[o].pc == Done(Success(state))
    ensures var s := Run(cfg, actions);
      var r := s.ops[o].request;
      ReplayContinuation(Stream(s.log, r.continuationId)) == Success(Some(state)) && state.Cancelled? &&
      state.reason == r.reason && (r.expectedVersion.None? || r.expectedVersion.value + 1 == state.base.version)
  {
    RunKeepsInv(cfg, actions);
    var op := Run(cfg, actions).ops[o];
    assert OpFits(cfg, Run(cfg, actions).log, op);
    ReplayOfStream(op.request.continuationId, Stream(Run(cfg, actions).log, op.request.continuationId));
  }

  // ---------------------------------------------------------------- progress

  function StepsLeft(pc: Pc): nat {
    match pc
    case Start => 9
    case IssueToken(_, _, _, _) => 8
    case CheckToken(_, _) => 8
    case AppendCreated(_) => 7
    case AppendExpired(_, _) => 7
    case ObserveExpired(_) => 6
    case ReloadExpired => 6
    case Settled(_) => 5
    case AppendTransition(_, _) => 4
    case Reload(_) => 3
    case RecheckToken(_, _, _) => 2
    case Observe(_) => 1
    case RejectToken => 1
    case Done(_) => 0
    case Crashed => 0
  }

  lemma CreateProgresses(cfg: Config, log: Log, o: nat, op: Op, env: Env)
    requires op.request.Create? && CreateFits(cfg, log, op) && !op.pc.Done? && !op.pc.Crashed?
    ensures StepsLeft(Step(cfg, log, o, op, env).op.pc) < StepsLeft(op.pc)
  {
    if op.pc.AppendCreated? {
      assert StepsLeft(AfterReduce(None, op.pc.event)) == 1;
    }
  }

  lemma AppendProgresses(cfg: Config, log: Log, o: nat, op: Op, env: Env)
    requires GoodLog(log) && OpFits(cfg, log, op) && !op.request.Create?
    requires op.pc.AppendExpired? || op.pc.AppendTransition?
    ensures StepsLeft(Step(cfg, log, o, op, env).op.pc) < StepsLeft(op.pc)
  {
    ClosingEvent(cfg, op, Stream(log, op.request.continuationId), op.pc.pending, op.pc.event);
  }

  lemma StartProgresses(cfg: Config, log: Log, op: Op, env: Env)
    ensures StepsLeft(StepStart(cfg, log, op, env).op.pc) <= 8
  {
  }

  lemma SettledProgresses(op: Op, env: Env, state: Envelope)
    requires !op.request.Create?
    ensures StepsLeft(StepSettled(op, state, env).op.pc) <= 4
  {
  }

  lemma ReloadProgresses(log: Log, op: Op, env: Env, conflict: Option<Error>)
    requires !op.request.Create?
    ensures StepsLeft(StepReload(log, op, env, conflict).op.pc) <= if conflict.Some? then 2 else 5
  {
  }

  lemma CheckProgresses(cfg: Config, op: Op, env: Env, state: Envelope, hash: Text, conflict: Option<Error>)
    requires op.request.Resume?
    ensures StepsLeft(StepCheckToken(cfg, op, state, hash, env, conflict).op.pc) <= if conflict.Some? then 1 else 7
  {
    var r := op.request;
    if !Fails(env.fault) && TokenHashesEqual(hash, cfg.hash(r.resumeToken)) {
      match ResolveCompletedResume(state, r.continuationId, r.idempotencyKey, r.resumePayload)
      case Completed(_) =>
      case Refuse(_) =>
      case Open =>
        assert StepsLeft(EnterExpiry(op, state, env.now).op.pc) <= 7;
    }
  }

  lemma StepProgresses(cfg: Config, log: Log, o: nat, op: Op, env: Env)
    requires GoodLog(log) && OpFits(cfg, log, op) && !op.pc.Done? && !op.pc.Crashed?
    ensures StepsLeft(Step(cfg, log, o, op, env).op.pc) < StepsLeft(op.pc)
  {
    if op.request.Create? {
      CreateProgresses(cfg, log, o, op, env);
    } else {
      match op.pc
      case Start => StartProgresses(cfg, log, op, env);
      case Settled(state) => SettledProgresses(op, env, state);
      case CheckToken(state, hash) => CheckProgresses(cfg, op, env, state, hash, None);
      case RecheckToken(state, hash, conflict) => CheckProgresses(cfg, op, env, state, hash, Some(conflict));
      case Reload(conflict) => ReloadProgresses(log, op, env, Some(conflict));
      case ReloadExpired => ReloadProgresses(log, op, env, None);
      case AppendExpired(_, _) => AppendProgresses(cfg, log, o, op, env);
      case AppendTransition(_, _) => AppendProgresses(cfg, log, o, op, env);
      case _ =>
    }
  }

  /**
   * No operation is ever blocked by the others: each of its own steps brings it closer to its outcome, and
   * none makes it crash, so any operation that keeps stepping finishes within nine steps.
   */
  lemma EveryStepProgresses(cfg: Config, actions: seq<Action>, o: nat, env: Env)
    requires o in Run(cfg, actions).ops
    requires !Run(cfg, actions).ops[o].pc.Done? && !Run(cfg, actions).ops[o].pc.Crashed?
    ensures StepsLeft(Apply(cfg, Run(cfg, actions), Advance(o, env)).ops[o].pc) <
            StepsLeft(Run(cfg, actions).ops[o].pc) <= 9
    ensures !Apply(cfg, Run(cfg, actions), Advance(o, env)).ops[o].pc.Crashed?
  {
    RunKeepsInv(cfg, actions);
    StepShape(cfg, Run(cfg, actions).log, o, Run(cfg, actions).ops[o], env);
    StepProgresses(cfg, Run(cfg, actions).log, o, Run(cfg, actions).ops[o], env);
  }
}
