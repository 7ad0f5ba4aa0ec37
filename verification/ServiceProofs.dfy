/** Proof that every step of the service keeps the invariant, and so every run does. */
module ServiceProofs {
  import opened Domain
  import opened EventLog
  import opened Service
  import opened ServiceInvariants

  // ---------------------------------------------------------------- streams

  lemma PrefixOfGoodStream(id: Id, s: seq<Event>, t: seq<Event>)
    requires GoodStream(id, s) && GoodStream(id, t) && s <= t
    ensures |s| == 2 ==> s == t
    ensures s != [] ==> s[0] == t[0] && s[..1] == t[..1]
  {
  }

  lemma ClosingKeepsGoodStream(cfg: Config, op: Op, id: Id, s: seq<Event>, e: Event)
    requires !op.request.Create? && op.request.continuationId == id
    requires GoodStream(id, s) && |s| == 1 && MayOffer(cfg, op, s, e) && Storable(e)
    ensures GoodStream(id, s + [e])
  {
    var t := s + [e];
    assert t[0] == s[0] && t[1] == e;
  }

  /** The event appended by one step, and the log after it. */
  function After(log: Log, e: Effect): Log {
    if e.append.Some? then Extend(log, e.append.value.continuationId, [e.append.value]) else log
  }

  lemma StoredEventIsStorable(log: Log, id: Id, expected: int, e: Event)
    requires CompareAndAppend(log, id, expected, [e]).Stored?
    ensures |Stream(log, id)| == expected && ContinuesStream(id, expected, [e]) && Storable(e)
  {
    BatchPassesExactly(id, expected, [e]);
    assert [e][0] == e;
  }

  /** A refused append of a fitting event either lost its race or broke the stored-event schema. */
  lemma RefusedAppend(log: Log, id: Id, expected: int, e: Event)
    requires CompareAndAppend(log, id, expected, [e]).Refused?
    requires e.continuationId == id && e.version == expected + 1
    ensures var error := CompareAndAppend(log, id, expected, [e]).error;
      if |Stream(log, id)| != expected then error == VersionConflict(id, expected, |Stream(log, id)|)
      else error == BadEvent && !Storable(e)
  {
    assert [e][1..] == [];
    assert BatchError(id, expected, [e]) == if Storable(e) then BatchError(id, expected + 1, []) else Some(BadEvent);
  }

  // ---------------------------------------------------------------- what others may do to the log

  lemma GrowthKeepsOp(cfg: Config, log: Log, log': Log, op: Op)
    requires GoodLog(log) && GoodLog(log') && Grows(log, log') && OpFits(cfg, log, op)
    ensures OpFits(cfg, log', op)
  {
    if op.request.Create? {
      if op.committed.Some? {
        var id := op.committed.value.continuationId;
        PrefixOfGoodStream(id, Stream(log, id), Stream(log', id));
      }
      if op.pc.Done? && op.pc.outcome.Failure? && op.pc.outcome.error.VersionConflict? {
        var id := op.pc.outcome.error.id;
        PrefixOfGoodStream(id, Stream(log, id), Stream(log', id));
      }
    } else {
      var id := op.request.continuationId;
      PrefixOfGoodStream(id, Stream(log, id), Stream(log', id));
      if |Stream(log, id)| < 2 {
        GrowthKeepsOpenStream(cfg, op, Stream(log, id), Stream(log', id));
      }
    }
  }

  lemma GrowthKeepsOpenStream(cfg: Config, op: Op, s: seq<Event>, t: seq<Event>)
    requires !op.request.Create? && PcFits(cfg, op, s) && |s| < 2 && s <= t
    requires GoodStream(op.request.continuationId, s) && GoodStream(op.request.continuationId, t)
    ensures PcFits(cfg, op, t)
  {
    if s != [] {
      assert s[0] == t[0] && s[..1] == t[..1];
    }
  }

  // ---------------------------------------------------------------- create

  lemma StoredCreationFits(cfg: Config, log: Log, op: Op, event: Event, pc: Pc)
    requires GoodLog(log) && op.request.Create? && IsNewEvent(cfg, op, event)
    requires CompareAndAppend(log, event.continuationId, 0, [event]).Stored?
    requires pc == Done(Failure(StoreFailed)) || pc == AfterReduce(None, event)
    ensures var log' := Extend(log, event.continuationId, [event]);
      GoodLog(log') && CreateFits(cfg, log', op.(committed := Some(event), pc := pc))
  {
    StoredEventIsStorable(log, event.continuationId, 0, event);
    assert Stream(Extend(log, event.continuationId, [event]), event.continuationId) == [event];
    assert StateOf([event]) == ReduceContinuation(None, event).value;
  }

  lemma CreatedFits(cfg: Config, log: Log, op: Op, event: Event, env: Env, e: Effect)
    requires GoodLog(log) && op.request.Create? && op.committed.None? && IsNewEvent(cfg, op, event)
    requires e == Append(log, op, event, 0, env,
      Done(Failure(VersionConflict(event.continuationId, 0, |Stream(log, event.continuationId)|))),
      AfterReduce(None, event))
    ensures GoodLog(After(log, e)) && CreateFits(cfg, After(log, e), e.op)
  {
    var id := event.continuationId;
    if CompareAndAppend(log, id, 0, [event]).Refused? {
      RefusedAppend(log, id, 0, event);
    } else if e.append.Some? {
      StoredCreationFits(cfg, log, op, event, e.op.pc);
      assert e.op == op.(committed := Some(event), pc := e.op.pc);
    }
  }

  lemma CreateStepFits(cfg: Config, log: Log, o: nat, op: Op, env: Env)
    requires GoodLog(log) && op.request.Create? && CreateFits(cfg, log, op)
    ensures var e := Step(cfg, log, o, op, env);
      GoodLog(After(log, e)) && CreateFits(cfg, After(log, e), e.op) && e.op.request == op.request
  {
    if op.pc.AppendCreated? {
      CreatedFits(cfg, log, op, op.pc.event, env, Step(cfg, log, o, op, env));
    }
  }

  // ---------------------------------------------------------------- steps that only read

  /** The step appends nothing and leaves the operation's identity and history alone. */
  ghost predicate OnlyMoves(op: Op, e: Effect) {
    e.append.None? && e.op.request == op.request && e.op.seen == op.seen && e.op.committed == op.committed &&
    (op.committed.Some? ==> e.op.reading == op.reading && e.op.stamp == op.stamp)
  }

  lemma ReplayOfStream(id: Id, s: seq<Event>)
    requires GoodStream(id, s)
    ensures s == [] ==> ReplayContinuation(s) == Success(None)
    ensures s != [] ==> ReplayContinuation(s) == Success(Some(StateOf(s)))
    ensures |s| == 1 ==> IsPendingOf(s, StateOf(s))
    ensures |s| == 2 ==> IsFinalOf(s, StateOf(s)) && !StateOf(s).Pending?
  {
    ReplayAcceptsLegalStreams(s);
    if |s| == 1 { assert s[..1] == s; }
  }

  lemma EnterExpiryFits(cfg: Config, id: Id, s: seq<Event>, op: Op, state: Envelope, now: Time)
    requires !op.request.Create? && op.request.continuationId == id && GoodStream(id, s) && op.committed.None?
    requires IsFinalOf(s, state) || (IsPendingOf(s, state) && |op.seen| < 2)
    requires op.request.Resume? ==> TokenFits(cfg, op.request, s) && !state.Resumed?
    ensures var e := EnterExpiry(op, state, now); OnlyMoves(op, e) && PcFits(cfg, e.op, s)
  {
    if IsPendingOf(s, state) {
      assert s[..1][0] == s[0];
    }
  }

  lemma ResolvedCancellationFits(op: Op, s: seq<Event>, state: Envelope)
    requires op.request.Cancel? && IsFinalOf(s, state) && state.Cancelled?
    ensures CancelOutcome(op, s,
      ResolveCompletedCancellation(state, op.request.continuationId, op.request.expectedVersion, op.request.reason))
  {
  }

  lemma StartFits(cfg: Config, log: Log, op: Op, env: Env, s: seq<Event>)
    requires !op.request.Create? && op.committed.None? && s == Stream(log, op.request.continuationId)
    requires GoodStream(op.request.continuationId, s) && op.seen <= s && op.reading.None?
    ensures var e := StepStart(cfg, log, op, env); OnlyMoves(op, e) && PcFits(cfg, e.op, s)
  {
    var id := op.request.continuationId;
    ReplayOfStream(id, s);
    if !Fails(env.fault) && s != [] {
      var state := StateOf(s);
      if op.request.Inspect? || (op.request.Cancel? && !state.Cancelled?) {
        EnterExpiryFits(cfg, id, s, op, state, env.now);
      } else if op.request.Cancel? {
        ResolvedCancellationFits(op, s, state);
      }
    }
  }

  lemma ResolvedResumeFits(cfg: Config, op: Op, s: seq<Event>, state: Envelope)
    requires op.request.Resume? && IsFinalOf(s, state) && TokenFits(cfg, op.request, s) && !ReadDue(op, s)
    ensures var r := op.request;
      match ResolveCompletedResume(state, r.continuationId, r.idempotencyKey, r.resumePayload)
      case Open => !state.Resumed?
      case Completed(envelope) => ResumeSucceeds(cfg, r, s, envelope) && !ReadDue(op, s)
      case Refuse(e) => ResumeFails(cfg, op, s, e)
  {
  }

  lemma CheckTokenFits(cfg: Config, op: Op, env: Env, s: seq<Event>, state: Envelope)
    requires op.request.Resume? && op.committed.None? && GoodStream(op.request.continuationId, s) && s != []
    requires op.reading.None? && (IsFinalOf(s, state) || (IsPendingOf(s, state) && |op.seen| < 2))
    ensures var e := StepCheckToken(cfg, op, state, s[0].resumeTokenHash, env, None);
      OnlyMoves(op, e) && PcFits(cfg, e.op, s)
  {
    var r := op.request;
    if !Fails(env.fault) && TokenFits(cfg, r, s) {
      if state.Pending? || ResolveCompletedResume(state, r.continuationId, r.idempotencyKey, r.resumePayload).Open? {
        EnterExpiryFits(cfg, r.continuationId, s, op, state, env.now);
      } else {
        ResolvedResumeFits(cfg, op, s, state);
      }
    }
  }

  lemma RecheckTokenFits(cfg: Config, op: Op, env: Env, s: seq<Event>, state: Envelope, conflict: Error)
    requires op.request.Resume? && op.committed.None? && IsFinalOf(s, state)
    requires conflict == VersionConflict(op.request.continuationId, 1, 2) && ReadBefore(op, s) && |op.seen| < 2
    ensures var e := StepCheckToken(cfg, op, state, s[0].resumeTokenHash, env, Some(conflict));
      OnlyMoves(op, e) && PcFits(cfg, e.op, s)
  {
    if TokenFits(cfg, op.request, s) {
      ResolvedResumeFits(cfg, op, s, state);
    }
  }

  lemma SettledInspectFits(cfg: Config, op: Op, env: Env, s: seq<Event>, state: Envelope)
    requires op.request.Inspect? && PcFits(cfg, op, s) && op.pc == Settled(state)
    ensures var e := StepSettled(op, state, env); OnlyMoves(op, e) && PcFits(cfg, e.op, s)
  {
  }

  lemma SettledResumeFits(cfg: Config, op: Op, env: Env, s: seq<Event>, state: Envelope)
    requires op.request.Resume? && PcFits(cfg, op, s) && op.pc == Settled(state)
    requires GoodStream(op.request.continuationId, s)
    ensures var e := StepSettled(op, state, env); OnlyMoves(op, e) && PcFits(cfg, e.op, s)
  {
    if state.Pending? {
      assert s[..1][0] == s[0];
    }
  }

  lemma SettledCancelFits(cfg: Config, op: Op, env: Env, s: seq<Event>, state: Envelope)
    requires op.request.Cancel? && PcFits(cfg, op, s) && op.pc == Settled(state)
    requires GoodStream(op.request.continuationId, s)
    ensures var e := StepSettled(op, state, env); OnlyMoves(op, e) && PcFits(cfg, e.op, s)
  {
    if state.Pending? {
      assert s[..1][0] == s[0];
    } else if state.Cancelled? {
      ResolvedCancellationFits(op, s, state);
    }
  }

  lemma ReloadExpiredFits(cfg: Config, log: Log, op: Op, env: Env, s: seq<Event>)
    requires !op.request.Create? && s == Stream(log, op.request.continuationId)
    requires GoodStream(op.request.continuationId, s) && op.pc.ReloadExpired? && PcFits(cfg, op, s)
    ensures var e := StepReload(log, op, env, None); OnlyMoves(op, e) && PcFits(cfg, e.op, s)
  {
    ReplayOfStream(op.request.continuationId, s);
  }

  lemma ReloadResumeFits(cfg: Config, log: Log, op: Op, env: Env, s: seq<Event>)
    requires op.request.Resume? && s == Stream(log, op.request.continuationId)
    requires GoodStream(op.request.continuationId, s) && op.pc.Reload? && PcFits(cfg, op, s)
    ensures var e := StepReload(log, op, env, Some(op.pc.conflict)); OnlyMoves(op, e) && PcFits(cfg, e.op, s)
  {
    ReplayOfStream(op.request.continuationId, s);
  }

  lemma ReloadCancelFits(cfg: Config, log: Log, op: Op, env: Env, s: seq<Event>)
    requires op.request.Cancel? && s == Stream(log, op.request.continuationId)
    requires GoodStream(op.request.continuationId, s) && op.pc.Reload? && PcFits(cfg, op, s)
    ensures var e := StepReload(log, op, env, Some(op.pc.conflict)); OnlyMoves(op, e) && PcFits(cfg, e.op, s)
  {
    ReplayOfStream(op.request.continuationId, s);
    if StateOf(s).Cancelled? {
      ResolvedCancellationFits(op, s, StateOf(s));
    }
  }

  lemma MovedOpFits(cfg: Config, log: Log, op: Op, e: Effect)
    requires !op.request.Create? && OpFits(cfg, log, op) && OnlyMoves(op, e)
    requires PcFits(cfg, e.op, Stream(log, op.request.continuationId))
    ensures OpFits(cfg, log, e.op)
  {
  }

  // ---------------------------------------------------------------- the two appends

  lemma ClosingEvent(cfg: Config, op: Op, s: seq<Event>, pending: Envelope, event: Event)
    requires !op.request.Create? && GoodStream(op.request.continuationId, s) && IsPendingOf(s, pending)
    requires MayOffer(cfg, op, s, event)
    ensures pending.base.version == 1 && event.version == 2 && event.continuationId == op.request.continuationId
    ensures |s| == 1 ==>
      LegalStream(s + [event]) && ReduceContinuation(Some(pending), event) == Success(StateOf(s + [event]))
  {
    assert s[..1][0] == s[0];
    if |s| == 1 {
      var t := s + [event];
      assert t[0] == s[0] && t[1] == event;
    }
  }

  lemma CommittedFits(cfg: Config, op: Op, s: seq<Event>, event: Event, pc: Pc)
    requires !op.request.Create? && GoodStream(op.request.continuationId, s) && |s| == 1
    requires MayOffer(cfg, op, s, event) && op.seen <= s && (op.request.Resume? ==> TokenFits(cfg, op.request, s))
    requires GoodStream(op.request.continuationId, s + [event])
    requires pc == Done(Failure(StoreFailed)) ||
      pc == (if event.WasExpired? then ObserveExpired(StateOf(s + [event])) else Observe(StateOf(s + [event])))
    ensures var t := s + [event];
      var next := op.(committed := Some(event), pc := pc);
      next.seen <= t && t[1] == event && MayOffer(cfg, next, t, t[1]) && PcFits(cfg, next, t)
  {
    var t := s + [event];
    assert t[0] == s[0] && t[1] == event;
  }

  predicate RefusedAnyway(env: Env) { env.fault.FailsBefore? || env.fault.BoundExceeded? }

  function Reduced(s: seq<Event>, pending: Envelope, event: Event): Pc {
    if event.WasExpired? && |s| == 1 && LegalStream(s + [event]) then ObserveExpired(StateOf(s + [event]))
    else AfterReduce(Some(pending), event)
  }

  lemma StoredAppendFits(
    cfg: Config, log: Log, op: Op, env: Env, s: seq<Event>, pending: Envelope, event: Event, onConflict: Pc)
    requires GoodLog(log) && !op.request.Create? && s == Stream(log, op.request.continuationId) && op.committed.None?
    requires IsPendingOf(s, pending) && MayOffer(cfg, op, s, event) && op.seen <= s
    requires op.request.Resume? ==> TokenFits(cfg, op.request, s)
    requires CompareAndAppend(log, op.request.continuationId, 1, [event]).Stored? && !RefusedAnyway(env)
    ensures var e := Append(log, op, event, 1, env, onConflict, Reduced(s, pending, event));
      GoodLog(After(log, e)) && OpFits(cfg, After(log, e), e.op)
  {
    var id := op.request.continuationId;
    ClosingEvent(cfg, op, s, pending, event);
    StoredEventIsStorable(log, id, 1, event);
    ClosingKeepsGoodStream(cfg, op, id, s, event);
    var e := Append(log, op, event, 1, env, onConflict, Reduced(s, pending, event));
    assert Stream(After(log, e), id) == s + [event];
    CommittedFits(cfg, op, s, event, e.op.pc);
  }

  /** An append that does not go through ends the operation with a refusal, or finds the stream closed. */
  lemma RefusedAppendMoves(
    log: Log, op: Op, env: Env, s: seq<Event>, id: Id, event: Event, onConflict: Pc, onCommit: Pc)
    requires s == Stream(log, id) && GoodStream(id, s) && s != []
    requires event.continuationId == id && event.version == 2
    requires CompareAndAppend(log, id, 1, [event]).Refused? || RefusedAnyway(env)
    ensures var e := Append(log, op, event, 1, env, onConflict, onCommit);
      (e == Goto(op, onConflict) && |s| == 2) || e == Finish(op, Failure(StoreFailed)) ||
      e == Finish(op, Failure(BadEvent)) || e == Finish(op, Failure(StreamTooLarge))
  {
    if CompareAndAppend(log, id, 1, [event]).Refused? {
      RefusedAppend(log, id, 1, event);
    }
  }

  lemma RefusalFits(cfg: Config, op: Op, s: seq<Event>, e: Error)
    requires !op.request.Create? && |op.seen| < 2 && (e == StoreFailed || IsBatchRefusal(e))
    ensures OutcomeFits(cfg, op, s, Failure(e))
  {
  }

  lemma RefusedAppendFits(
    cfg: Config, log: Log, op: Op, env: Env, s: seq<Event>, pending: Envelope, event: Event, onConflict: Pc)
    requires GoodLog(log) && !op.request.Create? && s == Stream(log, op.request.continuationId) && op.committed.None?
    requires IsPendingOf(s, pending) && MayOffer(cfg, op, s, event) && op.seen <= s && |op.seen| < 2
    requires |s| == 2 ==> PcFits(cfg, op.(pc := onConflict), s)
    requires CompareAndAppend(log, op.request.continuationId, 1, [event]).Refused? || RefusedAnyway(env)
    ensures var e := Append(log, op, event, 1, env, onConflict, Reduced(s, pending, event));
      e.append.None? && OpFits(cfg, log, e.op)
  {
    ClosingEvent(cfg, op, s, pending, event);
    RefusedAppendMoves(log, op, env, s, op.request.continuationId, event, onConflict, Reduced(s, pending, event));
    var e := Append(log, op, event, 1, env, onConflict, Reduced(s, pending, event));
    if e.op.pc.Done? && e.op == op.(pc := e.op.pc) && e.op.pc.outcome.Failure? {
      if e.op.pc.outcome.error == StoreFailed || IsBatchRefusal(e.op.pc.outcome.error) {
        RefusalFits(cfg, e.op, s, e.op.pc.outcome.error);
      }
    }
  }

  lemma AppendStepFits(
    cfg: Config, log: Log, op: Op, env: Env, s: seq<Event>, pending: Envelope, event: Event, onConflict: Pc)
    requires GoodLog(log) && !op.request.Create? && s == Stream(log, op.request.continuationId) && op.committed.None?
    requires IsPendingOf(s, pending) && MayOffer(cfg, op, s, event) && op.seen <= s && |op.seen| < 2
    requires op.request.Resume? ==> TokenFits(cfg, op.request, s)
    requires |s| == 2 ==> PcFits(cfg, op.(pc := onConflict), s)
    ensures var e := Append(log, op, event, 1, env, onConflict, Reduced(s, pending, event));
      GoodLog(After(log, e)) && OpFits(cfg, After(log, e), e.op)
  {
    if CompareAndAppend(log, op.request.continuationId, 1, [event]).Stored? && !RefusedAnyway(env) {
      StoredAppendFits(cfg, log, op, env, s, pending, event, onConflict);
    } else {
      RefusedAppendFits(cfg, log, op, env, s, pending, event, onConflict);
    }
  }

  // ---------------------------------------------------------------- any step

  lemma StartStepFits(cfg: Config, log: Log, o: nat, op: Op, env: Env)
    requires GoodLog(log) && !op.request.Create? && OpFits(cfg, log, op) && op.pc.Start?
    ensures var e := Step(cfg, log, o, op, env); e.append.None? && OpFits(cfg, log, e.op)
  {
    var s := Stream(log, op.request.continuationId);
    StartFits(cfg, log, op, env, s);
    MovedOpFits(cfg, log, op, StepStart(cfg, log, op, env));
  }

  lemma CheckTokenStepFits(cfg: Config, log: Log, o: nat, op: Op, env: Env)
    requires GoodLog(log) && !op.request.Create? && OpFits(cfg, log, op) && op.pc.CheckToken?
    ensures var e := Step(cfg, log, o, op, env); e.append.None? && OpFits(cfg, log, e.op)
  {
    var s := Stream(log, op.request.continuationId);
    CheckTokenFits(cfg, op, env, s, op.pc.loaded);
    MovedOpFits(cfg, log, op, StepCheckToken(cfg, op, op.pc.loaded, s[0].resumeTokenHash, env, None));
  }

  lemma SettledStepFits(cfg: Config, log: Log, o: nat, op: Op, env: Env)
    requires GoodLog(log) && !op.request.Create? && OpFits(cfg, log, op) && op.pc.Settled?
    ensures var e := Step(cfg, log, o, op, env); e.append.None? && OpFits(cfg, log, e.op)
  {
    var s := Stream(log, op.request.continuationId);
    var state := op.pc.current;
    if op.request.Inspect? {
      SettledInspectFits(cfg, op, env, s, state);
    } else if op.request.Resume? {
      SettledResumeFits(cfg, op, env, s, state);
    } else {
      SettledCancelFits(cfg, op, env, s, state);
    }
    MovedOpFits(cfg, log, op, StepSettled(op, state, env));
  }

  lemma ReloadStepFits(cfg: Config, log: Log, o: nat, op: Op, env: Env)
    requires GoodLog(log) && !op.request.Create? && OpFits(cfg, log, op) && (op.pc.ReloadExpired? || op.pc.Reload?)
    ensures var e := Step(cfg, log, o, op, env); e.append.None? && OpFits(cfg, log, e.op)
  {
    var s := Stream(log, op.request.continuationId);
    if op.pc.Reload? {
      if op.request.Resume? {
        ReloadResumeFits(cfg, log, op, env, s);
      } else {
        ReloadCancelFits(cfg, log, op, env, s);
      }
      MovedOpFits(cfg, log, op, StepReload(log, op, env, Some(op.pc.conflict)));
    } else {
      ReloadExpiredFits(cfg, log, op, env, s);
      MovedOpFits(cfg, log, op, StepReload(log, op, env, None));
    }
  }

  lemma RecheckTokenStepFits(cfg: Config, log: Log, o: nat, op: Op, env: Env)
    requires GoodLog(log) && !op.request.Create? && OpFits(cfg, log, op) && op.pc.RecheckToken?
    ensures var e := Step(cfg, log, o, op, env); e.append.None? && OpFits(cfg, log, e.op)
  {
    var s := Stream(log, op.request.continuationId);
    var state, conflict := op.pc.loaded, op.pc.conflict;
    RecheckTokenFits(cfg, op, env, s, state, conflict);
    MovedOpFits(cfg, log, op, StepCheckToken(cfg, op, state, s[0].resumeTokenHash, env, Some(conflict)));
  }

  lemma ObservingStepFits(cfg: Config, log: Log, o: nat, op: Op, env: Env)
    requires GoodLog(log) && !op.request.Create? && OpFits(cfg, log, op)
    requires op.pc.RejectToken? || op.pc.ObserveExpired? || op.pc.Observe? || op.pc.Done? || op.pc.Crashed?
    ensures var e := Step(cfg, log, o, op, env); e.append.None? && OpFits(cfg, log, e.op)
  {
    var s := Stream(log, op.request.continuationId);
    var e := Step(cfg, log, o, op, env);
    assert OnlyMoves(op, e);
    ObservedFits(cfg, log, o, op, env, s);
    MovedOpFits(cfg, log, op, e);
  }

  lemma ObservedFits(cfg: Config, log: Log, o: nat, op: Op, env: Env, s: seq<Event>)
    requires !op.request.Create? && GoodStream(op.request.continuationId, s) && PcFits(cfg, op, s)
    requires op.committed.Some? ==> |s| == 2 && MayOffer(cfg, op, s, s[1])
    requires op.pc.RejectToken? || op.pc.ObserveExpired? || op.pc.Observe? || op.pc.Done? || op.pc.Crashed?
    ensures PcFits(cfg, Step(cfg, log, o, op, env).op, s)
  {
    match op.pc
    case Observe(_) =>
    case ObserveExpired(_) =>
    case RejectToken =>
    case _ =>
  }

  lemma AppendExpiredStepFits(cfg: Config, log: Log, o: nat, op: Op, env: Env)
    requires GoodLog(log) && !op.request.Create? && OpFits(cfg, log, op) && op.pc.AppendExpired?
    ensures var e := Step(cfg, log, o, op, env); GoodLog(After(log, e)) && OpFits(cfg, After(log, e), e.op)
  {
    var s := Stream(log, op.request.continuationId);
    ClosingEvent(cfg, op, s, op.pc.pending, op.pc.event);
    ConflictedExpiry(cfg, op, s);
    AppendStepFits(cfg, log, op, env, s, op.pc.pending, op.pc.event, ReloadExpired);
    ExpiryAppends(cfg, log, o, op, env, s);
  }

  /** The expiry's append, when the stream is open; a closed one answers with a conflict. */
  lemma ExpiryAppends(cfg: Config, log: Log, o: nat, op: Op, env: Env, s: seq<Event>)
    requires !op.request.Create? && op.pc.AppendExpired? && s == Stream(log, op.request.continuationId)
    requires op.pc.pending.base.version == 1 && op.pc.event.WasExpired? && op.pc.event.version == 2
    requires op.pc.event.continuationId == op.request.continuationId && GoodStream(op.request.continuationId, s)
    requires s != [] && (|s| == 1 ==>
      LegalStream(s + [op.pc.event]) &&
      ReduceContinuation(Some(op.pc.pending), op.pc.event) == Success(StateOf(s + [op.pc.event])))
    ensures Step(cfg, log, o, op, env) ==
      Append(log, op, op.pc.event, 1, env, ReloadExpired, Reduced(s, op.pc.pending, op.pc.event))
  {
    if |s| == 2 {
      assert CompareAndAppend(log, op.request.continuationId, 1, [op.pc.event]).Refused?;
    }
  }

  lemma ConflictedExpiry(cfg: Config, op: Op, s: seq<Event>)
    requires !op.request.Create? && op.pc.AppendExpired? && PcFits(cfg, op, s)
    ensures |s| == 2 ==> PcFits(cfg, op.(pc := ReloadExpired), s)
  {
  }

  lemma AppendTransitionStepFits(cfg: Config, log: Log, o: nat, op: Op, env: Env)
    requires GoodLog(log) && !op.request.Create? && OpFits(cfg, log, op) && op.pc.AppendTransition?
    ensures var e := Step(cfg, log, o, op, env); GoodLog(After(log, e)) && OpFits(cfg, After(log, e), e.op)
  {
    var s := Stream(log, op.request.continuationId);
    ClosingEvent(cfg, op, s, op.pc.pending, op.pc.event);
    AppendStepFits(cfg, log, op, env, s, op.pc.pending, op.pc.event,
      Reload(VersionConflict(op.request.continuationId, 1, |s|)));
  }

  lemma LoadingStepFits(cfg: Config, log: Log, o: nat, op: Op, env: Env)
    requires GoodLog(log) && !op.request.Create? && OpFits(cfg, log, op)
    requires op.pc.Start? || op.pc.ReloadExpired? || op.pc.Reload?
    ensures var e := Step(cfg, log, o, op, env); e.append.None? && OpFits(cfg, log, e.op)
  {
    if op.pc.Start? {
      StartStepFits(cfg, log, o, op, env);
    } else {
      ReloadStepFits(cfg, log, o, op, env);
    }
  }

  lemma DecidingStepFits(cfg: Config, log: Log, o: nat, op: Op, env: Env)
    requires GoodLog(log) && !op.request.Create? && OpFits(cfg, log, op)
    requires op.pc.CheckToken? || op.pc.RecheckToken? || op.pc.Settled?
    ensures var e := Step(cfg, log, o, op, env); e.append.None? && OpFits(cfg, log, e.op)
  {
    if op.pc.CheckToken? {
      CheckTokenStepFits(cfg, log, o, op, env);
    } else if op.pc.RecheckToken? {
      RecheckTokenStepFits(cfg, log, o, op, env);
    } else {
      SettledStepFits(cfg, log, o, op, env);
    }
  }

  lemma OnlyCreatesIssue(cfg: Config, log: Log, op: Op)
    requires !op.request.Create? && OpFits(cfg, log, op)
    ensures !op.pc.IssueToken? && !op.pc.AppendCreated?
  {
  }

  /** One step of one operation keeps the log good and the operation accounted for. */
  lemma StepFits(cfg: Config, log: Log, o: nat, op: Op, env: Env)
    requires GoodLog(log) && OpFits(cfg, log, op)
    ensures var e := Step(cfg, log, o, op, env); GoodLog(After(log, e)) && OpFits(cfg, After(log, e), e.op)
  {
    if op.request.Create? {
      CreateStepFits(cfg, log, o, op, env);
    } else if op.pc.AppendExpired? {
      AppendExpiredStepFits(cfg, log, o, op, env);
    } else if op.pc.AppendTransition? {
      AppendTransitionStepFits(cfg, log, o, op, env);
    } else if op.pc.Start? || op.pc.ReloadExpired? || op.pc.Reload? {
      LoadingStepFits(cfg, log, o, op, env);
    } else if op.pc.CheckToken? || op.pc.RecheckToken? || op.pc.Settled? {
      DecidingStepFits(cfg, log, o, op, env);
    } else {
      OnlyCreatesIssue(cfg, log, op);
      ObservingStepFits(cfg, log, o, op, env);
    }
  }
}
