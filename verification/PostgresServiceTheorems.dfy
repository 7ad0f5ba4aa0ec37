/** The guarantees of the service, stated of its operations, the PostgreSQL tables and the rows that loads return. */
module PostgresServiceTheorems {
  import opened Domain
  import opened EventLog
  import P = PostgresAppend
  import L = PostgresLoad
  import S = Service
  import I = ServiceInvariants
  import Proofs = ServiceProofs
  import T = ServiceTheorems
  import opened PostgresService
  import opened PostgresServiceProofs

  /** The operation in the contract's run is the one here, past its append as soon as that is decided. */
  lemma ContractOp(setup: Setup, actions: seq<Action>, o: nat)
    requires setup.maxEvents <= MAX_SAFE && o in Run(setup, actions).ops
    ensures var r := S.Run(setup.cfg, VisibleRun(setup, actions));
      o in r.ops && r.ops[o] == AbstractOp(Run(setup, actions), o) && r.log == LogNow(Run(setup, actions))
  {
    RunRefines(setup, actions);
    assert Abstract(Run(setup, actions)).ops[o] == AbstractOp(Run(setup, actions), o);
  }

  // ---------------------------------------------------------------- what callers are told

  /** The caller was told of a failure, and the server has not decided about the COMMIT. */
  ghost predicate InDoubtFor(s: State, o: nat) { o in s.told && Awaits(s, o) && s.pg.txs[s.calls[o]].pc.InDoubt? }

  /** A reported failure is what the transaction comes to, for its caller. */
  ghost predicate ToldFits(s: State, o: nat) {
    Awaits(s, o) &&
    var tx := s.pg.txs[s.calls[o]];
    tx.pc.InDoubt? || (Decided(tx) && ReplyOf(tx) == P.Failed(StoreFailed))
  }

  lemma DoubtEndsAsTold(maxEvents: int, s: P.State, t: P.TxId, a: P.Action)
    requires t in s.txs && s.txs[t].pc.InDoubt?
    ensures var s' := P.Apply(maxEvents, s, a);
      t in s'.txs && (s'.txs[t].pc.InDoubt? || (Decided(s'.txs[t]) && ReplyOf(s'.txs[t]) == P.Failed(StoreFailed)))
  {
    if a.t != t { OthersStay(maxEvents, s, t, a); }
  }

  lemma ToldStays(setup: Setup, s: State, a: Action, o: nat)
    requires o in s.told && ToldFits(s, o)
    ensures ToldFits(Apply(setup, s, a), o)
  {
    var t := s.calls[o];
    match a
    case Database(b) =>
      if !b.Call? {
        if s.pg.txs[t].pc.InDoubt? {
          DoubtEndsAsTold(setup.maxEvents, s.pg, t, b);
        } else if b.t == t {
          DecidedStays(setup.maxEvents, s.pg, t, b);
        } else {
          OthersStay(setup.maxEvents, s.pg, t, b);
        }
      }
    case Send(p, u) =>
      if Sends(s, p, u) {
        var event := s.ops[p].pc.event;
        OthersStay(setup.maxEvents, s.pg, t,
                   P.Call(u, event.continuationId, S.ExpectedVersion(s.ops[p].pc), [event]));
      }
    case _ =>
  }

  lemma {:induction false} ToldAlwaysFits(setup: Setup, actions: seq<Action>, o: nat)
    requires o in Run(setup, actions).told
    ensures ToldFits(Run(setup, actions), o)
  {
    var before, a := Run(setup, actions[..|actions| - 1]), actions[|actions| - 1];
    if o in before.told {
      ToldAlwaysFits(setup, actions[..|actions| - 1], o);
      ToldStays(setup, before, a, o);
    }
  }

  /**
   * What the caller of an operation is told, the contract's run comes to as well: at once, or, after a
   * failure reported in doubt, as soon as the server has decided.
   */
  lemma HeardAlike(setup: Setup, actions: seq<Action>, o: nat, heard: Result<Envelope>)
    requires setup.maxEvents <= MAX_SAFE && o in Run(setup, actions).ops
    requires HeardBy(Run(setup, actions), o) == Some(heard)
    ensures var s, r := Run(setup, actions), S.Run(setup.cfg, VisibleRun(setup, actions));
      o in r.ops && r.log == LogNow(s) &&
      if InDoubtFor(s, o) then heard == Failure(StoreFailed) && r.ops[o] == s.ops[o] && S.Appends(s.ops[o].pc)
      else r.ops[o].request == s.ops[o].request && r.ops[o].pc == S.Done(heard)
  {
    ContractOp(setup, actions, o);
    if o in Run(setup, actions).told {
      ToldAlwaysFits(setup, actions, o);
      ToldOpIs(Run(setup, actions), o);
    }
  }

  lemma ToldOpIs(s: State, o: nat)
    requires o in s.ops && ToldFits(s, o)
    ensures S.Appends(s.ops[o].pc)
    ensures
      if s.pg.txs[s.calls[o]].pc.InDoubt? then AbstractOp(s, o) == s.ops[o]
      else AbstractOp(s, o).request == s.ops[o].request && AbstractOp(s, o).pc == S.Done(Failure(StoreFailed))
  {
  }

  lemma SameRequest(setup: Setup, actions: seq<Action>, o: nat)
    requires setup.maxEvents <= MAX_SAFE && o in Run(setup, actions).ops
    ensures var r, op := S.Run(setup.cfg, VisibleRun(setup, actions)), Run(setup, actions).ops[o];
      o in r.ops && r.ops[o].request == op.request && (!S.Appends(op.pc) ==> r.ops[o] == op) &&
      (op.committed.Some? ==> r.ops[o].committed.Some?)
  {
    ContractOp(setup, actions, o);
    AbstractOpIs(Run(setup, actions), o);
  }

  lemma AbstractOpIs(s: State, o: nat)
    requires o in s.ops
    ensures AbstractOp(s, o).request == s.ops[o].request && (!S.Appends(s.ops[o].pc) ==> AbstractOp(s, o) == s.ops[o])
    ensures s.ops[o].committed.Some? ==> AbstractOp(s, o).committed.Some?
  {
  }

  /** On a closed continuation no append can be in doubt: its COMMIT is past its comparison, which was lost. */
  lemma NoDoubtOnceClosed(setup: Setup, actions: seq<Action>, o: nat)
    requires setup.maxEvents <= MAX_SAFE && o in Run(setup, actions).ops
    requires !Run(setup, actions).ops[o].request.Create?
    requires |Stream(LogNow(Run(setup, actions)), Run(setup, actions).ops[o].request.continuationId)| == 2
    ensures !InDoubtFor(Run(setup, actions), o)
  {
    var s := Run(setup, actions);
    if InDoubtFor(s, o) {
      RunRefines(setup, actions);
      DoubtIsOpen(setup, s, o);
    }
  }

  lemma DoubtIsOpen(setup: Setup, s: State, o: nat)
    requires Inv(setup, s) && InDoubtFor(s, o) && !s.ops[o].request.Create?
    ensures |Stream(LogNow(s), s.ops[o].request.continuationId)| <= 1
  {
    var t := s.calls[o];
    assert P.TxFits(setup.maxEvents, s.pg, t, s.pg.txs[t]) && AskedBy(s.ops[o], s.pg.txs[t]);
    OpsFit(setup, s, o);
    AppendsToItsOwn(setup.cfg, LogNow(s), s.ops[o]);
    assert |Stream(LogNow(s), s.pg.txs[t].id)| == P.HeadOf(s.pg.tables, s.pg.txs[t].id);
  }

  lemma AppendsToItsOwn(cfg: S.Config, log: Log, op: S.Op)
    requires I.GoodLog(log) && I.OpFits(cfg, log, op) && S.Appends(op.pc) && !op.request.Create?
    ensures op.pc.event.continuationId == op.request.continuationId
  {
    Proofs.ClosingEvent(cfg, op, Stream(log, op.request.continuationId), op.pc.pending, op.pc.event);
  }

  lemma TablesFit(setup: Setup, actions: seq<Action>)
    requires setup.maxEvents <= MAX_SAFE
    ensures P.GoodTables(Run(setup, actions).pg.tables) && WithinBound(setup, Run(setup, actions).pg.tables)
    ensures S.Run(setup.cfg, VisibleRun(setup, actions)).log == P.LogOf(Run(setup, actions).pg.tables)
  {
    RunRefines(setup, actions);
  }

  /**
   * In every reachable state, whichever rows a SELECT may return for a stream decode to a legal stream that
   * replays: no load of the service ever fails on what its own appends have written.
   */
  lemma LoadsAlwaysReplay(setup: Setup, actions: seq<Action>, id: Id, rows: seq<L.Row>)
    requires setup.maxEvents <= MAX_SAFE
    requires L.Selects(L.RawOf(Run(setup, actions).pg.tables), id, setup.maxEvents + 1, rows)
    ensures L.DecodeStream(id, setup.maxEvents, rows).Success?
    ensures var events := L.DecodeStream(id, setup.maxEvents, rows).value;
      events == Stream(LogNow(Run(setup, actions)), id) && LegalStream(events) && |events| <= setup.maxEvents &&
      ReplayContinuation(events) == Success(if events == [] then None else Some(StateOf(events)))
  {
    var s := Run(setup, actions);
    TablesFit(setup, actions);
    L.LoadReturnsTheStream(s.pg.tables, id, setup.maxEvents, rows);
    T.StreamsAreAlwaysLegal(setup.cfg, VisibleRun(setup, actions), id);
  }

  /** And there always are such rows, so a load that does not fail can always go on. */
  lemma LoadsAlwaysReturn(setup: Setup, actions: seq<Action>, id: Id) returns (rows: seq<L.Row>)
    requires setup.maxEvents <= MAX_SAFE
    ensures L.Selects(L.RawOf(Run(setup, actions).pg.tables), id, setup.maxEvents + 1, rows)
  {
    TablesFit(setup, actions);
    rows := L.SomeRowsAreSelected(Run(setup, actions).pg.tables, id, setup.maxEvents + 1);
  }

  lemma ExpectationsWereSeen(setup: Setup, actions: seq<Action>, t: P.TxId)
    requires setup.maxEvents <= MAX_SAFE && t in Run(setup, actions).pg.txs
    ensures P.Inv(setup.maxEvents, Run(setup, actions).pg)
    ensures Run(setup, actions).pg.txs[t].expected <= Run(setup, actions).pg.txs[t].floor
  {
    RunRefines(setup, actions);
  }

  /** The service never guesses ahead, so a conflict always names a version past the one it expected. */
  lemma ConflictsNameAGreaterVersion(setup: Setup, actions: seq<Action>, t: P.TxId)
    requires setup.maxEvents <= MAX_SAFE && t in Run(setup, actions).pg.txs
    requires var pc := Run(setup, actions).pg.txs[t].pc; pc.Finished? && pc.reply.Conflict?
    ensures Run(setup, actions).pg.txs[t].pc.reply.actual > Run(setup, actions).pg.txs[t].expected
  {
    var s := Run(setup, actions).pg;
    ExpectationsWereSeen(setup, actions, t);
    assert P.TxFits(setup.maxEvents, s, t, s.txs[t]);
  }

  ghost predicate ResumedWith(s: State, o: nat, id: Id, state: Envelope) {
    o in s.ops && s.ops[o].request.Resume? && s.ops[o].request.continuationId == id &&
    s.ops[o].pc == S.Done(Success(state))
  }

  /**
   * All resumes that were told of success were told the same, and it is what every later load replays to,
   * whichever of them committed, and whatever was lost on the way.
   */
  lemma ResumesAgreeWithLoads(
    setup: Setup, actions: seq<Action>, o: nat, p: nat, id: Id, a: Envelope, b: Envelope, rows: seq<L.Row>)
    requires setup.maxEvents <= MAX_SAFE
    requires ResumedWith(Run(setup, actions), o, id, a) && ResumedWith(Run(setup, actions), p, id, b)
    requires L.Selects(L.RawOf(Run(setup, actions).pg.tables), id, setup.maxEvents + 1, rows)
    ensures a == b && a.Resumed? && L.DecodeStream(id, setup.maxEvents, rows).Success?
    ensures ReplayContinuation(L.DecodeStream(id, setup.maxEvents, rows).value) == Success(Some(a))
  {
    ResumesAgree(setup, actions, o, p, id, a, b);
    LoadsAlwaysReplay(setup, actions, id, rows);
  }

  lemma ResumedAlike(setup: Setup, actions: seq<Action>, o: nat, id: Id, state: Envelope)
    requires setup.maxEvents <= MAX_SAFE && ResumedWith(Run(setup, actions), o, id, state)
    ensures T.ResumedWith(S.Run(setup.cfg, VisibleRun(setup, actions)), o, id, state)
  {
    SameRequest(setup, actions, o);
  }

  lemma ResumesAgree(setup: Setup, actions: seq<Action>, o: nat, p: nat, id: Id, a: Envelope, b: Envelope)
    requires setup.maxEvents <= MAX_SAFE
    requires ResumedWith(Run(setup, actions), o, id, a) && ResumedWith(Run(setup, actions), p, id, b)
    ensures a == b && a.Resumed?
    ensures ReplayContinuation(Stream(LogNow(Run(setup, actions)), id)) == Success(Some(a))
  {
    ResumedAlike(setup, actions, o, id, a);
    ResumedAlike(setup, actions, p, id, b);
    ContractOp(setup, actions, o);
    T.SuccessfulResumesAgree(setup.cfg, VisibleRun(setup, actions), o, p, id, a, b);
  }

  // ---------------------------------------------------------------- runs that go on

  lemma {:induction false} VisibleRunSplits(setup: Setup, first: seq<Action>, more: seq<Action>)
    returns (rest: seq<S.Action>)
    ensures VisibleRun(setup, first + more) == VisibleRun(setup, first) + rest
    decreases |more|
  {
    if more == [] {
      assert first + more == first;
      rest := [];
    } else {
      var init := more[..|more| - 1];
      var all := first + more;
      assert all[..|all| - 1] == first + init;
      var last := VisibleRunEnds(setup, all);
      var before := VisibleRunSplits(setup, first, init);
      Regroup(VisibleRun(setup, all), VisibleRun(setup, first + init), VisibleRun(setup, first), before, last);
      rest := before + last;
    }
  }

  lemma Regroup<A>(whole: seq<A>, most: seq<A>, start: seq<A>, middle: seq<A>, last: seq<A>)
    requires whole == most + last && most == start + middle
    ensures whole == start + (middle + last)
  {
  }

  lemma VisibleRunEnds(setup: Setup, actions: seq<Action>) returns (last: seq<S.Action>)
    requires actions != []
    ensures VisibleRun(setup, actions) == VisibleRun(setup, actions[..|actions| - 1]) + last
  {
    last := Visible(setup, Run(setup, actions[..|actions| - 1]), actions[|actions| - 1]);
  }

  lemma SameOperations(setup: Setup, actions: seq<Action>)
    requires setup.maxEvents <= MAX_SAFE
    ensures S.Run(setup.cfg, VisibleRun(setup, actions)).ops.Keys == Run(setup, actions).ops.Keys
    ensures S.Run(setup.cfg, VisibleRun(setup, actions)).log == LogNow(Run(setup, actions))
  {
    RunRefines(setup, actions);
  }

  /** What the first run closed is closed in every later state, with the same events. */
  lemma ClosedStays(setup: Setup, first: seq<Action>, more: seq<Action>, id: Id)
    requires setup.maxEvents <= MAX_SAFE && |Stream(LogNow(Run(setup, first)), id)| == 2
    ensures Stream(LogNow(Run(setup, first + more)), id) == Stream(LogNow(Run(setup, first)), id)
  {
    var rest := VisibleRunSplits(setup, first, more);
    SameOperations(setup, first);
    SameOperations(setup, first + more);
    T.LogOnlyGrows(setup.cfg, VisibleRun(setup, first), rest);
  }

  /**
   * The retry of a request whose process died, or whose acknowledgement was lost, on a continuation that the
   * tables show closed: whatever other transactions do meanwhile, it commits nothing and is answered by the
   * stored rows, unless a call of its own failed.
   */
  lemma RetryAfterCommit(setup: Setup, first: seq<Action>, more: seq<Action>, o: nat, heard: Result<Envelope>)
    requires setup.maxEvents <= MAX_SAFE
    requires o !in Run(setup, first).ops && o in Run(setup, first + more).ops
    requires HeardBy(Run(setup, first + more), o) == Some(heard)
    requires var r := Run(setup, first + more).ops[o].request;
      !r.Create? && |Stream(LogNow(Run(setup, first)), r.continuationId)| == 2
    ensures var r := Run(setup, first + more).ops[o].request;
      var stream := Stream(LogNow(Run(setup, first)), r.continuationId);
      LegalStream(stream) && Run(setup, first + more).ops[o].committed.None? &&
      (heard == T.RetryAnswer(setup.cfg, stream, r) ||
       (heard == Failure(StoreFailed) && T.MetFault(setup.cfg, VisibleRun(setup, first + more), o)))
  {
    var id := Run(setup, first + more).ops[o].request.continuationId;
    var rest := VisibleRunSplits(setup, first, more);
    SameOperations(setup, first);
    ClosedStays(setup, first, more, id);
    HeardAlike(setup, first + more, o, heard);
    NoDoubtOnceClosed(setup, first + more, o);
    T.RetryAfterCommit(setup.cfg, VisibleRun(setup, first), rest, o);
    SameRequest(setup, first + more, o);
  }

  lemma RaceIsPastItsAppend(setup: Setup, first: seq<Action>, more: seq<Action>, o: nat)
    requires setup.maxEvents <= MAX_SAFE
    requires o in Run(setup, first).ops && !Run(setup, first).ops[o].request.Create?
    requires Run(setup, first).ops[o].pc.Reload? || Run(setup, first).ops[o].pc.ReloadExpired?
    ensures var end := S.Run(setup.cfg, VisibleRun(setup, first + more));
      o in end.ops && end.ops[o].request == Run(setup, first).ops[o].request && !S.Appends(end.ops[o].pc)
  {
    var rest := VisibleRunSplits(setup, first, more);
    SameRequest(setup, first, o);
    T.LostStaysLost(setup.cfg, VisibleRun(setup, first), rest, o);
  }

  lemma ContractRace(setup: Setup, first: seq<Action>, more: seq<Action>, o: nat)
    requires setup.maxEvents <= MAX_SAFE
    requires o in Run(setup, first).ops && !Run(setup, first).ops[o].request.Create?
    requires Run(setup, first).ops[o].pc.Reload? || Run(setup, first).ops[o].pc.ReloadExpired?
    requires var end := S.Run(setup.cfg, VisibleRun(setup, first + more)); o in end.ops && end.ops[o].pc.Done?
    ensures var r := Run(setup, first).ops[o].request;
      var end := S.Run(setup.cfg, VisibleRun(setup, first + more));
      var stream := Stream(end.log, r.continuationId);
      var outcome := end.ops[o].pc.outcome;
      |stream| == 2 && LegalStream(stream) &&
      (outcome == Failure(StoreFailed) ==> T.MetFault(setup.cfg, VisibleRun(setup, first + more), o)) &&
      (outcome != Failure(StoreFailed) ==>
        if Run(setup, first).ops[o].pc.Reload? then
          (r.Resume? || r.Cancel?) && outcome == T.LostAppendAnswer(stream, r)
        else outcome == T.ClosedAnswer(stream, r))
  {
    var rest := VisibleRunSplits(setup, first, more);
    SameRequest(setup, first, o);
    T.LostRacesAreAnswered(setup.cfg, VisibleRun(setup, first), rest, o);
  }

  /**
   * After a lost append, too, the answer is a function of the stored rows: an operation that was told of a
   * conflict, and reloads, ends with the answer that the final rows of its continuation give.
   */
  lemma LostRacesAreAnswered(setup: Setup, first: seq<Action>, more: seq<Action>, o: nat, heard: Result<Envelope>)
    requires setup.maxEvents <= MAX_SAFE
    requires o in Run(setup, first).ops && !Run(setup, first).ops[o].request.Create?
    requires Run(setup, first).ops[o].pc.Reload? || Run(setup, first).ops[o].pc.ReloadExpired?
    requires o in Run(setup, first + more).ops && HeardBy(Run(setup, first + more), o) == Some(heard)
    ensures var r := Run(setup, first).ops[o].request;
      var stream := Stream(LogNow(Run(setup, first + more)), r.continuationId);
      |stream| == 2 && LegalStream(stream) &&
      (heard == Failure(StoreFailed) ==> T.MetFault(setup.cfg, VisibleRun(setup, first + more), o)) &&
      (heard != Failure(StoreFailed) ==>
        if Run(setup, first).ops[o].pc.Reload? then
          (r.Resume? || r.Cancel?) && heard == T.LostAppendAnswer(stream, r)
        else heard == T.ClosedAnswer(stream, r))
  {
    SameOperations(setup, first + more);
    HeardAlike(setup, first + more, o, heard);
    RaceIsPastItsAppend(setup, first, more, o);
    ContractRace(setup, first, more, o);
  }
}
