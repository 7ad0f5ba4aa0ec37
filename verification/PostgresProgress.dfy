/**
 * Nothing gets stuck over PostgreSQL: whatever the others do, each operation of the composed system has a next
 * action that brings it nearer to its outcome, or waits for a row that a running transaction holds.
 */
module PostgresProgress {
  import opened Domain
  import opened EventLog
  import P = PostgresAppend
  import R = PostgresRuns
  import L = PostgresLoad
  import S = Service
  import T = ServiceTheorems
  import opened PostgresService
  import opened PostgresServiceProofs

  /** How far an operation is from its outcome: its own steps, and the statements of the append it waits for. */
  function ToGo(s: State, o: nat): nat
    requires o in s.ops
  {
    var pc := s.ops[o].pc;
    8 * T.StepsLeft(pc) +
    if !S.Appends(pc) then 0
    else if o in s.calls && s.calls[o] in s.pg.txs then R.StatementsLeft(s.pg.txs[s.calls[o]].pc)
    else 7
  }

  /** Its process runs, its caller has heard nothing yet, and it has no outcome. */
  ghost predicate Unfinished(s: State, o: nat) {
    o in s.ops && o !in s.dead && o !in s.told && !s.ops[o].pc.Done? && !s.ops[o].pc.Crashed?
  }

  ghost predicate Nearer(s: State, n: State, o: nat) {
    o in s.ops && o in n.ops && ToGo(n, o) < ToGo(s, o) <= 79
  }

  // ---------------------------------------------------------------- steps that are not appends

  lemma StepIsNearer(setup: Setup, s: State, o: nat, env: S.Env, rows: seq<L.Row>)
    requires Inv(setup, s) && setup.maxEvents <= MAX_SAFE && Unfinished(s, o) && o !in s.calls
    requires !S.Appends(s.ops[o].pc) && RowsFit(setup, s, s.ops[o], env, rows)
    ensures T.StepsLeft(StepOn(setup, o, s.ops[o], env, rows).op.pc) < T.StepsLeft(s.ops[o].pc)
  {
    StepOnIsStep(setup, s, o, s.ops[o], env, rows);
    OpsFit(setup, s, o);
    T.StepProgresses(setup.cfg, LogNow(s), o, s.ops[o], env);
  }

  lemma MoveIsNearer(setup: Setup, s: State, o: nat, env: S.Env, rows: seq<L.Row>)
    requires Unfinished(s, o) && o !in s.calls && !S.Appends(s.ops[o].pc) && RowsFit(setup, s, s.ops[o], env, rows)
    requires T.StepsLeft(StepOn(setup, o, s.ops[o], env, rows).op.pc) < T.StepsLeft(s.ops[o].pc)
    ensures Nearer(s, Apply(setup, s, Move(o, env, rows)), o)
  {
  }

  // ---------------------------------------------------------------- appends

  lemma AnswerIsNearer(op: S.Op, tx: P.Tx)
    requires S.Appends(op.pc) && Decided(tx)
    ensures T.StepsLeft(Answered(op, tx).pc) < T.StepsLeft(op.pc) && !S.Appends(Answered(op, tx).pc)
  {
  }

  lemma ReceiveIsNearer(setup: Setup, s: State, o: nat)
    requires Unfinished(s, o) && Awaits(s, o) && Decided(s.pg.txs[s.calls[o]])
    ensures Nearer(s, Apply(setup, s, Receive(o)), o)
  {
    AnswerIsNearer(s.ops[o], s.pg.txs[s.calls[o]]);
  }

  lemma SendIsNearer(setup: Setup, s: State, o: nat, t: P.TxId)
    requires Unfinished(s, o) && o !in s.calls && S.Appends(s.ops[o].pc) && t !in s.pg.txs
    ensures Nearer(s, Apply(setup, s, Send(o, t)), o)
  {
  }

  /** The transaction waits for a head row that another one holds, which is not waiting itself. */
  ghost predicate WaitsForARunner(s: State, t: P.TxId) {
    t in s.pg.txs &&
    var id := s.pg.txs[t].id;
    id in s.pg.locks && s.pg.locks[id] != t && s.pg.locks[id] in s.pg.txs &&
    P.Statement(s.pg, s.pg.locks[id]) != s.pg
  }

  lemma StatementIsNearer(setup: Setup, s: State, o: nat, t: P.TxId)
    requires Unfinished(s, o) && Awaits(s, o) && t == s.calls[o] && P.Statement(s.pg, t) != s.pg
    ensures Nearer(s, Apply(setup, s, Database(P.Advance(t))), o)
  {
    R.StatementProgresses(s.pg, t);
  }

  lemma OnlyRunnersStop(maxEvents: int, s: State, t: P.TxId)
    requires P.Inv(maxEvents, s.pg) && t in s.pg.txs && !s.pg.txs[t].pc.Finished? && P.Statement(s.pg, t) == s.pg
    ensures WaitsForARunner(s, t)
  {
    if !P.Blocked(s.pg, t, s.pg.txs[t].id) { R.OnlyLocksStop(s.pg, t); }
    R.HoldersRun(maxEvents, s.pg, s.pg.locks[s.pg.txs[t].id]);
  }

  // ---------------------------------------------------------------- any operation

  /** What an unfinished operation does next: it steps, sends its append, waits for a statement, or hears the answer. */
  ghost function NextAction(s: State, o: nat, env: S.Env, rows: seq<L.Row>, unused: P.TxId): Action
    requires o in s.ops
  {
    if Awaits(s, o) then
      if Decided(s.pg.txs[s.calls[o]]) then Receive(o) else Database(P.Advance(s.calls[o]))
    else if S.Appends(s.ops[o].pc) then Send(o, unused)
    else Move(o, env, rows)
  }

  ghost predicate MayWait(s: State, o: nat) {
    Awaits(s, o) && !Decided(s.pg.txs[s.calls[o]]) && WaitsForARunner(s, s.calls[o])
  }

  lemma WaitingIsNearer(setup: Setup, s: State, o: nat, env: S.Env, rows: seq<L.Row>, unused: P.TxId)
    requires P.Inv(setup.maxEvents, s.pg) && Unfinished(s, o) && Awaits(s, o)
    ensures Nearer(s, Apply(setup, s, NextAction(s, o, env, rows, unused)), o) || MayWait(s, o)
  {
    var t := s.calls[o];
    if Decided(s.pg.txs[t]) {
      ReceiveIsNearer(setup, s, o);
    } else if P.Statement(s.pg, t) != s.pg {
      StatementIsNearer(setup, s, o, t);
    } else {
      OnlyRunnersStop(setup.maxEvents, s, t);
    }
  }

  lemma NextIsNearer(setup: Setup, s: State, o: nat, env: S.Env, rows: seq<L.Row>, unused: P.TxId)
    requires Inv(setup, s) && setup.maxEvents <= MAX_SAFE && Unfinished(s, o) && (o in s.calls ==> Awaits(s, o))
    requires RowsFit(setup, s, s.ops[o], env, rows) && unused !in s.pg.txs
    ensures Nearer(s, Apply(setup, s, NextAction(s, o, env, rows, unused)), o) || MayWait(s, o)
  {
    if Awaits(s, o) {
      WaitingIsNearer(setup, s, o, env, rows, unused);
    } else if S.Appends(s.ops[o].pc) {
      SendIsNearer(setup, s, o, unused);
    } else {
      StepIsNearer(setup, s, o, env, rows);
      MoveIsNearer(setup, s, o, env, rows);
    }
  }

  lemma RunFits(setup: Setup, actions: seq<Action>, o: nat)
    requires setup.maxEvents <= MAX_SAFE
    ensures Inv(setup, Run(setup, actions)) && (o in Run(setup, actions).calls ==> Awaits(Run(setup, actions), o))
  {
    RunRefines(setup, actions);
  }

  /**
   * In every reachable state each unfinished operation is brought nearer to its outcome, of which it is at most
   * 79 actions away, by its next action, whatever that brings: a step, with any rows that its load may return, the
   * start of its append, the next statement of the transaction it waits for, or the answer to that. Only a
   * transaction may have to wait, for a head row that another one holds which is not waiting itself.
   */
  lemma OperationsProgress(
    setup: Setup, actions: seq<Action>, o: nat, env: S.Env, rows: seq<L.Row>, unused: P.TxId)
    requires setup.maxEvents <= MAX_SAFE && Unfinished(Run(setup, actions), o)
    requires RowsFit(setup, Run(setup, actions), Run(setup, actions).ops[o], env, rows)
    requires unused !in Run(setup, actions).pg.txs
    ensures var s := Run(setup, actions);
      Nearer(s, Run(setup, actions + [NextAction(s, o, env, rows, unused)]), o) || MayWait(s, o)
  {
    var a := NextAction(Run(setup, actions), o, env, rows, unused);
    assert (actions + [a])[..|actions|] == actions;
    RunFits(setup, actions, o);
    NextIsNearer(setup, Run(setup, actions), o, env, rows, unused);
  }

  // ---------------------------------------------------------------- processes that are gone

  /** An operation whose process is gone moves no more, sends nothing and hears nothing, whatever happens. */
  lemma TheDeadDoNothing(setup: Setup, s: State, a: Action, o: nat)
    requires o in s.dead && o in s.ops
    ensures var n := Apply(setup, s, a);
      o in n.dead && o in n.ops && n.ops[o] == s.ops[o] && (o in n.told <==> o in s.told) &&
      (o in n.calls <==> o in s.calls) && (o in s.calls ==> n.calls[o] == s.calls[o])
  {
    match a
    case Begin(_, _) =>
    case Die(_) =>
    case Move(_, _, _) =>
    case Send(_, _) =>
    case Database(_) =>
    case Receive(_) =>
    case Report(_) =>
  }

  // ---------------------------------------------------------------- what callers hear

  /**
   * A caller whose COMMIT is in doubt can be told of a failure and hears just that from then on; any other hears
   * the outcome of its operation as soon as it has one, and nothing before.
   */
  lemma CallersHear(setup: Setup, s: State, o: nat)
    requires o in s.ops
    ensures Awaits(s, o) && o !in s.dead && s.pg.txs[s.calls[o]].pc.InDoubt? ==>
      HeardBy(Apply(setup, s, Report(o)), o) == Some(Failure(StoreFailed))
    ensures o in s.told ==> HeardBy(s, o) == Some(Failure(StoreFailed))
    ensures o !in s.told ==> HeardBy(s, o) == if s.ops[o].pc.Done? then Some(s.ops[o].pc.outcome) else None
  {
  }
}
