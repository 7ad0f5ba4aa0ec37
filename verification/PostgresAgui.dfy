/**
 * Resume batches over PostgreSQL: carrying one out in part, crashing and starting over is safe with the
 * transactions and their lost answers, too.
 */
module PostgresAgui {
  import opened Domain
  import opened EventLog
  import P = PostgresAppend
  import R = PostgresRuns
  import L = PostgresLoad
  import S = Service
  import I = ServiceInvariants
  import Runs = ServiceRuns
  import T = ServiceTheorems
  import opened PostgresService
  import opened PostgresServiceProofs
  import Theorems = PostgresServiceTheorems
  import opened AguiReceipt
  import opened Protocol
  import opened AguiResume
  import opened AguiTheorems
  import Batches = AguiService

  // ---------------------------------------------------------------- who has committed

  ghost predicate AppliedFor(s: State, o: nat, t: P.TxId) {
    t in s.pg.txs && t in s.owners && s.owners[t] == o && s.pg.txs[t].applied
  }

  /** Some transaction of the operation took effect. */
  ghost predicate Committed(s: State, o: nat) { exists t :: AppliedFor(s, o, t) }

  lemma AppliedForStays(setup: Setup, s: State, a: Action, o: nat, t: P.TxId)
    requires AppliedFor(s, o, t)
    ensures AppliedFor(Apply(setup, s, a), o, t)
  {
    match a
    case Database(b) =>
      if !b.Call? { R.AppliedOnce(setup.maxEvents, s.pg, b, t); }
    case Send(p, u) =>
      if Sends(s, p, u) {
        var event := s.ops[p].pc.event;
        R.AppliedOnce(setup.maxEvents, s.pg,
                      P.Call(u, event.continuationId, S.ExpectedVersion(s.ops[p].pc), [event]), t);
      }
    case _ =>
  }

  lemma StepOnCommitsNothing(setup: Setup, s: State, o: nat, env: S.Env, rows: seq<L.Row>)
    requires Inv(setup, s) && setup.maxEvents <= MAX_SAFE && Moves(setup, s, o, env, rows)
    ensures StepOn(setup, o, s.ops[o], env, rows).op.committed == s.ops[o].committed
  {
    StepOnIsStep(setup, s, o, s.ops[o], env, rows);
    Runs.StepShape(setup.cfg, LogNow(s), o, s.ops[o], env);
  }

  ghost predicate MovesCommitNothing(setup: Setup, s: State, a: Action) {
    a.Move? && Moves(setup, s, a.o, a.env, a.rows) ==>
      StepOn(setup, a.o, s.ops[a.o], a.env, a.rows).op.committed == s.ops[a.o].committed
  }

  /** One action: whoever has a committed event on record afterwards had it before, or has a transaction to show. */
  lemma RecordNeedsTransaction(setup: Setup, s: State, a: Action, o: nat)
    requires CallsFit(s) && MovesCommitNothing(setup, s, a) && o in Apply(setup, s, a).ops
    requires Apply(setup, s, a).ops[o].committed.Some?
    ensures (o in s.ops && s.ops[o].committed.Some?) || Committed(s, o)
  {
    if a.Receive? && a.o == o && Apply(setup, s, a) != s && s.ops[o].committed.None? {
      assert AppliedFor(s, o, s.calls[o]);
    }
  }

  lemma {:induction false} RecordedIsCommitted(setup: Setup, actions: seq<Action>, o: nat)
    requires setup.maxEvents <= MAX_SAFE && o in Run(setup, actions).ops
    requires Run(setup, actions).ops[o].committed.Some?
    ensures Committed(Run(setup, actions), o)
  {
    var init, a := actions[..|actions| - 1], actions[|actions| - 1];
    var s := Run(setup, init);
    RunRefines(setup, init);
    if a.Move? && Moves(setup, s, a.o, a.env, a.rows) { StepOnCommitsNothing(setup, s, a.o, a.env, a.rows); }
    RecordNeedsTransaction(setup, s, a, o);
    if o in s.ops && s.ops[o].committed.Some? { RecordedIsCommitted(setup, init, o); }
    var t :| AppliedFor(s, o, t);
    AppliedForStays(setup, s, a, o, t);
  }

  lemma AwaitedIsCommitted(s: State, o: nat)
    requires CallsFit(s) && o in s.ops && AbstractOp(s, o).committed.Some? && s.ops[o].committed.None?
    ensures Committed(s, o)
  {
    assert AppliedFor(s, o, s.calls[o]);
  }

  /** What an operation committed in the contract's run, a transaction of it wrote. */
  lemma CommittedByTransaction(setup: Setup, actions: seq<Action>, o: nat)
    requires setup.maxEvents <= MAX_SAFE
    requires o in S.Run(setup.cfg, VisibleRun(setup, actions)).ops
    requires S.Run(setup.cfg, VisibleRun(setup, actions)).ops[o].committed.Some?
    ensures o in Run(setup, actions).ops && Committed(Run(setup, actions), o)
  {
    Theorems.SameOperations(setup, actions);
    Theorems.ContractOp(setup, actions, o);
    if Run(setup, actions).ops[o].committed.Some? {
      RecordedIsCommitted(setup, actions, o);
    } else {
      CallsOfRun(setup, actions);
      AwaitedIsCommitted(Run(setup, actions), o);
    }
  }

  lemma CallsOfRun(setup: Setup, actions: seq<Action>)
    requires setup.maxEvents <= MAX_SAFE
    ensures CallsFit(Run(setup, actions))
  {
    RunRefines(setup, actions);
  }

  // ---------------------------------------------------------------- batches

  /**
   * A command executed again once the tables show its effect writes nothing, whatever goes on meanwhile, and
   * its caller is told the stored outcome, unless a call of its own failed.
   */
  lemma ReexecutionAppendsNothing(
    setup: Setup, first: seq<Action>, more: seq<Action>, o: nat, e: Envelope, command: Command,
    heard: Result<Envelope>)
    requires setup.maxEvents <= MAX_SAFE
    requires o !in Run(setup, first).ops && o in Run(setup, first + more).ops
    requires HeardBy(Run(setup, first + more), o) == Some(heard) && Settled(e, command)
    requires Batches.Executes(Run(setup, first + more).ops[o].request, command)
    requires var stream := Stream(LogNow(Run(setup, first)), command.continuationId);
      ReplayContinuation(stream) == Success(Some(e)) &&
      (command.ResumeCommand? ==> I.TokenFits(setup.cfg, Run(setup, first + more).ops[o].request, stream))
    ensures Run(setup, first + more).ops[o].committed.None?
    ensures heard == Success(e) ||
      (heard == Failure(StoreFailed) && T.MetFault(setup.cfg, VisibleRun(setup, first + more), o))
  {
    var stream := Stream(LogNow(Run(setup, first)), command.continuationId);
    ReplayAcceptsLegalStreams(stream);
    Theorems.RetryAfterCommit(setup, first, more, o, heard);
    Batches.SettledAnswer(setup.cfg, stream, Run(setup, first + more).ops[o].request, command);
  }

  /** Of the transactions that took effect, those on open members of the batch are inspections' or its own. */
  ghost predicate OnlyTheBatchCommits(before: Log, s: State, commands: seq<Command>) {
    forall o, k | o in s.ops && Committed(s, o) && 0 <= k < |commands| ::
      Batches.ActsForBatch(before, s.ops[o].request, commands[k])
  }

  lemma OnlyTheBatchActed(setup: Setup, first: seq<Action>, actions: seq<Action>, commands: seq<Command>)
    requires setup.maxEvents <= MAX_SAFE
    requires OnlyTheBatchCommits(LogNow(Run(setup, first)), Run(setup, actions), commands)
    ensures Batches.OnlyTheBatchActs(LogNow(Run(setup, first)), S.Run(setup.cfg, VisibleRun(setup, actions)).ops,
                                     commands)
  {
    var ops := S.Run(setup.cfg, VisibleRun(setup, actions)).ops;
    forall o, k | o in ops && 0 <= k < |commands| && ops[o].committed.Some?
      ensures Batches.ActsForBatch(LogNow(Run(setup, first)), ops[o].request, commands[k])
    {
      CommittedByTransaction(setup, actions, o);
      Theorems.SameRequest(setup, actions, o);
    }
  }

  /**
   * A batch accepted against one load of the tables may be carried out in part by processes that die, with
   * statements that fail and COMMITs that are lost or settled late. Validating the same input against the
   * next load returns the same commands exactly if no member expired, and none otherwise.
   */
  lemma BatchIsCrashSafe(
    setup: Setup, first: seq<Action>, more: seq<Action>, c: Codec, input: RunInput, receipt: Receipt,
    current: seq<Envelope>, now: Time, policy: Option<Policy>, later: seq<Envelope>, laterNow: Time)
    requires setup.maxEvents <= MAX_SAFE
    requires Batches.Loaded(LogNow(Run(setup, first)), current)
    requires Batches.Loaded(LogNow(Run(setup, first + more)), later) && CohortIds(current) == CohortIds(later)
    requires Validate(c, true, Some(input), Some(receipt), current, Some(now), policy).Commands?
    requires OnlyTheBatchCommits(LogNow(Run(setup, first)), Run(setup, first + more),
      Validate(c, true, Some(input), Some(receipt), current, Some(now), policy).commands)
    requires Unexpired(later, laterNow)
    ensures |current| == |later|
    ensures var batch := Validate(c, true, Some(input), Some(receipt), current, Some(now), policy);
      var again := Validate(c, true, Some(input), Some(receipt), later, Some(laterNow), policy);
      if Batches.NoneExpired(current, later) then again == batch else again.Rejected?
  {
    var commands := Validate(c, true, Some(input), Some(receipt), current, Some(now), policy).commands;
    var rest := Theorems.VisibleRunSplits(setup, first, more);
    Theorems.SameOperations(setup, first);
    Theorems.SameOperations(setup, first + more);
    OnlyTheBatchActed(setup, first, first + more, commands);
    Batches.BatchIsCrashSafe(setup.cfg, VisibleRun(setup, first), rest, c, input, receipt, current, now, policy, later,
                             laterNow);
  }
}
